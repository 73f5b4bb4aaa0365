/** The deterministic facts gate (examples/benchmark/run_benchmark.py): a fact is in an answer as a
    substring, or by one narrow second chance within a sentence. */
module FactsGate {
  import opened Options
  import opened Text
  import opened Seqs
  import MinWindow

  type Window = MinWindow.Window

  predicate IsStopword(t: string) {
    t in {"a", "an", "the", "of", "s"}
  }

  predicate IsFiller(t: string) {
    t in {"a", "an", "the", "of", "s", "in", "on", "at", "to", "for", "by", "with", "from",
          "as", "is", "was", "are", "were", "be", "been", "that", "which", "this", "these",
          "those", "it", "its", "his", "her", "their", "our", "your"}
  }

  predicate IsNegation(t: string) {
    t in {"not", "no", "never", "without", "nor", "none", "neither", "cannot", "cant", "dont",
          "isn", "wasn", "aren", "weren", "doesn", "didn", "don", "won", "hasn", "haven",
          "couldn", "shouldn", "wouldn"}
  }

  const WINDOW_SLACK := 3

  function WithoutStopwords(toks: seq<string>): seq<string> {
    if toks == [] then [] else
      WithoutStopwords(toks[..|toks| - 1])
      + if IsStopword(toks[|toks| - 1]) then [] else [toks[|toks| - 1]]
  }

  function Content(needle: string): seq<string> {
    WithoutStopwords(Tokens(needle))
  }

  lemma OneMoreToken(toks: seq<string>, t: string)
    ensures WithoutStopwords(toks + [t]) == WithoutStopwords(toks) + if IsStopword(t) then [] else [t]
  {
    assert (toks + [t])[..|toks|] == toks;
  }

  /** The content is the tokens that are no stopwords, in order: of one token that token or nothing ... */
  lemma ContentOfOne(t: string)
    ensures WithoutStopwords([t]) == if IsStopword(t) then [] else [t]
  {
    OneMoreToken([], t);
    assert [] + [t] == [t];
  }

  /** ... and of more the content of the parts. */
  lemma {:induction false} ContentOfParts(a: seq<string>, b: seq<string>)
    ensures WithoutStopwords(a + b) == WithoutStopwords(a) + WithoutStopwords(b)
    decreases |b|
  {
    if b == [] {
      assert a + b == a;
      assert WithoutStopwords(b) == [];
    } else {
      var n := |b| - 1;
      var last := if IsStopword(b[n]) then [] else [b[n]];
      ContentOfParts(a, b[..n]);
      OneMoreToken(a + b[..n], b[n]);
      OneMoreToken(b[..n], b[n]);
      hide *;
      assert b == b[..n] + [b[n]] && a + b == a + b[..n] + [b[n]];
      Regroup(WithoutStopwords(a), WithoutStopwords(b[..n]), last);
    }
  }

  /** What carries no fact may stand between a fact's words, what negates it may not, and neither may
      what joins separate items. */
  lemma WordLists(t: string)
    ensures IsStopword(t) ==> IsFiller(t)
    ensures IsFiller(t) ==> !IsNegation(t)
    ensures !IsFiller("and") && !IsFiller("or")
  {
  }

  predicate OccursAt(text: string, needle: string, i: int) {
    0 <= i <= |text| - |needle| && text[i..i + |needle|] == needle
  }

  predicate Contains(text: string, needle: string) {
    exists i | 0 <= i <= |text| - |needle| :: OccursAt(text, needle, i)
  }

  // ------------------------------------------------------------------ one fact

  /** A stretch of a sentence that may stand for the fact: short enough, and nothing but the
      fact's own words and filler. */
  predicate Glued(toks: seq<string>, content: seq<string>, w: Window) {
    && MinWindow.Within(toks, w)
    && w.end - w.start < 2 * |content| + 3
    && forall i | w.start <= i <= w.end :: toks[i] in content || IsFiller(toks[i])
  }

  /** A negation the fact does not contain itself. */
  predicate Negated(toks: seq<string>, content: seq<string>) {
    exists i | 0 <= i < |toks| :: IsNegation(toks[i]) && toks[i] !in content
  }

  /** The sentence's shortest stretch holding every content token stands for the fact. */
  ghost predicate Rephrases(toks: seq<string>, content: seq<string>) {
    && !Negated(toks, content)
    && exists w :: MinWindow.IsMinWindow(toks, MinWindow.Elements(content), w) && Glued(toks, content, w)
  }

  ghost predicate Rephrased(sentences: seq<seq<string>>, content: seq<string>) {
    |content| >= 2 && exists k | 0 <= k < |sentences| :: Rephrases(sentences[k], content)
  }

  ghost predicate Present(lower: Lowering, fact: string, text: string, sentences: seq<seq<string>>) {
    var needle := Normalise(lower, fact);
    Contains(text, needle) || Rephrased(sentences, Content(needle))
  }

  lemma EmptyIsContained(text: string)
    ensures Contains(text, [])
  {
    assert OccursAt(text, [], 0);
  }

  /** _fact_present. */
  method FactPresent(lower: Lowering, fact: string, text: string, sentences: seq<seq<string>>) returns (present: bool)
    ensures present <==> Present(lower, fact, text, sentences)
  {
    hide Contains;
    hide Content;
    hide Glued;
    hide Negated;
    hide Rephrases;
    hide Normalise;
    hide MinWindow.IsMinWindow;
    var needle := Normalise(lower, fact);
    if needle == [] {
      EmptyIsContained(text);
      return true;
    }
    if Contains(text, needle) {
      return true;
    }
    var content := Content(needle);
    if |content| < 2 {
      return false;
    }
    for k := 0 to |sentences|
      invariant forall j | 0 <= j < k :: !Rephrases(sentences[j], content)
    {
      var toks := sentences[k];
      var win := MinWindow.MinWindow(toks, content);
      if win.None? {
        NoWindow(toks, content);
        continue;
      }
      OnlyWindow(toks, content, win.value);
      GluedIs(toks, content, win.value);
      var Window(start, end) := win.value;
      if end - start + 1 > 2 * |content| + WINDOW_SLACK {
        continue;
      }
      if exists t | t in toks[start..end + 1] :: t !in content && !IsFiller(t) {
        continue;
      }
      if exists t | t in toks :: IsNegation(t) && t !in content {
        continue;
      }
      return true;
    }
    return false;
  }

  lemma GluedIs(toks: seq<string>, content: seq<string>, w: Window)
    requires MinWindow.Within(toks, w)
    ensures Glued(toks, content, w) <==>
              && w.end - w.start + 1 <= 2 * |content| + WINDOW_SLACK
              && forall t | t in toks[w.start..w.end + 1] :: t in content || IsFiller(t)
    ensures Negated(toks, content) <==> exists t | t in toks :: IsNegation(t) && t !in content
  {
    hide IsFiller;
    hide IsNegation;
    var stretch := toks[w.start..w.end + 1];
    assert forall i | w.start <= i <= w.end :: toks[i] == stretch[i - w.start] && toks[i] in stretch;
    forall t | t in stretch ensures exists i :: w.start <= i <= w.end && toks[i] == t {
      var j :| 0 <= j < |stretch| && stretch[j] == t;
      assert toks[w.start + j] == t;
    }
  }

  lemma NoWindow(toks: seq<string>, content: seq<string>)
    requires content == [] || exists n :: n in content && n !in toks
    ensures !Rephrases(toks, content)
  {
    if content == [] {
      assert MinWindow.Elements(content) == {};
    } else {
      var n :| n in content && n !in toks;
      assert n in MinWindow.Elements(content);
    }
  }

  lemma OnlyWindow(toks: seq<string>, content: seq<string>, w: Window)
    requires MinWindow.IsMinWindow(toks, MinWindow.Elements(content), w)
    ensures MinWindow.Within(toks, w)
    ensures Rephrases(toks, content) <==> Glued(toks, content, w) && !Negated(toks, content)
  {
    hide Glued;
    hide Negated;
    forall v | MinWindow.IsMinWindow(toks, MinWindow.Elements(content), v) ensures v == w {
      MinWindow.MinWindowUnique(toks, MinWindow.Elements(content), v, w);
    }
  }

  // ------------------------------------------------------------------ a whole answer

  /** An expected fact, or a group any one of which will do. */
  datatype Expected = One(fact: string) | AnyOf(facts: seq<string>)

  function TokensOfEach(ps: seq<string>): seq<seq<string>> {
    seq(|ps|, i requires 0 <= i < |ps| => Tokens(ps[i]))
  }

  ghost predicate InAnswer(lower: Lowering, answer: string, fact: string) {
    var text := Normalise(lower, answer);
    Present(lower, fact, text, TokensOfEach(Sentences(text)))
  }

  ghost predicate Satisfied(lower: Lowering, answer: string, item: Expected) {
    match item
    case One(fact) => InAnswer(lower, answer, fact)
    case AnyOf(facts) => exists i :: 0 <= i < |facts| && InAnswer(lower, answer, facts[i])
  }

  predicate Forbids(lower: Lowering, answer: string, banned: string) {
    Contains(Normalise(lower, answer), Normalise(lower, banned))
  }

  /** The expected items the answer does not satisfy, in order. */
  ghost function Missing(lower: Lowering, answer: string, expected: seq<Expected>): seq<Expected> {
    if expected == [] then [] else
      var n := |expected| - 1;
      Missing(lower, answer, expected[..n]) + if Satisfied(lower, answer, expected[n]) then [] else [expected[n]]
  }

  function Banned(lower: Lowering, answer: string, forbidden: seq<string>): seq<string> {
    if forbidden == [] then [] else
      var n := |forbidden| - 1;
      Banned(lower, answer, forbidden[..n]) + if Forbids(lower, answer, forbidden[n]) then [forbidden[n]] else []
  }

  /** check_facts. */
  method CheckFacts(lower: Lowering, answer: string, expected: seq<Expected>, forbidden: seq<string>)
    returns (passed: bool, missing: seq<Expected>, present: seq<string>)
    ensures missing == Missing(lower, answer, expected) && present == Banned(lower, answer, forbidden)
    ensures passed <==> (forall i | 0 <= i < |expected| :: Satisfied(lower, answer, expected[i]))
                        && forall i | 0 <= i < |forbidden| :: !Forbids(lower, answer, forbidden[i])
  {
    hide Present;
    hide Contains;
    var text := Normalise(lower, answer);
    var sentences := SplitSentences(text);
    var tokens := TokensOfEach(sentences);
    missing := [];
    for i := 0 to |expected|
      invariant missing == Missing(lower, answer, expected[..i])
    {
      assert expected[..i + 1][..i] == expected[..i];
      var found := false;
      match expected[i] {
        case One(fact) =>
          found := FactPresent(lower, fact, text, tokens);
          assert found <==> InAnswer(lower, answer, fact);
        case AnyOf(facts) =>
          for j := 0 to |facts|
            invariant found <==> exists m :: 0 <= m < j && InAnswer(lower, answer, facts[m])
          {
            var one := FactPresent(lower, facts[j], text, tokens);
            assert one <==> InAnswer(lower, answer, facts[j]);
            found := found || one;
          }
      }
      if !found {
        missing := missing + [expected[i]];
      }
    }
    assert expected[..|expected|] == expected;
    present := Banned(lower, answer, forbidden);
    MissingNone(lower, answer, expected);
    BannedNone(lower, answer, forbidden);
    passed := missing == [] && present == [];
  }

  lemma {:induction false} MissingNone(lower: Lowering, answer: string, expected: seq<Expected>)
    ensures Missing(lower, answer, expected) == [] <==> forall i | 0 <= i < |expected| :: Satisfied(lower, answer, expected[i])
  {
    hide Satisfied;
    if expected == [] {
    } else {
      MissingNone(lower, answer, expected[..|expected| - 1]);
    }
  }

  lemma {:induction false} BannedNone(lower: Lowering, answer: string, forbidden: seq<string>)
    ensures Banned(lower, answer, forbidden) == [] <==> forall i | 0 <= i < |forbidden| :: !Forbids(lower, answer, forbidden[i])
  {
    hide Forbids;
    if forbidden == [] {
    } else {
      BannedNone(lower, answer, forbidden[..|forbidden| - 1]);
    }
  }

  // ------------------------------------------------------------------ the gate cannot manufacture a pass

  lemma {:induction false} SentenceIsStretch(ps: seq<string>, k: nat)
    requires k < |ps|
    ensures exists a, b :: AllTokens(ps) == a + Tokens(ps[k]) + b
  {
    var n := |ps| - 1;
    if k == n {
      assert AllTokens(ps) == AllTokens(ps[..n]) + Tokens(ps[k]) + [];
    } else {
      SentenceIsStretch(ps[..n], k);
      var a, b :| AllTokens(ps[..n]) == a + Tokens(ps[..n][k]) + b;
      assert AllTokens(ps) == a + Tokens(ps[k]) + (b + Tokens(ps[n]));
    }
  }

  /** toks[l..r] is a stretch of the answer's own tokens, inside one sentence of it, that holds
      every content token of the fact, is made only of them and filler, within the cap; and the
      sentence has no negation the fact does not. */
  ghost predicate Vouches(text: string, toks: seq<string>, content: seq<string>, w: Window) {
    && (exists a, b :: Tokens(text) == a + toks + b)
    && Glued(toks, content, w)
    && (forall t | t in content :: t in toks[w.start..w.end + 1])
    && !Negated(toks, content)
  }

  /** Every fact accepted without being a substring of the answer has at least two content
      tokens, and one sentence of the answer vouches for it. */
  lemma NoManufacturedPass(lower: Lowering, answer: string, fact: string)
    requires Lowers(lower)
    requires InAnswer(lower, answer, fact) && !Contains(Normalise(lower, answer), Normalise(lower, fact))
    ensures |Content(Normalise(lower, fact))| >= 2
    ensures exists k, w :: 0 <= k < |Sentences(Normalise(lower, answer))| && Vouches(Normalise(lower, answer),
              Tokens(Sentences(Normalise(lower, answer))[k]), Content(Normalise(lower, fact)), w)
  {
    hide *;
    var text, content := Normalise(lower, answer), Content(Normalise(lower, fact));
    var ps := Sentences(text);
    NormaliseTidies(lower, answer);
    SentencesKeepTokens(text);
    InAnswerOnly(lower, answer, fact);
    var k := RephrasedBy(ps, content);
    SentenceIsStretch(ps, k);
    var w := RephrasesVouches(text, Tokens(ps[k]), content);
  }

  lemma InAnswerOnly(lower: Lowering, answer: string, fact: string)
    requires InAnswer(lower, answer, fact) && !Contains(Normalise(lower, answer), Normalise(lower, fact))
    ensures Rephrased(TokensOfEach(Sentences(Normalise(lower, answer))), Content(Normalise(lower, fact)))
  {
    hide Rephrased;
    hide Contains;
    hide Normalise;
    hide Sentences;
    hide Content;
  }

  lemma RephrasedBy(ps: seq<string>, content: seq<string>) returns (k: nat)
    requires Rephrased(TokensOfEach(ps), content)
    ensures |content| >= 2 && k < |ps| && Rephrases(Tokens(ps[k]), content)
  {
    hide Rephrases;
    k :| 0 <= k < |ps| && Rephrases(TokensOfEach(ps)[k], content);
  }

  lemma RephrasesVouches(text: string, toks: seq<string>, content: seq<string>) returns (w: Window)
    requires Rephrases(toks, content)
    requires exists a, b :: Tokens(text) == a + toks + b
    ensures Vouches(text, toks, content, w)
  {
    hide Glued;
    hide Negated;
    hide Tokens;
    w :| MinWindow.IsMinWindow(toks, MinWindow.Elements(content), w) && Glued(toks, content, w);
    forall t | t in content ensures t in toks[w.start..w.end + 1] {
      assert t in MinWindow.Elements(content);
    }
    assert MinWindow.Within(toks, w);
  }

  /** A fact one of whose content tokens the answer lacks is accepted only as a substring. */
  lemma MissingTokenFails(lower: Lowering, answer: string, fact: string, t: string)
    requires Lowers(lower) && t in Content(Normalise(lower, fact)) && t !in Tokens(Normalise(lower, answer))
    ensures InAnswer(lower, answer, fact) <==> Contains(Normalise(lower, answer), Normalise(lower, fact))
  {
    hide Contains;
    hide Glued;
    hide Negated;
    hide Content;
    hide Normalise;
    if InAnswer(lower, answer, fact) && !Contains(Normalise(lower, answer), Normalise(lower, fact)) {
      var text, content := Normalise(lower, answer), Content(Normalise(lower, fact));
      NoManufacturedPass(lower, answer, fact);
      var k, w :| 0 <= k < |Sentences(text)| && Vouches(text, Tokens(Sentences(text)[k]), content, w);
      VouchedIsThere(text, Tokens(Sentences(text)[k]), content, w, t);
    }
  }

  lemma VouchedIsThere(text: string, toks: seq<string>, content: seq<string>, w: Window, t: string)
    requires Vouches(text, toks, content, w) && t in content
    ensures t in Tokens(text)
  {
    hide Negated;
    hide Tokens;
    assert t in toks[w.start..w.end + 1];
    assert t in toks;
    var a, b :| Tokens(text) == a + toks + b;
  }

  lemma HeldBy(toks: seq<string>, content: seq<string>, w: Window, i: nat, j: nat)
    requires |content| == 2 && MinWindow.Within(toks, w) && i <= w.end - w.start && j <= w.end - w.start
    requires toks[w.start + i] == content[0] && toks[w.start + j] == content[1]
    ensures MinWindow.Covers(toks, MinWindow.Elements(content), w)
  {
    var stretch := toks[w.start..w.end + 1];
    assert stretch[i] == content[0] && stretch[j] == content[1];
  }

  lemma Holds(toks: seq<string>, need: set<string>, v: Window, n: string) returns (i: nat)
    requires MinWindow.Covers(toks, need, v) && n in need
    ensures v.start <= i <= v.end && toks[i] == n
  {
    var stretch := toks[v.start..v.end + 1];
    assert n in stretch;
    var j :| 0 <= j < |stretch| && stretch[j] == n;
    i := v.start + j;
  }

  const SPREAD := ["gary", "x", "oldman", "of", "the", "gary"]
  const NAME := ["gary", "oldman"]

  lemma SpreadWindow()
    ensures MinWindow.IsMinWindow(SPREAD, MinWindow.Elements(NAME), MinWindow.Window(0, 2))
  {
    var need := MinWindow.Elements(NAME);
    var w := MinWindow.Window(0, 2);
    HeldBy(SPREAD, NAME, w, 0, 2);
    assert NAME[0] in need && NAME[1] in need;
    forall v | MinWindow.Covers(SPREAD, need, v) ensures MinWindow.Before(w, v) {
      hide MinWindow.Covers;
      var g := Holds(SPREAD, need, v, NAME[0]);
      var o := Holds(SPREAD, need, v, NAME[1]);
      assert o == 2 && (g == 0 || g == 5);
    }
  }

  /** The converse fails, on the safe side: only the shortest stretch is looked at, so a sentence
      with a longer one made of the fact and filler alone is still rejected. */
  lemma LongerStretchIsRejected()
    ensures Glued(SPREAD, NAME, MinWindow.Window(2, 5)) && !Negated(SPREAD, NAME)
    ensures MinWindow.Covers(SPREAD, MinWindow.Elements(NAME), MinWindow.Window(2, 5))
    ensures !Rephrases(SPREAD, NAME)
  {
    hide MinWindow.IsMinWindow;
    hide MinWindow.Elements;
    hide Rephrases;
    HeldBy(SPREAD, NAME, MinWindow.Window(2, 5), 3, 0);
    SpreadWindow();
    OnlyWindow(SPREAD, NAME, MinWindow.Window(0, 2));
    assert SPREAD[1] == "x";
  }
  const JET := ["the", "private", "jet", "of", "donald", "j", "trump"]
  const OWNER := ["donald", "j", "trump", "private", "jet"]

  /** A rephrasing is accepted: "the private jet of Donald J. Trump" for "Donald J. Trump's private
      jet", whose possessive is a stopword. With a "not" in the sentence it is not. */
  lemma RephrasingIsAccepted()
    ensures WithoutStopwords(["donald", "j", "trump", "s", "private", "jet"]) == OWNER
    ensures Rephrases(JET, OWNER) && !Rephrases(["not"] + JET, OWNER)
  {
    OwnerContent();
    JetWindow();
    var w := MinWindow.Window(1, 6);
    assert Glued(JET, OWNER, w) && !Negated(JET, OWNER);
    assert (["not"] + JET)[0] == "not" && IsNegation("not") && "not" !in OWNER;
    assert Negated(["not"] + JET, OWNER);
    hide MinWindow.IsMinWindow;
  }

  lemma OwnerContent()
    ensures WithoutStopwords(["donald", "j", "trump", "s", "private", "jet"]) == OWNER
  {
    ContentOfOne("donald");
    ContentOfOne("j");
    ContentOfOne("trump");
    ContentOfOne("s");
    ContentOfOne("private");
    ContentOfOne("jet");
    hide WithoutStopwords;
    ContentOfParts(["donald"], ["j"]);
    assert ["donald"] + ["j"] == ["donald", "j"];
    ContentOfParts(["donald", "j"], ["trump"]);
    assert ["donald", "j"] + ["trump"] == ["donald", "j", "trump"];
    ContentOfParts(["donald", "j", "trump"], ["s"]);
    assert ["donald", "j", "trump"] + ["s"] == ["donald", "j", "trump", "s"];
    ContentOfParts(["donald", "j", "trump", "s"], ["private"]);
    assert ["donald", "j", "trump", "s"] + ["private"] == ["donald", "j", "trump", "s", "private"];
    ContentOfParts(["donald", "j", "trump", "s", "private"], ["jet"]);
    assert ["donald", "j", "trump", "s", "private"] + ["jet"] == ["donald", "j", "trump", "s", "private", "jet"];
  }

  lemma JetWindow()
    ensures MinWindow.IsMinWindow(JET, MinWindow.Elements(OWNER), MinWindow.Window(1, 6))
  {
    var need, w := MinWindow.Elements(OWNER), MinWindow.Window(1, 6);
    var stretch := JET[1..7];
    assert stretch[0] == "private" && stretch[1] == "jet" && stretch[3] == "donald" && stretch[4] == "j" && stretch[5] == "trump";
    assert OWNER[2] in need && OWNER[3] in need;
    forall v | MinWindow.Covers(JET, need, v) ensures MinWindow.Before(w, v) {
      hide MinWindow.Covers;
      var p := Holds(JET, need, v, "private");
      var t := Holds(JET, need, v, "trump");
      assert p == 1 && t == 6;
    }
  }

  const SWAPPED := ["oldman", "of", "gary"]

  /** Two words are enough for the second chance, in any sentence; one is not. */
  lemma TwoWordsAreEnough(content: seq<string>, sentences: seq<seq<string>>)
    ensures Rephrased([SWAPPED], NAME)
    ensures |content| < 2 ==> !Rephrased(sentences, content)
  {
    var need, w := MinWindow.Elements(NAME), MinWindow.Window(0, 2);
    assert NAME[0] in need && NAME[1] in need;
    HeldBy(SWAPPED, NAME, w, 2, 0);
    forall v | MinWindow.Covers(SWAPPED, need, v) ensures MinWindow.Before(w, v) {
      hide MinWindow.Covers;
      var g := Holds(SWAPPED, need, v, "gary");
      var o := Holds(SWAPPED, need, v, "oldman");
      assert g == 2 && o == 0;
    }
    assert Glued(SWAPPED, NAME, w) && !Negated(SWAPPED, NAME);
    hide MinWindow.IsMinWindow;
    assert Rephrases([SWAPPED][0], NAME);
  }

  /** Emphasis that is replaced by a space makes no number: an answer that computes 2*4 does not
      contain the fact 24, as a substring or otherwise. */
  lemma EmphasisMakesNoNumber()
    ensures Normalise(AsciiLower, "2*4") == "2 4" && Normalise(AsciiLower, "24") == "24"
    ensures !InAnswer(AsciiLower, "2*4", "24")
  {
    SeparatedStaysSeparated("2", '*', "4");
    assert "2" + ['*'] + "4" == "2*4";
    UnseparatedIsOneWord("2");
    UnseparatedIsOneWord("4");
    UnseparatedIsOneWord("24");
    NormaliseIsWords(AsciiLower, "2*4");
    NormaliseIsWords(AsciiLower, "24");
    assert Words("2*4") == ["2", "4"];
    assert ["2", "4"][..1] == ["2"];
    assert Join(["2", "4"], ' ') == "2 4" && Join(["24"], ' ') == "24";
    Unlowered("2 4");
    Unlowered("24");
    NotWithin();
    OneToken();
  }

  lemma {:induction false} Unlowered(s: string)
    requires forall i | 0 <= i < |s| :: !('A' <= s[i] <= 'Z')
    ensures AsciiLower(s) == s
  {
    if s == [] {
    } else {
      Unlowered(s[1..]);
    }
  }

  lemma NotWithin()
    ensures !Contains("2 4", "24")
  {
    forall i | 0 <= i <= 1 ensures !OccursAt("2 4", "24", i) {
      assert "2 4"[i..i + 2][1] != "24"[1] || "2 4"[i..i + 2][0] != "24"[0];
    }
  }

  lemma OneToken()
    ensures |Content("24")| == 1
  {
    assert "24"[1..] == "4";
    assert TokenLength("24") == 2;
    assert "24"[..2] == "24" && "24"[2..] == [];
    assert Tokens("24") == ["24"] + Tokens([]) == ["24"];
    assert ["24"][..0] == [];
    assert WithoutStopwords(["24"]) == [] + ["24"];
  }
}
