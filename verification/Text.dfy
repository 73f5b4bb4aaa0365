/** The text the facts gate compares (examples/benchmark/run_benchmark.py): normalisation, tokens
    and sentences. */
module Text {
  import opened Seqs
  // ------------------------------------------------------------------ normalise_for_match

  /** The two character classes that are replaced, a run at a time, by one space. */
  datatype Class = Emphasis | Space

  predicate Is(k: Class, c: char) {
    match k
    case Emphasis => c == '*' || c == '`' || c == '~'
    case Space =>
      || c == ' ' || ('\t' <= c <= '\r') || ('\U{1c}' <= c <= '\U{1f}') || c == '\U{85}' || c == '\U{a0}'
      || c == '\U{1680}' || ('\U{2000}' <= c <= '\U{200a}') || c == '\U{2028}' || c == '\U{2029}'
      || c == '\U{202f}' || c == '\U{205f}' || c == '\U{3000}'
  }

  /** Emphasis marks are the three, and no white space; the ASCII white space is all there. */
  lemma ClassesAre(c: char)
    ensures Is(Emphasis, c) <==> c in "*`~"
    ensures c in " \t\n\r\U{0b}\U{0c}\U{1c}\U{1d}\U{1e}\U{1f}" ==> Is(Space, c)
    ensures Is(Space, c) ==> !Is(Emphasis, c) && !AsciiAlnum(c) && c !in ".,;:!?'_-"
  {
  }

  function SkipRun(k: Class, s: string): (r: string)
    ensures |r| <= |s|
    ensures r != [] ==> !Is(k, r[0])
  {
    if s != [] && Is(k, s[0]) then SkipRun(k, s[1..]) else s
  }

  /** re.sub("[...]+", " ", s). */
  function Collapse(k: Class, s: string): string
    decreases |s|
  {
    if s == [] then []
    else if Is(k, s[0]) then [' '] + Collapse(k, SkipRun(k, s[1..]))
    else [s[0]] + Collapse(k, s[1..])
  }

  function StripLeft(s: string): string {
    if s != [] && Is(Space, s[0]) then StripLeft(s[1..]) else s
  }

  function StripRight(s: string): string {
    if s != [] && Is(Space, s[|s| - 1]) then StripRight(s[..|s| - 1]) else s
  }

  /** str.lower, which may look at a character's neighbours and give more than one for it. */
  type Lowering = string -> string

  function Normalise(lower: Lowering, s: string): string {
    lower(StripRight(StripLeft(Collapse(Space, Collapse(Emphasis, s)))))
  }

  /** What a character may become: white space and emphasis stay, and nothing else turns into them. */
  predicate Image(c: char, r: string) {
    if Is(Space, c) || Is(Emphasis, c) then r == [c] else Free(Space, r) && Free(Emphasis, r)
  }

  /** r is s character by character, each one or more characters of r. */
  predicate Maps(s: string, r: string) {
    if s == [] then r == []
    else exists n | 0 < n <= |r| :: Image(s[0], r[..n]) && Maps(s[1..], r[n..])
  }

  ghost predicate Lowers(lower: Lowering) {
    forall s :: Maps(s, lower(s)) && lower(lower(s)) == lower(s)
  }

  // ------------------------------------------------------------------ what normal text looks like

  /** White space is single spaces, and no other character of class k is left. */
  predicate Spaced(s: string) {
    forall i | 0 <= i < |s| && Is(Space, s[i]) :: s[i] == ' ' && (i + 1 < |s| ==> !Is(Space, s[i + 1]))
  }

  predicate Free(k: Class, s: string) {
    forall i | 0 <= i < |s| :: !Is(k, s[i])
  }

  predicate Trimmed(s: string) {
    s != [] ==> !Is(Space, s[0]) && !Is(Space, s[|s| - 1])
  }

  predicate Tidy(s: string) {
    Spaced(s) && Free(Emphasis, s) && Trimmed(s)
  }

  lemma {:induction false} SkipRunFree(k: Class, s: string)
    requires Free(Emphasis, s)
    ensures Free(Emphasis, SkipRun(k, s))
  {
    if s == [] || !Is(k, s[0]) {
    } else {
      SkipRunFree(k, s[1..]);
    }
  }

  lemma {:induction false} CollapseEmphasis(s: string)
    ensures Free(Emphasis, Collapse(Emphasis, s))
    decreases |s|
  {
    if s == [] {
    } else {
      if Is(Emphasis, s[0]) {
        CollapseEmphasis(SkipRun(Emphasis, s[1..]));
      } else {
        CollapseEmphasis(s[1..]);
      }
    }
  }

  lemma {:induction false} CollapseSpace(s: string)
    requires Free(Emphasis, s)
    ensures var r := Collapse(Space, s);
            Spaced(r) && Free(Emphasis, r) && (s != [] && !Is(Space, s[0]) ==> r != [] && r[0] == s[0])
    decreases |s|
  {
    if s == [] {
    } else {
      if Is(Space, s[0]) {
        SkipRunFree(Space, s[1..]);
        CollapseSpace(SkipRun(Space, s[1..]));
      } else {
        CollapseSpace(s[1..]);
      }
    }
  }

  lemma {:induction false} StripLeftKeeps(s: string)
    requires Spaced(s) && Free(Emphasis, s)
    ensures var r := StripLeft(s); Spaced(r) && Free(Emphasis, r) && (r != [] ==> !Is(Space, r[0]))
  {
    if s == [] || !Is(Space, s[0]) {
    } else {
      StripLeftKeeps(s[1..]);
    }
  }

  lemma {:induction false} StripRightKeeps(s: string)
    requires Spaced(s) && Free(Emphasis, s) && (s != [] ==> !Is(Space, s[0]))
    ensures var r := StripRight(s); Spaced(r) && Free(Emphasis, r) && Trimmed(r)
  {
    if s == [] || !Is(Space, s[|s| - 1]) {
    } else {
      StripRightKeeps(s[..|s| - 1]);
    }
  }

  lemma {:induction false} SpacedStays(s: string)
    requires Spaced(s)
    ensures Collapse(Space, s) == s
    decreases |s|
  {
    if s == [] {
    } else {
      SpacedStays(s[1..]);
      if Is(Space, s[0]) {
        assert SkipRun(Space, s[1..]) == s[1..];
      }
    }
  }

  lemma {:induction false} FreeStays(s: string)
    requires Free(Emphasis, s)
    ensures Collapse(Emphasis, s) == s
    decreases |s|
  {
    if s == [] {
    } else {
      FreeStays(s[1..]);
    }
  }

  /** r has the shape of s: white space in the same way, at the same ends. */
  ghost predicate Shaped(s: string, r: string) {
    && Spaced(r) && Free(Emphasis, r) && (r == [] <==> s == [])
    && (s != [] ==> (Is(Space, r[0]) <==> Is(Space, s[0])) && (Is(Space, r[|r| - 1]) <==> Is(Space, s[|s| - 1])))
  }

  lemma {:induction false} MapsTidy(s: string, r: string)
    requires Maps(s, r) && Spaced(s) && Free(Emphasis, s)
    ensures Shaped(s, r)
  {
    if s == [] {
    } else {
      var n :| 0 < n <= |r| && Image(s[0], r[..n]) && Maps(s[1..], r[n..]);
      hide *;
      SpacedRest(s);
      MapsTidy(s[1..], r[n..]);
      ShapedMore(s[0], s[1..], r[..n], r[n..]);
      assert s == [s[0]] + s[1..] && r == r[..n] + r[n..];
    }
  }

  lemma ShapedMore(c: char, s: string, image: string, r: string)
    requires image != [] && Image(c, image) && !Is(Emphasis, c) && Shaped(s, r)
    requires Is(Space, c) ==> c == ' ' && (s != [] ==> !Is(Space, s[0]))
    ensures Shaped([c] + s, image + r)
  {
    ImageTidy(c, image, r);
    hide Is;
    hide Image;
    hide Spaced;
    hide Free;
    assert s != [] ==> ([c] + s)[|s|] == s[|s| - 1] && (image + r)[|image| + |r| - 1] == r[|r| - 1];
    assert s == [] ==> image + r == image;
  }

  lemma SpacedRest(s: string)
    requires s != [] && Spaced(s) && Free(Emphasis, s)
    ensures Spaced(s[1..]) && Free(Emphasis, s[1..]) && !Is(Emphasis, s[0])
    ensures Is(Space, s[0]) ==> s[0] == ' ' && (|s| > 1 ==> !Is(Space, s[1]))
  {
    hide Is;
  }

  lemma ImageTidy(c: char, image: string, rest: string)
    requires image != [] && Image(c, image) && !Is(Emphasis, c) && Spaced(rest) && Free(Emphasis, rest)
    requires Is(Space, c) ==> c == ' ' && (rest != [] ==> !Is(Space, rest[0]))
    ensures Spaced(image + rest) && Free(Emphasis, image + rest)
    ensures Is(Space, (image + rest)[0]) <==> Is(Space, c)
    ensures Is(Space, image[|image| - 1]) <==> Is(Space, c)
  {
  }

  /** Normalised text has single spaces, no emphasis and nothing to strip. */
  lemma NormaliseTidies(lower: Lowering, s: string)
    requires Lowers(lower)
    ensures Tidy(Normalise(lower, s)) && lower(Normalise(lower, s)) == Normalise(lower, s)
  {
    var t := Collapse(Space, Collapse(Emphasis, s));
    CollapseEmphasis(s);
    CollapseSpace(Collapse(Emphasis, s));
    StripLeftKeeps(t);
    StripRightKeeps(StripLeft(t));
    var u := StripRight(StripLeft(t));
    assert Maps(u, lower(u)) && lower(lower(u)) == lower(u);
    hide *;
    MapsTidy(u, lower(u));
    LoweredTidy(u, lower(u));
    NormaliseIs(lower, s);
  }

  lemma NormaliseIs(lower: Lowering, s: string)
    ensures Normalise(lower, s) == lower(StripRight(StripLeft(Collapse(Space, Collapse(Emphasis, s)))))
  {
  }

  lemma LoweredTidy(u: string, r: string)
    requires Trimmed(u) && Shaped(u, r)
    ensures Tidy(r)
  {
    hide Is;
    hide Spaced;
    hide Free;
  }

  /** Normalising again changes nothing. */
  lemma NormaliseIdempotent(lower: Lowering, s: string)
    requires Lowers(lower)
    ensures Normalise(lower, Normalise(lower, s)) == Normalise(lower, s)
  {
    NormaliseTidies(lower, s);
    var t := Normalise(lower, s);
    FreeStays(t);
    SpacedStays(t);
    assert StripLeft(t) == t && StripRight(t) == t;
    NormaliseIs(lower, t);
  }

  /** Stripping takes white space off both ends and leaves none there. */
  lemma {:induction false} StripLeftIs(s: string) returns (gap: string)
    ensures s == gap + StripLeft(s) && (forall i | 0 <= i < |gap| :: Is(Space, gap[i]))
    ensures StripLeft(s) != [] ==> !Is(Space, StripLeft(s)[0])
  {
    if s == [] || !Is(Space, s[0]) {
      gap := [];
    } else {
      var g := StripLeftIs(s[1..]);
      gap := [s[0]] + g;
    }
  }

  lemma {:induction false} StripRightIs(s: string) returns (gap: string)
    ensures s == StripRight(s) + gap && (forall i | 0 <= i < |gap| :: Is(Space, gap[i]))
    ensures StripRight(s) != [] ==> !Is(Space, StripRight(s)[|StripRight(s)| - 1])
  {
    if s == [] || !Is(Space, s[|s| - 1]) {
      gap := [];
    } else {
      var n := |s| - 1;
      var g := StripRightIs(s[..n]);
      gap := g + [s[n]];
    }
  }

  // ------------------------------------------------------------------ normal text is the words

  /** A character that separates words. */
  predicate Separates(c: char) {
    Is(Space, c) || Is(Emphasis, c)
  }

  /** The stretches of s without a separator, longest possible, in order. */
  function Words(s: string): (ws: seq<string>)
    ensures s != [] && !Separates(s[0]) ==> ws != []
  {
    if s == [] then []
    else
      var rest := Words(s[1..]);
      if Separates(s[0]) then rest
      else if |s| == 1 || Separates(s[1]) then [[s[0]]] + rest
      else [[s[0]] + rest[0]] + rest[1..]
  }

  lemma WordsMore(c: char, s: string)
    ensures Words([c] + s) ==
              if Separates(c) then Words(s)
              else if s == [] || Separates(s[0]) then [[c]] + Words(s)
              else [[c] + Words(s)[0]] + Words(s)[1..]
  {
    hide Separates;
    assert ([c] + s)[1..] == s;
  }

  lemma {:induction false} SkippedWords(k: Class, s: string)
    ensures Words(SkipRun(k, s)) == Words(s)
  {
    if s == [] || !Is(k, s[0]) {
    } else {
      SkippedWords(k, s[1..]);
    }
  }

  lemma {:induction false} CollapsedWords(k: Class, s: string)
    ensures Words(Collapse(k, s)) == Words(s)
    ensures s != [] ==> Collapse(k, s) != [] && (Separates(Collapse(k, s)[0]) <==> Separates(s[0]))
    decreases |s|
  {
    if s == [] {
    } else if Is(k, s[0]) {
      CollapsedWords(k, SkipRun(k, s[1..]));
      SkippedWords(k, s[1..]);
      WordsMore(' ', Collapse(k, SkipRun(k, s[1..])));
    } else {
      CollapsedWords(k, s[1..]);
      WordsMore(s[0], Collapse(k, s[1..]));
      WordsMore(s[0], s[1..]);
      assert s == [s[0]] + s[1..];
      if s[1..] == [] {
        assert Collapse(k, s[1..]) == [];
      }
    }
  }

  lemma {:induction false} StripRightAfter(a: string, s: string)
    ensures StripRight(s) != [] ==> StripRight(a + s) == a + StripRight(s)
    ensures StripRight(s) == [] ==> StripRight(a + s) == StripRight(a)
    decreases |s|
  {
    if s == [] {
      assert a + s == a;
    } else if Is(Space, s[|s| - 1]) {
      assert (a + s)[..|a + s| - 1] == a + s[..|s| - 1];
      StripRightAfter(a, s[..|s| - 1]);
    }
  }

  lemma StrippedEnd(c: char)
    requires !Separates(c)
    ensures StripRight([c]) == StripRight([c, ' ']) == [c]
    ensures Join(Words([c]), ' ') == Join(Words([c, ' ']), ' ') == [c]
  {
    assert [c, ' '][..1] == [c] && [c, ' '][1..] == [' '] && [c][1..] == [] && [' '][1..] == [];
    assert Words([' ']) == [];
    assert Words([c]) == [[c]] && Words([c, ' ']) == [[c]];
  }

  lemma StrippedGap(c: char, more: string)
    requires !Separates(c) && StripRight(more) == Join(Words(more), ' ') != [] && Words(more) != []
    ensures StripRight([c, ' '] + more) == Join(Words([c, ' '] + more), ' ') != []
  {
    assert [c, ' '] + more == [c] + ([' '] + more);
    WordsMore(c, [' '] + more);
    WordsMore(' ', more);
    StripRightAfter([c, ' '], more);
    JoinFirst([c], Words(more), ' ');
    hide *;
    Regroup([c], [' '], Join(Words(more), ' '));
  }

  lemma StrippedOn(c: char, rest: string)
    requires !Separates(c) && rest != [] && !Separates(rest[0])
    requires StripRight(rest) == Join(Words(rest), ' ') != [] && Words(rest) != []
    ensures StripRight([c] + rest) == Join(Words([c] + rest), ' ') != []
  {
    WordsMore(c, rest);
    StripRightAfter([c], rest);
    JoinHead(c, Words(rest));
  }

  /** Of tidied text stripped at the front, stripping the end leaves the words, joined. */
  lemma {:induction false} StrippedIsWords(s: string)
    requires Spaced(s) && Free(Emphasis, s) && (s != [] ==> !Is(Space, s[0]))
    ensures StripRight(s) == Join(Words(s), ' ') && (s != [] ==> StripRight(s) != [])
    decreases |s|
  {
    if s == [] {
    } else {
      var c, rest := s[0], s[1..];
      assert s == [c] + rest;
      SpacedRest(s);
      if rest == [] {
        StrippedEnd(c);
      } else if Is(Space, rest[0]) {
        var more := rest[1..];
        SpacedRest(rest);
        assert s == [c, ' '] + more;
        if more == [] {
          StrippedEnd(c);
        } else {
          StrippedIsWords(more);
          WordsNotEmpty(more);
          StrippedGap(c, more);
        }
      } else {
        StrippedIsWords(rest);
        WordsNotEmpty(rest);
        StrippedOn(c, rest);
      }
    }
  }

  lemma WordsNotEmpty(s: string)
    requires s != [] && !Is(Space, s[0]) && !Is(Emphasis, s[0])
    ensures Words(s) != []
  {
  }

  lemma JoinHead(c: char, ws: seq<string>)
    requires ws != []
    ensures Join([[c] + ws[0]] + ws[1..], ' ') == [c] + Join(ws, ' ')
  {
    if |ws| == 1 {
      assert [[c] + ws[0]] + ws[1..] == [[c] + ws[0]];
    } else {
      JoinFirst([c] + ws[0], ws[1..], ' ');
      JoinFirst(ws[0], ws[1..], ' ');
      hide *;
      assert [ws[0]] + ws[1..] == ws;
      Regroup([c], ws[0], [' ']);
      Regroup([c], ws[0] + [' '], Join(ws[1..], ' '));
    }
  }

  lemma {:induction false} StripLeftWords(s: string)
    ensures Words(StripLeft(s)) == Words(s)
  {
    if s == [] || !Is(Space, s[0]) {
    } else {
      StripLeftWords(s[1..]);
    }
  }

  /** Normal text is the words, lower-cased, with one space between: emphasis separates words as
      white space does, and never joins what stood on its two sides. */
  lemma NormaliseIsWords(lower: Lowering, s: string)
    ensures Normalise(lower, s) == lower(Join(Words(s), ' '))
  {
    var e := Collapse(Emphasis, s);
    var t := Collapse(Space, e);
    CollapsedWords(Emphasis, s);
    CollapsedWords(Space, e);
    CollapseEmphasis(s);
    CollapseSpace(e);
    StripLeftKeeps(t);
    StripLeftWords(t);
    StrippedIsWords(StripLeft(t));
  }

  /** What a separator stands between stays apart. */
  lemma {:induction false} SeparatedStaysSeparated(a: string, c: char, b: string)
    requires Separates(c)
    ensures Words(a + [c] + b) == Words(a) + Words(b)
  {
    if a == [] {
      assert a + [c] + b == [c] + b;
      WordsMore(c, b);
    } else {
      var d, rest := a[0], a[1..];
      SeparatedStaysSeparated(rest, c, b);
      assert a + [c] + b == [d] + (rest + [c] + b);
      assert a == [d] + rest;
      WordsMore(d, rest + [c] + b);
      WordsMore(d, rest);
      HeadWord(rest);
      assert (rest + [c] + b)[0] == if rest == [] then c else rest[0];
      hide *;
      WordAndMore(d, Words(rest), Words(b));
      if rest == [] {
        assert [] + Words(b) == Words(b);
      }
    }
  }

  lemma WordAndMore(d: char, ws: seq<string>, more: seq<string>)
    ensures [[d]] + (ws + more) == [[d]] + ws + more
    ensures ws != [] ==> [[d] + (ws + more)[0]] + (ws + more)[1..] == [[d] + ws[0]] + ws[1..] + more
  {
  }

  lemma HeadWord(s: string)
    ensures if s == [] then Words(s) == [] else !Separates(s[0]) ==> Words(s) != []
  {
  }

  /** ... and what none stands between stays together. */
  lemma {:induction false} UnseparatedIsOneWord(s: string)
    requires s != [] && forall i | 0 <= i < |s| :: !Separates(s[i])
    ensures Words(s) == [s]
  {
    hide Separates;
    assert s == [s[0]] + s[1..];
    WordsMore(s[0], s[1..]);
    HeadWord(s[1..]);
    if |s| == 1 {
      assert s == [s[0]];
    } else {
      UnseparatedIsOneWord(s[1..]);
      assert [s[1..]][1..] == [];
    }
  }

  function LowerChar(c: char): char {
    if 'A' <= c <= 'Z' then c - 'A' + 'a' else c
  }

  /** Of the ASCII letters each becomes its small one, and nothing else changes. */
  lemma {:induction false} AsciiLowerIs(s: string)
    ensures |AsciiLower(s)| == |s|
    ensures forall i | 0 <= i < |s| ::
              if 'A' <= s[i] <= 'Z' then 'a' <= AsciiLower(s)[i] <= 'z' && AsciiLower(s)[i] - 'a' == s[i] - 'A'
              else AsciiLower(s)[i] == s[i]
  {
    if s == [] {
    } else {
      AsciiLowerIs(s[1..]);
    }
  }

  function AsciiLower(s: string): string {
    if s == [] then [] else [LowerChar(s[0])] + AsciiLower(s[1..])
  }

  lemma AsciiImage(c: char)
    ensures Image(c, [LowerChar(c)]) && LowerChar(LowerChar(c)) == LowerChar(c)
  {
  }

  lemma MapsMore(c: char, d: char, s: string, r: string)
    requires Image(c, [d]) && Maps(s, r)
    ensures Maps([c] + s, [d] + r)
  {
    hide Image;
    var t, u := [c] + s, [d] + r;
    assert t[1..] == s && u[..1] == [d] && u[1..] == r;
  }

  lemma {:induction false} AsciiMaps(s: string)
    ensures Maps(s, AsciiLower(s)) && AsciiLower(AsciiLower(s)) == AsciiLower(s)
  {
    if s == [] {
    } else {
      hide Maps;
      hide LowerChar;
      AsciiMaps(s[1..]);
      AsciiImage(s[0]);
      MapsMore(s[0], LowerChar(s[0]), s[1..], AsciiLower(s[1..]));
      assert s == [s[0]] + s[1..];
      assert AsciiLower(s)[1..] == AsciiLower(s[1..]);
    }
  }

  /** Lower-casing the ASCII letters is such a function. */
  lemma AsciiLowers()
    ensures Lowers(AsciiLower)
  {
    forall s ensures Maps(s, AsciiLower(s)) && AsciiLower(AsciiLower(s)) == AsciiLower(s) {
      AsciiMaps(s);
    }
  }

  // ------------------------------------------------------------------ tokens

  predicate Alnum(c: char) {
    'a' <= c <= 'z' || '0' <= c <= '9'
  }

  /** The length of the token that starts s: letters and digits, and dotted continuations of them. */
  function TokenLength(s: string): (n: nat)
    requires s != [] && Alnum(s[0])
    ensures 0 < n <= |s|
    decreases |s|
  {
    if |s| > 1 && Alnum(s[1]) then 1 + TokenLength(s[1..])
    else if |s| > 2 && s[1] == '.' && Alnum(s[2]) then 2 + TokenLength(s[2..])
    else 1
  }

  /** _TOKEN.findall. */
  function Tokens(s: string): seq<string>
    decreases |s|
  {
    if s == [] then []
    else if Alnum(s[0]) then [s[..TokenLength(s)]] + Tokens(s[TokenLength(s)..])
    else Tokens(s[1..])
  }

  /** Which characters tokens are made of. */
  lemma TokenCharacters(c: char)
    ensures Alnum(c) <==> c in "abcdefghijklmnopqrstuvwxyz" || c in "0123456789"
  {
  }

  /** t is letters and digits, with single dots between. */
  predicate IsToken(t: string) {
    && t != [] && Alnum(t[0]) && Alnum(t[|t| - 1])
    && forall i | 0 < i < |t| - 1 && !Alnum(t[i]) :: t[i] == '.' && Alnum(t[i - 1]) && Alnum(t[i + 1])
  }

  /** s starts with the token t, which goes on no further. */
  predicate StartsWithToken(s: string, t: string) {
    && IsToken(t) && t <= s
    && (|t| < |s| ==> !Alnum(s[|t|]))
    && (|t| + 1 < |s| && s[|t|] == '.' ==> !Alnum(s[|t| + 1]))
  }

  predicate NoAlnum(s: string) {
    forall i | 0 <= i < |s| :: !Alnum(s[i])
  }

  /** s is these tokens, longest possible, with no letter or digit around them. */
  ghost predicate Tokenised(s: string, toks: seq<string>)
    decreases |toks|
  {
    if toks == [] then NoAlnum(s)
    else exists i: nat | i + |toks[0]| <= |s| ::
           NoAlnum(s[..i]) && StartsWithToken(s[i..], toks[0]) && Tokenised(s[i + |toks[0]|..], toks[1..])
  }

  lemma {:induction false} TokenIs(s: string)
    requires s != [] && Alnum(s[0])
    ensures StartsWithToken(s, s[..TokenLength(s)])
    decreases |s|
  {
    var n := TokenLength(s);
    if |s| > 1 && Alnum(s[1]) {
      TokenIs(s[1..]);
      TokenGrows(s, n, 1);
    } else if |s| > 2 && s[1] == '.' && Alnum(s[2]) {
      TokenIs(s[2..]);
      TokenGrows(s, n, 2);
    }
  }

  lemma TokenGrows(s: string, n: nat, k: nat)
    requires 0 < k < n <= |s| && k <= 2 && Alnum(s[0]) && (k == 2 ==> s[1] == '.')
    requires StartsWithToken(s[k..], s[k..][..n - k])
    ensures StartsWithToken(s, s[..n])
  {
    var t, u := s[..n], s[k..][..n - k];
    assert forall i | 0 <= i < n - k :: u[i] == t[k + i];
    forall i | 0 < i < n - 1 && !Alnum(t[i]) ensures t[i] == '.' && Alnum(t[i - 1]) && Alnum(t[i + 1]) {
      if i >= k {
        assert u[i - k] == t[i];
      }
    }
  }

  /** findall finds exactly the tokens. */
  lemma {:induction false} TokensAre(s: string)
    ensures Tokenised(s, Tokens(s))
    decreases |s|
  {
    if s == [] {
    } else if Alnum(s[0]) {
      TokenIs(s);
      TokensAre(s[TokenLength(s)..]);
      assert s[0..] == s && s[..0] == [];
    } else {
      TokensAre(s[1..]);
      OneBefore(s, Tokens(s[1..]));
    }
  }

  lemma TokenisedBy(s: string, toks: seq<string>, i: nat)
    requires toks != [] && i + |toks[0]| <= |s|
    requires NoAlnum(s[..i]) && StartsWithToken(s[i..], toks[0]) && Tokenised(s[i + |toks[0]|..], toks[1..])
    ensures Tokenised(s, toks)
  {
    hide StartsWithToken;
    hide NoAlnum;
  }

  lemma FirstTokenAt(s: string, toks: seq<string>) returns (i: nat)
    requires toks != [] && Tokenised(s, toks)
    ensures i + |toks[0]| <= |s|
    ensures NoAlnum(s[..i]) && StartsWithToken(s[i..], toks[0]) && Tokenised(s[i + |toks[0]|..], toks[1..])
  {
    hide StartsWithToken;
    hide NoAlnum;
    i :| i + |toks[0]| <= |s| && NoAlnum(s[..i]) && StartsWithToken(s[i..], toks[0])
         && Tokenised(s[i + |toks[0]|..], toks[1..]);
  }

  lemma NoAlnumMore(c: char, s: string)
    requires !Alnum(c) && NoAlnum(s)
    ensures NoAlnum([c] + s)
  {
    hide Alnum;
  }

  lemma SlicesAfterFirst(s: string, i: nat, n: nat)
    requires s != [] && i + n < |s|
    ensures s[..i + 1] == [s[0]] + s[1..][..i]
    ensures s[i + 1..] == s[1..][i..] && s[i + 1 + n..] == s[1..][i + n..]
  {
  }

  lemma NoTokenBefore(s: string)
    requires s != [] && !Alnum(s[0]) && Tokenised(s[1..], [])
    ensures Tokenised(s, [])
  {
    hide Alnum;
    NoAlnumMore(s[0], s[1..]);
    assert s == [s[0]] + s[1..];
  }

  lemma OneBefore(s: string, toks: seq<string>)
    requires s != [] && !Alnum(s[0]) && Tokenised(s[1..], toks)
    ensures Tokenised(s, toks)
  {
    hide *;
    if toks == [] {
      NoTokenBefore(s);
    } else {
      var i := FirstTokenAt(s[1..], toks);
      NoAlnumMore(s[0], s[1..][..i]);
      SlicesAfterFirst(s, i, |toks[0]|);
      TokenisedBy(s, toks, i + 1);
    }
  }

  lemma {:induction false} TokenStopsAtSpace(a: string, b: string)
    requires a != [] && Alnum(a[0])
    ensures TokenLength(a + [' '] + b) == TokenLength(a)
    decreases |a|
  {
    var s := a + [' '] + b;
    if |a| > 1 && Alnum(a[1]) {
      assert s[1..] == a[1..] + [' '] + b;
      TokenStopsAtSpace(a[1..], b);
    } else if |a| > 2 && a[1] == '.' && Alnum(a[2]) {
      assert s[2..] == a[2..] + [' '] + b;
      TokenStopsAtSpace(a[2..], b);
    }
  }

  /** No token spans a space. */
  lemma {:induction false} TokensAtSpace(a: string, b: string)
    ensures Tokens(a + [' '] + b) == Tokens(a) + Tokens(b)
    decreases |a|
  {
    var s := a + [' '] + b;
    if a == [] {
      assert s[1..] == b;
    } else if Alnum(a[0]) {
      var n := TokenLength(a);
      TokenStopsAtSpace(a, b);
      assert s[..n] == a[..n] && s[n..] == a[n..] + [' '] + b;
      TokensAtSpace(a[n..], b);
    } else {
      assert s[1..] == a[1..] + [' '] + b;
      TokensAtSpace(a[1..], b);
    }
  }

  // ------------------------------------------------------------------ sentences

  predicate Ends(c: char) {
    c == '.' || c == '!' || c == '?'
  }

  /** The index of the first white space right after a full stop, exclamation or question mark. */
  function FirstBreak(s: string, from: nat): (i: nat)
    requires from <= |s|
    ensures from <= i <= |s|
    ensures i < |s| ==> 0 < i && Ends(s[i - 1]) && Is(Space, s[i])
    decreases |s| - from
  {
    if from == |s| then from
    else if from > 0 && Ends(s[from - 1]) && Is(Space, s[from]) then from
    else FirstBreak(s, from + 1)
  }

  /** _SENT_SPLIT.split. */
  function Parts(s: string): (ps: seq<string>)
    ensures ps != []
    decreases |s|
  {
    var i := FirstBreak(s, 0);
    if i == |s| then [s] else [s[..i]] + Parts(SkipRun(Space, s[i..]))
  }

  const ABBREVIATIONS: set<string> :=
    {"mr", "mrs", "ms", "dr", "prof", "st", "jr", "sr", "vs", "etc", "inc", "ltd", "fig", "eg", "ie", "approx", "no"}

  /** prev is no sentence end: its full stop belongs to an initial or an abbreviation. */
  predicate Continues(prev: string) {
    var tail := Tokens(prev);
    var last := if tail == [] then "" else tail[|tail| - 1];
    prev != [] && prev[|prev| - 1] == '.' && (|last| == 1 || last in ABBREVIATIONS)
  }

  function Joined(out: seq<string>, part: string): seq<string> {
    var n := |out| - 1;
    if out != [] && Continues(out[n]) then out[..n] + [out[n] + [' '] + part] else out + [part]
  }

  function Merged(parts: seq<string>): seq<string> {
    if parts == [] then [] else Joined(Merged(parts[..|parts| - 1]), parts[|parts| - 1])
  }

  function Sentences(s: string): seq<string> {
    Merged(Parts(s))
  }

  /** The loop of _sentences, which extends the last sentence in place. */
  method SplitSentences(s: string) returns (out: seq<string>)
    ensures out == Sentences(s)
  {
    var parts := Parts(s);
    out := [];
    for i := 0 to |parts|
      invariant out == Merged(parts[..i])
    {
      assert parts[..i + 1][..i] == parts[..i];
      var n := |out| - 1;
      if out != [] && Continues(out[n]) {
        out := out[..n] + [out[n] + [' '] + parts[i]];
      } else {
        out := out + [parts[i]];
      }
    }
    assert parts[..|parts|] == parts;
  }

  /** A full stop after an initial or an abbreviation ends no sentence; after another word it does. */
  lemma InitialsContinue()
    ensures Continues("j.") && Continues("mr.") && !Continues("end.") && !Continues("j!") && !Continues("j")
  {
    TokenBeforeStop("j", '.');
    TokenBeforeStop("j", '!');
    TokenBeforeStop("mr", '.');
    TokenBeforeStop("end", '.');
    assert "j" + ['.'] == "j." && "j" + ['!'] == "j!" && "mr" + ['.'] == "mr." && "end" + ['.'] == "end.";
  }

  /** A word and a full stop have one token, the word. */
  lemma TokenBeforeStop(word: string, stop: char)
    requires word != [] && (forall i | 0 <= i < |word| :: Alnum(word[i])) && !Alnum(stop)
    ensures Tokens(word + [stop]) == [word]
  {
    WholeWord(word, stop);
    var s := word + [stop];
    assert s[..|word|] == word && s[|word|..] == [stop] && [stop][1..] == [];
    assert Tokens([stop]) == [];
  }

  lemma {:induction false} WholeWord(word: string, stop: char)
    requires word != [] && (forall i | 0 <= i < |word| :: Alnum(word[i])) && !Alnum(stop)
    ensures TokenLength(word + [stop]) == |word|
  {
    var s := word + [stop];
    if |word| == 1 {
    } else {
      WholeWord(word[1..], stop);
      assert s[1..] == word[1..] + [stop];
    }
  }

  /** A break: white space right after a full stop, exclamation or question mark. */
  predicate BreaksAt(s: string, i: nat) {
    0 < i < |s| && Ends(s[i - 1]) && Is(Space, s[i])
  }

  /** No break inside a part, and every part but the last ends at one. */
  ghost predicate PartOk(p: string, last: bool) {
    && (forall i: nat :: !BreaksAt(p, i))
    && (!last ==> p != [] && Ends(p[|p| - 1]))
  }

  lemma {:induction false} FirstBreakIsFirst(s: string, from: nat)
    requires from <= |s| && forall i: nat | i < from :: !BreaksAt(s, i)
    ensures forall i: nat | i < FirstBreak(s, from) :: !BreaksAt(s, i)
    decreases |s| - from
  {
    if from == |s| || (from > 0 && Ends(s[from - 1]) && Is(Space, s[from])) {
    } else {
      FirstBreakIsFirst(s, from + 1);
    }
  }

  lemma {:induction false} PartsAreOk(s: string)
    ensures forall k | 0 <= k < |Parts(s)| :: PartOk(Parts(s)[k], k == |Parts(s)| - 1)
    decreases |s|
  {
    var i := FirstBreak(s, 0);
    FirstBreakIsFirst(s, 0);
    hide Is;
    hide Ends;
    if i == |s| {
    } else {
      assert forall j: nat :: BreaksAt(s[..i], j) ==> BreaksAt(s, j);
      PartsAreOk(SkipRun(Space, s[i..]));
    }
  }

  /** A sentence: every break inside it comes after an initial or an abbreviation, and it ends, unless
      it is the last, with a full stop, exclamation or question mark that is not of one. */
  ghost predicate SentenceOk(p: string, last: bool) {
    && (forall i: nat | BreaksAt(p, i) :: Continues(p[..i]))
    && (!last ==> p != [] && Ends(p[|p| - 1]) && !Continues(p))
  }

  /** These are sentences, the last of which may go on; if more is to come, it ends at a break. */
  ghost predicate AreSentences(out: seq<string>, more: bool) {
    && (forall k | 0 <= k < |out| - 1 :: SentenceOk(out[k], false))
    && (out != [] ==>
          var last := out[|out| - 1];
          SentenceOk(last, true) && (more ==> last != [] && Ends(last[|last| - 1])))
  }

  lemma {:induction false} MergedOk(parts: seq<string>, more: bool)
    requires forall k | 0 <= k < |parts| :: PartOk(parts[k], !more && k == |parts| - 1)
    ensures AreSentences(Merged(parts), more) && (parts != [] ==> Merged(parts) != [])
  {
    if parts == [] {
    } else {
      var n := |parts| - 1;
      MergedOk(parts[..n], true);
      MergedStep(parts);
      hide *;
      JoinedOk(Merged(parts[..n]), parts[n], more);
    }
  }

  lemma JoinedOk(out: seq<string>, part: string, more: bool)
    requires AreSentences(out, true) && PartOk(part, !more)
    ensures AreSentences(Joined(out, part), more) && Joined(out, part) != []
  {
    hide Continues;
    hide Is;
    hide Ends;
    if out != [] && Continues(out[|out| - 1]) {
      JoinedSentence(out[|out| - 1], part);
      hide BreaksAt;
    }
  }

  lemma MergedStep(parts: seq<string>)
    requires parts != []
    ensures Merged(parts) == Joined(Merged(parts[..|parts| - 1]), parts[|parts| - 1])
  {
  }

  lemma BreaksOfJoined(a: string, b: string, i: nat)
    ensures var p := a + [' '] + b;
            && (i < |a| ==> (BreaksAt(p, i) <==> BreaksAt(a, i)))
            && (i > |a| && BreaksAt(p, i) ==> i - |a| - 1 > 0 && BreaksAt(b, i - |a| - 1))
  {
    SpaceEndsNothing();
    hide Is;
    hide Ends;
  }

  lemma JoinedSentence(a: string, b: string)
    requires SentenceOk(a, true) && Continues(a) && forall i: nat :: !BreaksAt(b, i)
    ensures SentenceOk(a + [' '] + b, true)
  {
    hide Continues;
    hide Is;
    hide Ends;
    var p := a + [' '] + b;
    forall i: nat | BreaksAt(p, i) ensures Continues(p[..i]) {
      BreaksOfJoined(a, b, i);
      assert i < |a| ==> p[..i] == a[..i];
      assert p[..|a|] == a;
    }
  }

  /** Sentences end with three characters, and white space is none of them. */
  lemma SpaceEndsNothing()
    ensures forall c :: Ends(c) <==> c in ".!?"
    ensures !Ends(' ')
  {
  }

  /** Text is split into sentences at exactly the breaks that come after no initial or abbreviation. */
  lemma SentencesAre(s: string)
    ensures var out := Sentences(s);
            out != [] && forall k | 0 <= k < |out| :: SentenceOk(out[k], k == |out| - 1)
  {
    PartsAreOk(s);
    MergedOk(Parts(s), false);
  }

  function AllTokens(ps: seq<string>): seq<string> {
    if ps == [] then [] else AllTokens(ps[..|ps| - 1]) + Tokens(ps[|ps| - 1])
  }

  lemma {:induction false} MergedJoin(parts: seq<string>)
    ensures Join(Merged(parts), ' ') == Join(parts, ' ')
    ensures Merged(parts) == [] <==> parts == []
  {
    if parts == [] {
    } else {
      var n := |parts| - 1;
      MergedJoin(parts[..n]);
      JoinedJoin(Merged(parts[..n]), parts[n]);
      if n > 0 {
        JoinLast(parts, ' ');
      }
      hide Join;
      hide Joined;
    }
  }

  lemma JoinedJoin(out: seq<string>, part: string)
    ensures Joined(out, part) != []
    ensures Join(Joined(out, part), ' ') == if out == [] then part else Join(out, ' ') + ([' '] + part)
  {
    if out == [] {
    } else {
      hide Join;
      hide Continues;
      JoinLonger(out, [' '] + part, ' ');
      JoinMore(out, part, ' ');
      Regroup(Join(out, ' '), [' '], part);
      Regroup(out[|out| - 1], [' '], part);
    }
  }

  lemma PartsStep(s: string)
    ensures var i := FirstBreak(s, 0);
            && (i == |s| ==> Join(Parts(s), ' ') == s)
            && (i < |s| ==> Is(Space, s[i]) && Parts(s) == [s[..i]] + Parts(SkipRun(Space, s[i..])))
  {
    hide Is;
  }

  lemma {:induction false} PartsJoin(s: string)
    requires Spaced(s) && (s != [] ==> !Is(Space, s[|s| - 1]))
    ensures Join(Parts(s), ' ') == s
    decreases |s|
  {
    var i := FirstBreak(s, 0);
    PartsStep(s);
    hide *;
    if i == |s| {
    } else {
      var rest := s[i + 1..];
      CutAt(s, i);
      SkipOneSpace(s, i);
      PartsJoin(rest);
      JoinFirst(s[..i], Parts(rest), ' ');
    }
  }

  lemma CutAt(s: string, i: nat)
    requires i < |s|
    ensures s == s[..i] + [s[i]] + s[i + 1..]
    ensures i + 1 < |s| ==> s[i + 1..][|s| - i - 2] == s[|s| - 1]
  {
  }

  lemma SkipOneSpace(s: string, i: nat)
    requires Spaced(s) && i + 1 < |s| && Is(Space, s[i])
    ensures s[i] == ' ' && SkipRun(Space, s[i..]) == s[i + 1..] && Spaced(s[i + 1..])
  {
    assert s[i..][1..] == s[i + 1..];
    assert !Is(Space, s[i + 1..][0]);
  }

  /** Splitting normal text into sentences drops nothing but the spaces between them: joined
      with spaces they are the text. */
  lemma SentencesJoin(s: string)
    requires Tidy(s)
    ensures Join(Sentences(s), ' ') == s
  {
    PartsJoin(s);
    MergedJoin(Parts(s));
  }

  lemma {:induction false} JoinTokens(ps: seq<string>)
    ensures Tokens(Join(ps, ' ')) == AllTokens(ps)
  {
    if |ps| == 1 {
      assert AllTokens(ps[..0]) == [];
    } else if ps != [] {
      JoinTokens(ps[..|ps| - 1]);
      TokensAtSpace(Join(ps[..|ps| - 1], ' '), ps[|ps| - 1]);
    }
  }

  /** ... and loses, merges or reorders no token. */
  lemma SentencesKeepTokens(s: string)
    requires Tidy(s)
    ensures AllTokens(Sentences(s)) == Tokens(s)
  {
    SentencesJoin(s);
    JoinTokens(Sentences(s));
  }
}
