/** .dockerignore patterns compiled to regular expressions, and the rule loop over them
    (scripts/ci/commercial_paths.py). */
module DockerGlob {
  import opened Options
  import opened Regexes
  import opened Seqs

  // ------------------------------------------------------------------ reading a pattern

  /** AnyDepth is a double star with the slash after it, if there is one. */
  datatype Token = AnyDepth | Segment | One | Escaped(c: char) | Plain(c: char)

  function TokenAt(p: string): Token
    requires p != []
  {
    if "**" <= p then AnyDepth
    else if p[0] == '*' then Segment
    else if p[0] == '?' then One
    else if p[0] == '\\' && |p| > 1 then Escaped(p[1])
    else Plain(p[0])
  }

  function After(p: string): (rest: string)
    requires p != []
    ensures |rest| < |p|
  {
    if "**/" <= p then p[3..]
    else if "**" <= p then p[2..]
    else if p[0] == '\\' && |p| > 1 then p[2..]
    else p[1..]
  }

  // ------------------------------------------------------------------ what a pattern means

  /** The pattern, read directly, matches the whole path. */
  predicate Glob(p: string, path: string)
    decreases |p|
  {
    if p == [] then path == []
    else
      var rest := After(p);
      match TokenAt(p)
      case AnyDepth => rest == [] || Glob(rest, path)
                       || exists k: nat | k < |path| :: path[k] == '/' && Glob(rest, path[k + 1..])
      case Segment => exists k: nat | k <= |path| :: '/' !in path[..k] && Glob(rest, path[k..])
      case One => path != [] && path[0] != '/' && Glob(rest, path[1..])
      case Escaped(c) => path != [] && path[0] == c && Glob(rest, path[1..])
      case Plain(c) => path != [] && path[0] == c && Glob(rest, path[1..])
  }

  // ------------------------------------------------------------------ the compiler

  predicate DockerEscapes(c: char) {
    c in ".+()|{}$"
  }

  /** re.escape on one character. */
  function ReEscape(c: char): string {
    if c in "()[]{}?*+-|^$\\.&~# \t\n\r" || c == '\U{0b}' || c == '\U{0c}' then ['\\', c] else [c]
  }

  function Piece(t: Token, last: bool): string {
    match t
    case AnyDepth => if last then ".*" else "(.*/)?"
    case Segment => "[^/]*"
    case One => "[^/]"
    case Escaped(c) => ReEscape(c)
    case Plain(c) => if DockerEscapes(c) then ['\\', c] else [c]
  }

  function Emitted(p: string): string
    decreases |p|
  {
    if p == [] then [] else Piece(TokenAt(p), After(p) == []) + Emitted(After(p))
  }

  predicate StartsAt(s: string, prefix: string, i: nat)
    requires i <= |s|
  {
    prefix <= s[i..]
  }

  /** _docker_regex, up to re.compile. */
  method DockerRegex(pattern: string) returns (out: string)
    ensures out == "^" + Emitted(pattern) + "$"
  {
    hide *;
    out := "^";
    var i := 0;
    assert pattern[0..] == pattern;
    while i < |pattern|
      invariant 0 <= i <= |pattern|
      invariant out + Emitted(pattern[i..]) == "^" + Emitted(pattern)
    {
      ghost var start, before := i, out;
      TokenReads(pattern, i);
      EmittedStep(pattern[i..]);
      var ch := pattern[i];
      if StartsAt(pattern, "**", i) {
        i := i + if StartsAt(pattern, "**/", i) then 2 else 1;
        out := out + if i + 1 >= |pattern| then ".*" else "(.*/)?";
      } else if ch == '*' {
        out := out + "[^/]*";
      } else if ch == '?' {
        out := out + "[^/]";
      } else if ch == '\\' && i + 1 < |pattern| {
        i := i + 1;
        out := out + ReEscape(pattern[i]);
      } else {
        out := out + if DockerEscapes(ch) then ['\\', ch] else [ch];
      }
      i := i + 1;
      ghost var piece := Piece(TokenAt(pattern[start..]), pattern[i..] == []);
      PieceIs(TokenAt(pattern[start..]), pattern[i..] == []);
      assert pattern[i..] == [] <==> i >= |pattern|;
      assert out == before + piece;
      Regroup(before, piece, Emitted(pattern[i..]));
    }
    assert out + Emitted([]) == out by {
      EmittedNothing();
    }
    assert pattern[i..] == [];
    out := out + "$";
  }

  lemma EmittedNothing()
    ensures Emitted([]) == []
  {
  }

  lemma EmittedStep(p: string)
    requires p != []
    ensures Emitted(p) == Piece(TokenAt(p), After(p) == []) + Emitted(After(p))
  {
  }

  lemma PieceIs(t: Token, last: bool)
    ensures Piece(t, last) == match t
      case AnyDepth => if last then ".*" else "(.*/)?"
      case Segment => "[^/]*"
      case One => "[^/]"
      case Escaped(c) => ReEscape(c)
      case Plain(c) => if DockerEscapes(c) then ['\\', c] else [c]
  {
  }

  /** The token at i, in terms of the whole pattern. */
  lemma TokenReads(pattern: string, i: nat)
    requires i < |pattern|
    ensures pattern[i..] != []
    ensures var ch := pattern[i];
            var deep, more := StartsAt(pattern, "**", i), ch == '\\' && i + 1 < |pattern|;
            && (StartsAt(pattern, "**/", i) ==> deep && i + 3 <= |pattern|) && (deep ==> i + 2 <= |pattern|)
            && TokenAt(pattern[i..]) == (if deep then AnyDepth else if ch == '*' then Segment else if ch == '?' then One
                                         else if more then Escaped(pattern[i + 1]) else Plain(ch))
            && After(pattern[i..]) == pattern[i + (if StartsAt(pattern, "**/", i) then 3 else if deep || more then 2 else 1)..]
  {
    var rest := pattern[i..];
    assert forall k: nat | k <= |rest| :: rest[k..] == pattern[i + k..];
  }

  // ------------------------------------------------------------------ what the compiled text reads as

  /** No character class is opened: every [ is escaped. */
  predicate Classless(p: string)
    decreases |p|
  {
    p == [] || (TokenAt(p) != Plain('[') && Classless(After(p)))
  }

  const UP_TO_SLASH := Opt(Cat(Star(Dot), Cat(Lit('/'), Eps)))

  function Item(t: Token, last: bool): Regex {
    match t
    case AnyDepth => if last then Star(Dot) else UP_TO_SLASH
    case Segment => Star(NotSlash)
    case One => NotSlash
    case Escaped(c) => Lit(c)
    case Plain(c) => if c == '^' then Start else Lit(c)
  }

  /** A backslash that ends the pattern escapes the end anchor. */
  predicate Lone(p: string) {
    p == "\\"
  }

  /** The regex the emitted text, with the end anchor after it, is read as. */
  function Body(p: string): Regex
    decreases |p|
  {
    if p == [] then Cat(End, Eps)
    else if Lone(p) then Cat(Lit('$'), Eps)
    else Cat(Item(TokenAt(p), After(p) == []), Body(After(p)))
  }

  /** Text a quantifier cannot start. */
  predicate Unquantified(t: string) {
    t != [] && !Quantifies(t[0])
  }

  lemma ReadOne(s: string, item: Reading)
    requires s != [] && s[0] != ')' && ReadItem(s) == Some(item)
    ensures ReadSeq(item.rest).Some? ==>
              ReadSeq(s) == Some(Reading(Cat(item.regex, ReadSeq(item.rest).value.regex), ReadSeq(item.rest).value.rest))
  {
  }

  lemma ReadEscaped(c: char, t: string)
    requires Unquantified(t) && !AsciiAlnum(c)
    ensures ReadItem(['\\', c] + t) == Some(Reading(Lit(c), t))
  {
    var s := ['\\', c] + t;
    assert s[2..] == t;
  }

  lemma ReadPlain(c: char, t: string)
    requires Unquantified(t) && c !in "^$.[(\\|)" && !Quantifies(c)
    ensures ReadItem([c] + t) == Some(Reading(Lit(c), t))
  {
    var s := [c] + t;
    assert s[1..] == t;
  }

  lemma ReadCaret(t: string)
    requires Unquantified(t)
    ensures ReadItem("^" + t) == Some(Reading(Start, t))
  {
    var s := "^" + t;
    assert s[1..] == t;
  }

  lemma ReadNotSlash(t: string)
    requires Unquantified(t)
    ensures ReadItem("[^/]" + t) == Some(Reading(NotSlash, t))
  {
    var s := "[^/]" + t;
    assert s[4..] == t;
  }

  lemma ReadSegment(t: string)
    ensures ReadItem("[^/]*" + t) == Some(Reading(Star(NotSlash), t))
  {
    var s := "[^/]*" + t;
    assert s == "[^/]" + (['*'] + t);
    assert s[4..] == ['*'] + t;
    assert s[4..][1..] == t;
  }

  lemma ReadDotStar(t: string)
    ensures ReadItem(".*" + t) == Some(Reading(Star(Dot), t))
  {
    var s := ".*" + t;
    assert s[1..] == ['*'] + t;
    assert s[1..][1..] == t;
  }

  lemma ReadUpToSlash(t: string)
    ensures ReadItem("(.*/)?" + t) == Some(Reading(UP_TO_SLASH, t))
  {
    var s := "(.*/)?" + t;
    var close := ")?" + t;
    var slash := "/" + close;
    assert s[1..] == ".*" + slash;
    ReadDotStar(slash);
    assert slash[1..] == close;
    assert ReadItem(slash) == Some(Reading(Lit('/'), close));
    ReadOne(slash, Reading(Lit('/'), close));
    ReadOne(".*" + slash, Reading(Star(Dot), slash));
    assert close[1..] == "?" + t;
    assert close[1..][1..] == t;
  }

  lemma ReadPiece(tok: Token, last: bool, t: string)
    requires Unquantified(t) && tok != Plain('[') && tok != Plain('\\') && tok != Plain('*') && tok != Plain('?')
    ensures Piece(tok, last) != [] && Piece(tok, last)[0] != ')'
    ensures Unquantified(Piece(tok, last))
    ensures ReadItem(Piece(tok, last) + t) == Some(Reading(Item(tok, last), t))
  {
    hide ReadItem;
    match tok
    case AnyDepth => ReadDotStar(t); ReadUpToSlash(t);
    case Segment => ReadSegment(t);
    case One => ReadNotSlash(t);
    case Escaped(c) => if |ReEscape(c)| == 2 { ReadEscaped(c, t); } else { ReadPlain(c, t); }
    case Plain(c) => if DockerEscapes(c) { ReadEscaped(c, t); } else if c == '^' { ReadCaret(t); } else { ReadPlain(c, t); }
  }

  lemma BodyStep(p: string)
    requires Classless(p) && p != [] && !Lone(p)
    ensures Classless(After(p)) && TokenAt(p) != Plain('[')
    ensures TokenAt(p) != Plain('\\') && TokenAt(p) != Plain('*') && TokenAt(p) != Plain('?')
    ensures Emitted(p) == Piece(TokenAt(p), After(p) == []) + Emitted(After(p))
    ensures Body(p) == Cat(Item(TokenAt(p), After(p) == []), Body(After(p)))
  {
  }

  lemma ReadEnds()
    ensures ReadSeq("$") == Some(Reading(Cat(End, Eps), []))
    ensures ReadSeq("\\$") == Some(Reading(Cat(Lit('$'), Eps), []))
  {
    assert "$"[1..] == [] && "\\$"[2..] == [];
  }

  lemma UnquantifiedPiece(piece: string, t: string)
    requires Unquantified(piece)
    ensures Unquantified(piece + t)
  {
  }

  /** The compiled text is read as the body, all of it. */
  lemma {:induction false} ReadsAsBody(p: string)
    requires Classless(p)
    ensures Unquantified(Emitted(p) + "$")
    ensures ReadSeq(Emitted(p) + "$") == Some(Reading(Body(p), []))
    decreases |p|
  {
    hide ReadSeq;
    hide ReadItem;
    if p == [] || Lone(p) {
      ReadEnds();
      assert p == [] ==> Emitted(p) + "$" == "$";
      assert p != [] ==> After(p) == [] && Emitted(p) + "$" == "\\$";
    } else {
      BodyStep(p);
      ReadsAsBody(After(p));
      hide *;
      var tok, piece, t := TokenAt(p), Piece(TokenAt(p), After(p) == []), Emitted(After(p)) + "$";
      ReadPiece(tok, After(p) == [], t);
      UnquantifiedPiece(piece, t);
      Regroup(piece, Emitted(After(p)), "$");
      ReadOne(piece + t, Reading(Item(tok, After(p) == []), t));
    }
  }

  // ------------------------------------------------------------------ what the compiled regex matches

  /** The end anchor holds: at the end, or before a newline that ends the path. */
  predicate AtEnd(path: string, i: nat) {
    i == |path| || (i == |path| - 1 && path[i] == '\n')
  }

  /** What the compiled pattern p matches of a path from position i: like Glob, but a double star
      stays in the line, a final newline may be left over, a bare ^ is the start of the path, and a
      lone backslash is a dollar sign and whatever follows. */
  predicate Reads(p: string, path: string, i: nat)
    requires i <= |path|
    decreases |p|
  {
    if p == [] then AtEnd(path, i)
    else if Lone(p) then i < |path| && path[i] == '$'
    else
      var rest := After(p);
      match TokenAt(p)
      case AnyDepth =>
        if rest == [] then exists k: nat | i <= k <= |path| :: '\n' !in path[i..k] && AtEnd(path, k)
        else Reads(rest, path, i)
             || exists k: nat | i <= k < |path| :: path[k] == '/' && '\n' !in path[i..k] && Reads(rest, path, k + 1)
      case Segment => exists k: nat | i <= k <= |path| :: '/' !in path[i..k] && Reads(rest, path, k)
      case One => i < |path| && path[i] != '/' && Reads(rest, path, i + 1)
      case Escaped(c) => i < |path| && path[i] == c && Reads(rest, path, i + 1)
      case Plain(c) => if c == '^' then i == 0 && Reads(rest, path, 0)
                       else i < |path| && path[i] == c && Reads(rest, path, i + 1)
  }

  predicate FoundFrom(r: Regex, s: string, i: nat)
    requires i <= |s|
  {
    exists j: nat | i <= j <= |s| :: Matches(r, s, i, j)
  }

  lemma FoundCat(a: Regex, b: Regex, s: string, i: nat)
    requires i <= |s|
    ensures FoundFrom(Cat(a, b), s, i) <==> exists k: nat | i <= k <= |s| :: Matches(a, s, i, k) && FoundFrom(b, s, k)
  {
    if FoundFrom(Cat(a, b), s, i) {
      var j: nat :| i <= j <= |s| && Matches(Cat(a, b), s, i, j);
      var k := MatchedCat(a, b, s, i, j);
      assert FoundFrom(b, s, k);
    }
    if k: nat :| i <= k <= |s| && Matches(a, s, i, k) && FoundFrom(b, s, k) {
      var j: nat :| k <= j <= |s| && Matches(b, s, k, j);
      MatchesCat(a, b, s, i, k, j);
    }
  }

  lemma UpToSlashIs(s: string, i: nat, k: nat)
    requires i <= k <= |s|
    ensures Matches(UP_TO_SLASH, s, i, k) <==> i == k || (i < k && s[k - 1] == '/' && '\n' !in s[i..k - 1])
  {
    var tail := Cat(Lit('/'), Eps);
    if Matches(UP_TO_SLASH, s, i, k) && i != k {
      assert Matches(Cat(Star(Dot), tail), s, i, k);
      var m := MatchedCat(Star(Dot), tail, s, i, k);
      var n := MatchedCat(Lit('/'), Eps, s, m, k);
      DotStar(s, i, m);
    }
    if i < k && s[k - 1] == '/' && '\n' !in s[i..k - 1] {
      DotStar(s, i, k - 1);
      MatchesCat(Lit('/'), Eps, s, k - 1, k, k);
      MatchesCat(Star(Dot), tail, s, i, k - 1, k);
    }
  }

  lemma EndIs(path: string, i: nat)
    requires i <= |path|
    ensures FoundFrom(Cat(End, Eps), path, i) <==> AtEnd(path, i)
  {
    FoundCat(End, Eps, path, i);
    assert AtEnd(path, i) ==> Matches(End, path, i, i);
    assert Matches(Eps, path, i, i);
  }

  lemma LoneIs(path: string, i: nat)
    requires i <= |path|
    ensures FoundFrom(Cat(Lit('$'), Eps), path, i) <==> i < |path| && path[i] == '$'
  {
    FoundCat(Lit('$'), Eps, path, i);
    if i < |path| && path[i] == '$' {
      assert Matches(Eps, path, i + 1, i + 1);
      assert Matches(Lit('$'), path, i, i + 1);
    }
  }

  /** A token that is one character or an anchor takes one fixed step. */
  lemma StepIs(t: Token, b: Regex, path: string, i: nat)
    requires i <= |path| && !t.AnyDepth? && !t.Segment?
    ensures FoundFrom(Cat(Item(t, false), b), path, i) <==>
              if t == Plain('^') then i == 0 && FoundFrom(b, path, 0)
              else i < |path| && (if t.One? then path[i] != '/' else path[i] == t.c) && FoundFrom(b, path, i + 1)
  {
    var r := Item(t, false);
    FoundCat(r, b, path, i);
    forall k: nat | i <= k <= |path|
      ensures Matches(r, path, i, k) <==>
                if t == Plain('^') then i == k == 0
                else k == i + 1 && if t.One? then path[i] != '/' else path[i] == t.c
    {
    }
    assert i < |path| ==> i <= i + 1 <= |path|;
    hide Matches;
    hide FoundFrom;
    if i < |path| {
      assert Matches(r, path, i, i + 1) || !Matches(r, path, i, i + 1);
    }
    assert Matches(r, path, i, i) || !Matches(r, path, i, i);
  }

  lemma SegmentIs(b: Regex, path: string, i: nat)
    requires i <= |path|
    ensures FoundFrom(Cat(Star(NotSlash), b), path, i) <==>
              exists k: nat | i <= k <= |path| :: '/' !in path[i..k] && FoundFrom(b, path, k)
  {
    FoundCat(Star(NotSlash), b, path, i);
    forall k: nat | i <= k <= |path| ensures Matches(Star(NotSlash), path, i, k) <==> '/' !in path[i..k] {
      NotSlashStar(path, i, k);
    }
    hide Matches;
    hide FoundFrom;
    if k: nat :| i <= k <= |path| && '/' !in path[i..k] && FoundFrom(b, path, k) {
      assert Matches(Star(NotSlash), path, i, k);
    }
  }

  lemma AnyDepthIs(b: Regex, path: string, i: nat)
    requires i <= |path|
    ensures FoundFrom(Cat(UP_TO_SLASH, b), path, i) <==>
              || FoundFrom(b, path, i)
              || exists k: nat | i <= k < |path| :: path[k] == '/' && '\n' !in path[i..k] && FoundFrom(b, path, k + 1)
  {
    FoundCat(UP_TO_SLASH, b, path, i);
    forall k: nat | i <= k <= |path|
      ensures Matches(UP_TO_SLASH, path, i, k) <==> i == k || (i < k && path[k - 1] == '/' && '\n' !in path[i..k - 1])
    {
      UpToSlashIs(path, i, k);
    }
    hide Matches;
    hide FoundFrom;
    assert Matches(UP_TO_SLASH, path, i, i);
    if m: nat :| i <= m <= |path| && Matches(UP_TO_SLASH, path, i, m) && FoundFrom(b, path, m) {
      if m != i {
        assert path[m - 1] == '/' && FoundFrom(b, path, m - 1 + 1);
      }
    }
    if k: nat :| i <= k < |path| && path[k] == '/' && '\n' !in path[i..k] && FoundFrom(b, path, k + 1) {
      assert Matches(UP_TO_SLASH, path, i, k + 1);
    }
  }

  lemma AllIs(path: string, i: nat)
    requires i <= |path|
    ensures FoundFrom(Cat(Star(Dot), Cat(End, Eps)), path, i) <==>
              exists k: nat | i <= k <= |path| :: '\n' !in path[i..k] && AtEnd(path, k)
  {
    FoundCat(Star(Dot), Cat(End, Eps), path, i);
    forall k: nat | i <= k <= |path|
      ensures Matches(Star(Dot), path, i, k) <==> '\n' !in path[i..k]
      ensures FoundFrom(Cat(End, Eps), path, k) <==> AtEnd(path, k)
    {
      DotStar(path, i, k);
      EndIs(path, k);
    }
    hide *;
    if k: nat :| i <= k <= |path| && '\n' !in path[i..k] && AtEnd(path, k) {
      assert Matches(Star(Dot), path, i, k);
    }
  }

  lemma {:induction false} BodyReads(p: string, path: string, i: nat)
    requires i <= |path|
    ensures FoundFrom(Body(p), path, i) <==> Reads(p, path, i)
    decreases |p|
  {
    hide FoundFrom;
    hide Matches;
    if p == [] {
      EndIs(path, i);
    } else if Lone(p) {
      LoneIs(path, i);
    } else {
      var rest, tok := After(p), TokenAt(p);
      forall k: nat | k <= |path| ensures FoundFrom(Body(rest), path, k) <==> Reads(rest, path, k) {
        BodyReads(rest, path, k);
      }
      match tok
      case AnyDepth =>
        if rest == [] {
          AllIs(path, i);
        } else {
          AnyDepthIs(Body(rest), path, i);
        }
      case Segment =>
        SegmentIs(Body(rest), path, i);
      case _ =>
        StepIs(tok, Body(rest), path, i);
    }
  }

  /** re.compile(out).match(path). */
  predicate Matched(out: string, path: string) {
    var r := Compile(out);
    r.Some? && Found(r.value, path)
  }

  function RegexText(pattern: string): string {
    "^" + Emitted(pattern) + "$"
  }

  lemma MatchedIs(s: string, body: Regex, path: string)
    requires ReadSeq(s) == Some(Reading(Cat(Start, body), []))
    ensures Matched(s, path) <==> FoundFrom(Cat(Start, body), path, 0)
  {
  }

  /** What the compiled regex matches, for every pattern without an open class. */
  lemma MatchedReads(pattern: string, path: string)
    requires Classless(pattern)
    ensures Matched(RegexText(pattern), path) <==> Reads(pattern, path, 0)
  {
    var text, body := Emitted(pattern) + "$", Body(pattern);
    ReadsAsBody(pattern);
    assert RegexText(pattern) == "^" + text;
    ReadCaret(text);
    hide *;
    ReadOne("^" + text, Reading(Start, text));
    StepIs(Plain('^'), body, path, 0);
    BodyReads(pattern, path, 0);
    MatchedIs("^" + text, body, path);
  }

  // ------------------------------------------------------------------ when the compiled regex means the pattern

  predicate HasCaret(p: string)
    decreases |p|
  {
    p != [] && (TokenAt(p) == Plain('^') || HasCaret(After(p)))
  }

  predicate EndsLone(p: string)
    decreases |p|
  {
    p != [] && (Lone(p) || EndsLone(After(p)))
  }

  /** No bare ^, and no backslash with nothing after it. */
  predicate Literal(p: string) {
    !HasCaret(p) && !EndsLone(p)
  }

  /** The pattern, read directly but with a double star that stays in the line, matches the whole path. */
  predicate LineGlob(p: string, path: string)
    decreases |p|
  {
    if p == [] then path == []
    else
      var rest := After(p);
      match TokenAt(p)
      case AnyDepth =>
        if rest == [] then '\n' !in path
        else LineGlob(rest, path)
             || exists k: nat | k < |path| :: path[k] == '/' && '\n' !in path[..k] && LineGlob(rest, path[k + 1..])
      case Segment => exists k: nat | k <= |path| :: '/' !in path[..k] && LineGlob(rest, path[k..])
      case One => path != [] && path[0] != '/' && LineGlob(rest, path[1..])
      case Escaped(c) => path != [] && path[0] == c && LineGlob(rest, path[1..])
      case Plain(c) => path != [] && path[0] == c && LineGlob(rest, path[1..])
  }

  /** On a path of one line it is the direct reading; on any path it matches no more. */
  lemma {:induction false} LineGlobIsGlob(p: string, path: string)
    ensures LineGlob(p, path) ==> Glob(p, path)
    ensures '\n' !in path ==> (LineGlob(p, path) <==> Glob(p, path))
    decreases |p|
  {
    if p == [] {
    } else {
      var rest := After(p);
      LineGlobIsGlob(rest, path);
      forall k: nat | k <= |path|
        ensures LineGlob(rest, path[k..]) ==> Glob(rest, path[k..])
        ensures '\n' !in path ==> (LineGlob(rest, path[k..]) <==> Glob(rest, path[k..]))
      {
        LineGlobIsGlob(rest, path[k..]);
      }
    }
  }

  /** The direct reading of path[i..m]. */
  predicate Spans(p: string, path: string, i: nat, m: nat) {
    i <= m <= |path| && LineGlob(p, path[i..m])
  }

  /** The compiled pattern matches up to where the end anchor holds. */
  predicate SpansLine(p: string, path: string, i: nat) {
    exists m: nat | m <= |path| :: AtEnd(path, m) && Spans(p, path, i, m)
  }

  lemma {:induction false} ReadsSpans(p: string, path: string, i: nat)
    requires i <= |path| && Literal(p)
    ensures Reads(p, path, i) <==> SpansLine(p, path, i)
    decreases |p|
  {
    if p == [] {
      assert path[i..i] == [];
    } else {
      var rest := After(p);
      forall k: nat | k <= |path| ensures Reads(rest, path, k) <==> SpansLine(rest, path, k) {
        ReadsSpans(rest, path, k);
      }
      if TokenAt(p).AnyDepth? {
        if rest == [] {
          hide LineGlob;
          forall m: nat | i <= m <= |path| ensures Spans(p, path, i, m) <==> '\n' !in path[i..m] {
            SpansRest(p, path, i, m);
          }
        } else {
          ReadsDeep(p, path, i);
        }
      } else if TokenAt(p).Segment? {
        ReadsSegment(p, path, i);
      } else {
        forall m: nat | m <= |path|
          ensures Spans(p, path, i, m) <==>
                    && i < |path| && (if TokenAt(p).One? then path[i] != '/' else path[i] == TokenAt(p).c)
                    && Spans(rest, path, i + 1, m)
        {
          SpansStep(p, path, i, m);
        }
        hide LineGlob;
        hide AtEnd;
      }
    }
  }

  lemma SpansRest(p: string, path: string, i: nat, m: nat)
    requires i <= m <= |path| && p != [] && TokenAt(p).AnyDepth? && After(p) == []
    ensures Spans(p, path, i, m) <==> '\n' !in path[i..m]
  {
  }

  lemma SpansStep(p: string, path: string, i: nat, m: nat)
    requires i <= |path| && m <= |path| && p != [] && !TokenAt(p).AnyDepth? && !TokenAt(p).Segment?
    ensures Spans(p, path, i, m) <==>
              && i < |path| && (if TokenAt(p).One? then path[i] != '/' else path[i] == TokenAt(p).c)
              && Spans(After(p), path, i + 1, m)
  {
    if i < m {
      assert path[i..m][0] == path[i] && path[i..m][1..] == path[i + 1..m];
    }
  }

  /** A double star takes the text up to the slash at k, and rest what follows. */
  predicate UpTo(rest: string, text: string, k: nat) {
    k < |text| && text[k] == '/' && '\n' !in text[..k] && LineGlob(rest, text[k + 1..])
  }

  /** The same on path[i..m], with k counted from the front of the path. */
  predicate UpToIn(rest: string, path: string, i: nat, m: nat, k: nat) {
    i <= k < |path| && path[k] == '/' && '\n' !in path[i..k] && Spans(rest, path, k + 1, m)
  }

  lemma UpToShifts(rest: string, path: string, i: nat, m: nat, k: nat)
    requires i <= m <= |path|
    ensures UpTo(rest, path[i..m], k) <==> UpToIn(rest, path, i, m, i + k)
  {
    hide LineGlob;
    if k < m - i {
      var left := path[i..m];
      assert left[k] == path[i + k] && left[..k] == path[i..i + k] && left[k + 1..] == path[i + k + 1..m];
    }
  }

  lemma LineGlobDeep(p: string, text: string)
    requires p != [] && TokenAt(p).AnyDepth? && After(p) != []
    ensures LineGlob(p, text) <==> LineGlob(After(p), text) || exists k: nat :: UpTo(After(p), text, k)
  {
    var rest := After(p);
    assert LineGlob(p, text) <==>
             LineGlob(rest, text)
             || exists k: nat | k < |text| :: text[k] == '/' && '\n' !in text[..k] && LineGlob(rest, text[k + 1..]);
    hide LineGlob;
    hide TokenAt;
    hide After;
    assert forall k: nat | k < |text| ::
             UpTo(rest, text, k) <==> text[k] == '/' && '\n' !in text[..k] && LineGlob(rest, text[k + 1..]);
  }

  lemma SpansDeep(p: string, path: string, i: nat, m: nat)
    requires p != [] && TokenAt(p).AnyDepth? && After(p) != [] && i <= m <= |path|
    ensures Spans(p, path, i, m) <==> Spans(After(p), path, i, m) || exists k: nat :: UpToIn(After(p), path, i, m, k)
  {
    LineGlobDeep(p, path[i..m]);
    hide LineGlob;
    hide UpTo;
    if k: nat :| UpTo(After(p), path[i..m], k) {
      UpToShifts(After(p), path, i, m, k);
    }
    if k: nat :| UpToIn(After(p), path, i, m, k) {
      UpToShifts(After(p), path, i, m, k - i);
    }
  }

  lemma SpansSegment(p: string, path: string, i: nat, m: nat)
    requires p != [] && TokenAt(p).Segment? && i <= m <= |path|
    ensures Spans(p, path, i, m) <==>
              exists k: nat | i <= k <= |path| :: '/' !in path[i..k] && Spans(After(p), path, k, m)
  {
    var rest, left := After(p), path[i..m];
    if k: nat :| k <= |left| && '/' !in left[..k] && LineGlob(rest, left[k..]) {
      assert left[..k] == path[i..i + k] && left[k..] == path[i + k..m];
      assert Spans(rest, path, i + k, m);
    }
    if k: nat :| i <= k <= |path| && '/' !in path[i..k] && Spans(rest, path, k, m) {
      assert left[..k - i] == path[i..k] && left[k - i..] == path[k..m];
    }
  }

  lemma ReadsDeep(p: string, path: string, i: nat)
    requires i <= |path| && p != [] && TokenAt(p).AnyDepth? && After(p) != []
    requires forall k: nat | k <= |path| :: Reads(After(p), path, k) <==> SpansLine(After(p), path, k)
    ensures Reads(p, path, i) <==> SpansLine(p, path, i)
  {
    var rest := After(p);
    forall m: nat | i <= m <= |path|
      ensures Spans(p, path, i, m) <==> Spans(rest, path, i, m) || exists k: nat :: UpToIn(rest, path, i, m, k)
    {
      SpansDeep(p, path, i, m);
    }
    hide LineGlob;
    hide AtEnd;
    if k: nat :| i <= k < |path| && path[k] == '/' && '\n' !in path[i..k] && Reads(rest, path, k + 1) {
      var m: nat :| m <= |path| && AtEnd(path, m) && Spans(rest, path, k + 1, m);
      assert UpToIn(rest, path, i, m, k) && Spans(p, path, i, m);
    }
  }

  lemma ReadsSegment(p: string, path: string, i: nat)
    requires i <= |path| && p != [] && TokenAt(p).Segment?
    requires forall k: nat | k <= |path| :: Reads(After(p), path, k) <==> SpansLine(After(p), path, k)
    ensures Reads(p, path, i) <==> SpansLine(p, path, i)
  {
    var rest := After(p);
    forall m: nat | i <= m <= |path|
      ensures Spans(p, path, i, m) <==>
                exists k: nat | i <= k <= |path| :: '/' !in path[i..k] && Spans(rest, path, k, m)
    {
      SpansSegment(p, path, i, m);
    }
    hide LineGlob;
    hide AtEnd;
    if k: nat :| i <= k <= |path| && '/' !in path[i..k] && Reads(rest, path, k) {
      var m: nat :| m <= |path| && AtEnd(path, m) && Spans(rest, path, k, m);
      assert Spans(p, path, i, m);
    }
  }

  /** A bare ^ holds nowhere but at the start of the path. */
  lemma {:induction false} CaretNeedsStart(p: string, path: string, i: nat)
    requires HasCaret(p) && 0 < i <= |path|
    ensures !Reads(p, path, i)
    decreases |p|
  {
    if TokenAt(p) == Plain('^') {
    } else {
      forall k: nat | 0 < k <= |path| ensures !Reads(After(p), path, k) {
        CaretNeedsStart(After(p), path, k);
      }
    }
  }

  /** The shortest path the pattern matches, read directly (with x for a question mark). */
  function Least(p: string): string
    decreases |p|
  {
    if p == [] then []
    else match TokenAt(p)
      case AnyDepth => Least(After(p))
      case Segment => Least(After(p))
      case One => ['x'] + Least(After(p))
      case Escaped(c) => [c] + Least(After(p))
      case Plain(c) => [c] + Least(After(p))
  }

  /** The shortest path the compiled pattern can match. */
  function LeastRead(p: string): string
    decreases |p|
  {
    if p == [] then []
    else if Lone(p) then "$"
    else match TokenAt(p)
      case AnyDepth => LeastRead(After(p))
      case Segment => LeastRead(After(p))
      case One => ['x'] + LeastRead(After(p))
      case Escaped(c) => [c] + LeastRead(After(p))
      case Plain(c) => if c == '^' then LeastRead(After(p)) else [c] + LeastRead(After(p))
  }

  lemma {:induction false} LeastMatches(p: string)
    ensures Glob(p, Least(p))
    decreases |p|
  {
    if p == [] {
    } else {
      LeastMatches(After(p));
      assert Least(p)[..0] == [];
    }
  }

  lemma {:induction false} LeastIsLeast(p: string, path: string)
    requires Glob(p, path)
    ensures |Least(p)| <= |path|
    decreases |p|
  {
    if p == [] {
    } else {
      forall k: nat | k <= |path| && Glob(After(p), path[k..]) ensures |Least(After(p))| <= |path| - k {
        LeastIsLeast(After(p), path[k..]);
      }
      assert path[0..] == path;
    }
  }

  lemma {:induction false} LeastReadShorter(p: string)
    ensures |LeastRead(p)| <= |Least(p)|
    ensures HasCaret(p) ==> |LeastRead(p)| < |Least(p)|
    decreases |p|
  {
    if p == [] {
    } else {
      LeastReadShorter(After(p));
    }
  }

  lemma {:induction false} LeastReadReads(p: string, path: string, i: nat)
    requires !HasCaret(p) && i <= |path| && path[i..] == LeastRead(p)
    ensures Reads(p, path, i)
    decreases |p|
  {
    if p == [] || Lone(p) {
    } else {
      if TokenAt(p).AnyDepth? || TokenAt(p).Segment? {
        LeastReadReads(After(p), path, i);
        assert path[i..i] == [];
      } else {
        LeastStep(p, path, i);
        LeastReadReads(After(p), path, i + 1);
      }
    }
  }

  lemma LeastStep(p: string, path: string, i: nat)
    requires p != [] && !Lone(p) && !TokenAt(p).AnyDepth? && !TokenAt(p).Segment? && TokenAt(p) != Plain('^')
    requires i <= |path| && path[i..] == LeastRead(p)
    ensures i < |path| && path[i + 1..] == LeastRead(After(p))
    ensures path[i] == if TokenAt(p).One? then 'x' else TokenAt(p).c
  {
    assert path[i + 1..] == path[i..][1..];
    assert path[i] == path[i..][0];
  }

  /** If a pattern with a bare ^ matches anything, it matches less than it says. */
  lemma {:induction false} CaretReadsLeast(p: string, path: string)
    requires HasCaret(p) && Reads(p, path, 0)
    ensures Reads(p, LeastRead(p), 0)
    decreases |p|
  {
    var rest, least := After(p), LeastRead(p);
    assert least[0..] == least && least[0..0] == [];
    if TokenAt(p) == Plain('^') {
      if HasCaret(rest) {
        CaretReadsLeast(rest, path);
      } else {
        LeastReadReads(rest, least, 0);
      }
    } else {
      forall k: nat | 0 < k <= |path| ensures !Reads(rest, path, k) {
        CaretNeedsStart(rest, path, k);
      }
      CaretReadsLeast(rest, path);
    }
  }

  lemma {:induction false} LoneReadsDollar(p: string)
    requires EndsLone(p)
    ensures LeastRead(p) != [] && LeastRead(p)[|LeastRead(p)| - 1] == '$'
    decreases |p|
  {
    if Lone(p) {
    } else {
      LoneReadsDollar(After(p));
    }
  }

  lemma {:induction false} LoneMatchesBackslash(p: string, path: string)
    requires EndsLone(p) && Glob(p, path)
    ensures path != [] && path[|path| - 1] == '\\'
    decreases |p|
  {
    if Lone(p) {
      assert After(p) == [] && Glob(After(p), path[1..]);
    } else {
      var k := GlobStep(p, path);
      LoneMatchesBackslash(After(p), path[k..]);
      assert path[|path| - 1] == path[k..][|path| - k - 1];
    }
  }

  /** The first token takes some of the path, and the rest of the pattern the rest of it. */
  lemma GlobStep(p: string, path: string) returns (k: nat)
    requires p != [] && After(p) != [] && Glob(p, path)
    ensures k <= |path| && Glob(After(p), path[k..])
  {
    var rest := After(p);
    assert path[0..] == path;
    match TokenAt(p)
    case AnyDepth =>
      if Glob(rest, path) {
        k := 0;
      } else {
        var m: nat :| m < |path| && path[m] == '/' && Glob(rest, path[m + 1..]);
        k := m + 1;
      }
    case Segment =>
      k :| k <= |path| && '/' !in path[..k] && Glob(rest, path[k..]);
    case _ =>
      k := 1;
  }

  lemma {:induction false} NoNewline(p: string)
    requires '\n' !in p
    ensures '\n' !in Least(p) && '\n' !in LeastRead(p)
    decreases |p|
  {
    if p == [] {
    } else {
      NoNewline(After(p));
    }
  }

  /** Where the pattern has a bare ^ or a lone backslash, some path tells the two readings apart. */
  lemma ReadsDiffers(p: string) returns (path: string)
    requires !Literal(p) && '\n' !in p
    ensures '\n' !in path && !(Reads(p, path, 0) <==> Glob(p, path))
  {
    NoNewline(p);
    LeastMatches(p);
    path := Least(p);
    if HasCaret(p) {
      if Reads(p, path, 0) {
        CaretReadsLeast(p, path);
        path := LeastRead(p);
        LeastReadShorter(p);
        if Glob(p, path) {
          LeastIsLeast(p, path);
        }
      }
    } else {
      path := LeastRead(p);
      assert path[0..] == path;
      LeastReadReads(p, path, 0);
      LoneReadsDollar(p);
      if Glob(p, path) {
        LoneMatchesBackslash(p, path);
      }
    }
  }

  /** The path without the newline it ends in. */
  function Chomped(path: string): Option<string> {
    if path != [] && path[|path| - 1] == '\n' then Some(path[..|path| - 1]) else None
  }

  /** On any path the compiled regex matches what the pattern, read directly within lines, does,
      or does but for a newline at the end. */
  lemma MatchedIsLineGlob(pattern: string, path: string)
    requires Classless(pattern) && Literal(pattern)
    ensures Matched(RegexText(pattern), path) <==>
              LineGlob(pattern, path) || (Chomped(path).Some? && LineGlob(pattern, Chomped(path).value))
  {
    MatchedReads(pattern, path);
    ReadsSpans(pattern, path, 0);
    hide *;
    AtTheEnd(pattern, path);
  }

  lemma AtTheEnd(p: string, path: string)
    ensures SpansLine(p, path, 0) <==>
              LineGlob(p, path) || (Chomped(path).Some? && LineGlob(p, Chomped(path).value))
  {
    hide LineGlob;
    var n := |path|;
    assert path[0..n] == path;
    assert Spans(p, path, 0, n) <==> LineGlob(p, path);
    if Chomped(path).Some? {
      assert path[0..n - 1] == path[..n - 1];
      assert Spans(p, path, 0, n - 1) <==> LineGlob(p, Chomped(path).value);
    }
  }

  /** Compiling keeps the meaning: the regex matches a path exactly when the pattern, read
      directly, does. */
  lemma CompileKeepsMeaning(pattern: string, path: string)
    requires Classless(pattern) && Literal(pattern) && '\n' !in path
    ensures Matched(RegexText(pattern), path) <==> Glob(pattern, path)
  {
    MatchedIsLineGlob(pattern, path);
    LineGlobIsGlob(pattern, path);
  }

  /** Exactly which paths it keeps it on, newlines or not: one the pattern matches it must match
      within lines, perhaps but for a final newline, and one it does not match it must not match but
      for a final newline either. */
  lemma NewlineDiffersIff(pattern: string, path: string)
    requires Classless(pattern) && Literal(pattern)
    ensures var short := Chomped(path).Some? && LineGlob(pattern, Chomped(path).value);
            (Matched(RegexText(pattern), path) <==> Glob(pattern, path)) <==>
              if Glob(pattern, path) then LineGlob(pattern, path) || short else !short
  {
    MatchedIsLineGlob(pattern, path);
    LineGlobIsGlob(pattern, path);
  }

  /** ... and for no other pattern without an open class. */
  lemma CompileKeepsMeaningIff(pattern: string)
    requires Classless(pattern) && '\n' !in pattern
    ensures (forall path | '\n' !in path :: Matched(RegexText(pattern), path) <==> Glob(pattern, path))
       <==> Literal(pattern)
  {
    hide *;
    if Literal(pattern) {
      forall path | '\n' !in path ensures Matched(RegexText(pattern), path) <==> Glob(pattern, path) {
        CompileKeepsMeaning(pattern, path);
      }
    } else {
      var path := ReadsDiffers(pattern);
      MatchedReads(pattern, path);
    }
  }

  /** Both happen: a path that ends in a newline escapes the end anchor, and a double star does not
      match a path of two lines. */
  lemma NewlineEscapesAnchor()
    ensures Matched(RegexText("a"), "a\n") && !Glob("a", "a\n")
    ensures !Matched(RegexText("**"), "a\nb") && Glob("**", "a\nb")
  {
    assert TokenAt("a") == Plain('a') && After("a") == [];
    assert "a"[1..] == [] && "a\n"[1..] != [] && "a\n"[..1] == "a";
    assert LineGlob("a", "a") && !Glob("a", "a\n");
    MatchedIsLineGlob("a", "a\n");
    assert TokenAt("**") == AnyDepth && After("**") == [];
    assert "a\nb"[1] == '\n';
    MatchedIsLineGlob("**", "a\nb");
  }

  // ------------------------------------------------------------------ the rules

  datatype Rule = Rule(exception: bool, pattern: string)

  /** path.split("/"). */
  function SplitPath(path: string): (parts: seq<string>)
    ensures parts != []
  {
    if path == [] then [[]]
    else
      var n := |path| - 1;
      var parts := SplitPath(path[..n]);
      if path[n] == '/' then parts + [[]] else parts[..|parts| - 1] + [parts[|parts| - 1] + [path[n]]]
  }

  function Candidates(path: string): seq<string> {
    var parts := SplitPath(path);
    [path] + seq(|parts| - 1, i requires 0 <= i < |parts| - 1 => Join(parts[..i + 1], '/'))
  }

  /** The path itself or a directory above it. */
  predicate AtOrAbove(c: string, path: string) {
    c == path || (c < path && path[|c|] == '/')
  }

  lemma {:induction false} SplitJoins(path: string)
    ensures Join(SplitPath(path), '/') == path
  {
    if path == [] {
    } else {
      var n := |path| - 1;
      SplitJoins(path[..n]);
      var parts := SplitPath(path[..n]);
      hide Join;
      if path[n] == '/' {
        JoinMore(parts, [], '/');
      } else {
        JoinLonger(parts, [path[n]], '/');
      }
      assert path == path[..n] + [path[n]];
    }
  }

  lemma SplitStep(path: string)
    requires path != []
    ensures var n, all := |path| - 1, SplitPath(path);
            var parts := SplitPath(path[..n]);
            && all[..|parts| - 1] == parts[..|parts| - 1]
            && (path[n] == '/' ==> |all| == |parts| + 1 && all[..|parts|] == parts)
            && (path[n] != '/' ==> |all| == |parts|)
  {
    var n, all := |path| - 1, SplitPath(path);
    var parts := SplitPath(path[..n]);
    assert path[n] == '/' ==> all == parts + [[]];
  }

  /** c is the first parts, one or more but not all, joined. */
  predicate IsCut(parts: seq<string>, c: string) {
    exists i | 0 < i < |parts| :: Join(parts[..i], '/') == c
  }

  lemma CutSame(all: seq<string>, parts: seq<string>, c: string)
    requires |all| == |parts| > 0 && all[..|parts| - 1] == parts[..|parts| - 1]
    ensures IsCut(all, c) <==> IsCut(parts, c)
  {
    hide Join;
    forall i | 0 < i < |parts| ensures all[..i] == parts[..i] {
      assert all[..i] == all[..|parts| - 1][..i] && parts[..i] == parts[..|parts| - 1][..i];
    }
  }

  lemma CutMore(all: seq<string>, parts: seq<string>, c: string)
    requires |all| == |parts| + 1 && parts != [] && all[..|parts|] == parts
    ensures IsCut(all, c) <==> IsCut(parts, c) || c == Join(parts, '/')
  {
    hide Join;
    forall i | 0 < i < |parts| ensures all[..i] == parts[..i] {
      assert all[..i] == all[..|parts|][..i];
    }
  }

  /** Cutting the parts short gives exactly the directories above the path. */
  lemma {:induction false} PartsAreAncestors(path: string, c: string)
    ensures IsCut(SplitPath(path), c) <==> (c < path && path[|c|] == '/')
  {
    if path == [] {
    } else {
      var n := |path| - 1;
      var q, all := path[..n], SplitPath(path);
      PartsAreAncestors(q, c);
      SplitJoins(q);
      SplitStep(path);
      hide *;
      if path[n] == '/' {
        CutMore(all, SplitPath(q), c);
      } else {
        CutSame(all, SplitPath(q), c);
      }
      Above(path, c);
    }
  }

  lemma Above(path: string, c: string)
    requires path != []
    ensures var n, q := |path| - 1, path[..|path| - 1];
            (c < path && path[|c|] == '/') <==> (c < q && q[|c|] == '/') || (c == q && path[n] == '/')
  {
  }

  lemma CandidatesAre(path: string, c: string)
    ensures c in Candidates(path) <==> AtOrAbove(c, path)
  {
    PartsAreAncestors(path, c);
    var parts, cs := SplitPath(path), Candidates(path);
    if i :| 0 < i < |parts| && Join(parts[..i], '/') == c {
      assert cs[i] == c;
    }
    if c in cs && c != path {
      var i :| 0 <= i < |cs| && cs[i] == c;
      assert Join(parts[..i], '/') == c;
    }
  }

  predicate MatchesAny(out: string, candidates: seq<string>) {
    exists i | 0 <= i < |candidates| :: Matched(out, candidates[i])
  }

  /** The rule's pattern matches the path or a directory above it. */
  ghost predicate Applies(rule: Rule, path: string) {
    exists c :: AtOrAbove(c, path) && Matched(RegexText(rule.pattern), c)
  }

  /** The last rule that applies decides. */
  ghost predicate Excluded(rules: seq<Rule>, path: string) {
    exists k | 0 <= k < |rules| :: Applies(rules[k], path) && !rules[k].exception
      && forall j | k < j < |rules| :: !Applies(rules[j], path)
  }

  lemma AnyApplies(rule: Rule, path: string)
    ensures MatchesAny(RegexText(rule.pattern), Candidates(path)) <==> Applies(rule, path)
  {
    hide Matched;
    hide Candidates;
    var cs := Candidates(path);
    forall c ensures c in cs <==> AtOrAbove(c, path) {
      CandidatesAre(path, c);
    }
    if i :| 0 <= i < |cs| && Matched(RegexText(rule.pattern), cs[i]) {
      assert cs[i] in cs;
    }
  }

  /** dockerignore_excludes, on a path already in normal form. */
  method DockerignoreExcludes(rules: seq<Rule>, path: string) returns (excluded: bool)
    ensures excluded <==> Excluded(rules, path)
  {
    hide Applies;
    hide MatchesAny;
    hide Candidates;
    var candidates := Candidates(path);
    excluded := false;
    for n := 0 to |rules|
      invariant excluded <==> Excluded(rules[..n], path)
    {
      var out := DockerRegex(rules[n].pattern);
      AnyApplies(rules[n], path);
      LastDecides(rules[..n], rules[n], path);
      assert rules[..n + 1] == rules[..n] + [rules[n]];
      if MatchesAny(out, candidates) {
        excluded := !rules[n].exception;
      }
    }
    assert rules[..|rules|] == rules;
  }

  lemma LastDecides(rules: seq<Rule>, last: Rule, path: string)
    ensures Excluded(rules + [last], path) <==> if Applies(last, path) then !last.exception else Excluded(rules, path)
  {
    hide Applies;
    var all := rules + [last];
    if Applies(last, path) && !last.exception {
      assert all[|rules|] == last;
    }
    if !Applies(last, path) && Excluded(rules, path) {
      var k :| 0 <= k < |rules| && Applies(rules[k], path) && !rules[k].exception
               && forall j | k < j < |rules| :: !Applies(rules[j], path);
      assert all[k] == rules[k];
    }
    if Excluded(all, path) {
      var k :| 0 <= k < |all| && Applies(all[k], path) && !all[k].exception
               && forall j | k < j < |all| :: !Applies(all[j], path);
      if k < |rules| {
        assert all[|rules|] == last;
        assert all[k] == rules[k] && forall j | k < j < |rules| :: all[j] == rules[j];
      }
    }
  }

  /** What a rule applies to, read directly. */
  lemma AppliesIsGlob(rule: Rule, path: string)
    requires Classless(rule.pattern) && Literal(rule.pattern) && '\n' !in path
    ensures Applies(rule, path) <==> exists c :: AtOrAbove(c, path) && Glob(rule.pattern, c)
  {
    hide *;
    forall c | AtOrAbove(c, path)
      ensures Matched(RegexText(rule.pattern), c) <==> Glob(rule.pattern, c)
    {
      CoveredHasNoNewline(c, path);
      CompileKeepsMeaning(rule.pattern, c);
    }
    AppliesIs(rule, path);
  }

  lemma CoveredHasNoNewline(c: string, path: string)
    requires AtOrAbove(c, path) && '\n' !in path
    ensures '\n' !in c
  {
  }

  lemma AppliesIs(rule: Rule, path: string)
    ensures Applies(rule, path) <==> exists c :: AtOrAbove(c, path) && Matched(RegexText(rule.pattern), c)
  {
  }

  /** With no exception rule, leaving out a directory leaves out everything below it. */
  lemma ExcludedBelow(rules: seq<Rule>, dir: string, name: string)
    requires forall k | 0 <= k < |rules| :: !rules[k].exception
    requires Excluded(rules, dir)
    ensures Excluded(rules, dir + ['/'] + name)
    decreases |rules|
  {
    var n := |rules| - 1;
    var below := dir + ['/'] + name;
    assert rules == rules[..n] + [rules[n]];
    LastDecides(rules[..n], rules[n], dir);
    LastDecides(rules[..n], rules[n], below);
    if Applies(rules[n], dir) {
      AppliesBelow(rules[n], dir, name);
    } else {
      hide Applies;
      ExcludedBelow(rules[..n], dir, name);
    }
  }

  lemma AppliesBelow(rule: Rule, dir: string, name: string)
    requires Applies(rule, dir)
    ensures Applies(rule, dir + ['/'] + name)
  {
    hide Matched;
    var c :| AtOrAbove(c, dir) && Matched(RegexText(rule.pattern), c);
    assert AtOrAbove(c, dir + ['/'] + name);
  }
}
