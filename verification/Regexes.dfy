/** The regular expressions scripts/ci/commercial_paths.py hands to Python's re: how their text is
    read, and what they match. */
module Regexes {
  import opened Options
  import opened Seqs

  /** Dot is any character but a newline; NotSlash is the class [^/]. */
  datatype Regex =
    | Eps
    | Lit(c: char)
    | Dot
    | NotSlash
    | Start
    | End
    | Cat(first: Regex, second: Regex)
    | Star(r: Regex)
    | Opt(r: Regex)

  // ------------------------------------------------------------------ reading

  datatype Reading = Reading(regex: Regex, rest: string)

  predicate Quantifies(c: char) {
    c == '*' || c == '?' || c == '+' || c == '{'
  }

  /** One atom: an anchor, a dot, the class [^/], a group, an escaped character or a literal. None
      for syntax outside this fragment. */
  function ReadAtom(s: string): (r: Option<Reading>)
    requires s != []
    ensures r.Some? ==> |r.value.rest| < |s|
    decreases |s|, 0
  {
    var c := s[0];
    if c == '^' then Some(Reading(Start, s[1..]))
    else if c == '$' then Some(Reading(End, s[1..]))
    else if c == '.' then Some(Reading(Dot, s[1..]))
    else if c == '[' then if "[^/]" <= s then Some(Reading(NotSlash, s[4..])) else None
    else if c == '(' then
      var inner := ReadSeq(s[1..]);
      if inner.Some? && inner.value.rest != [] && inner.value.rest[0] == ')'
      then Some(Reading(inner.value.regex, inner.value.rest[1..]))
      else None
    else if c == '\\' then
      if |s| > 1 && !AsciiAlnum(s[1]) then Some(Reading(Lit(s[1]), s[2..])) else None
    else if Quantifies(c) || c == '|' || c == ')' then None
    else Some(Reading(Lit(c), s[1..]))
  }

  /** An atom with the quantifier * or ? that may follow it. */
  function ReadItem(s: string): (r: Option<Reading>)
    requires s != []
    ensures r.Some? ==> |r.value.rest| < |s|
    decreases |s|, 1
  {
    var atom := ReadAtom(s);
    if atom.None? then None
    else
      var Reading(a, t) := atom.value;
      if t != [] && t[0] == '*' then Some(Reading(Star(a), t[1..]))
      else if t != [] && t[0] == '?' then Some(Reading(Opt(a), t[1..]))
      else if t != [] && Quantifies(t[0]) then None
      else atom
  }

  /** Items up to the end or a closing bracket. */
  function ReadSeq(s: string): (r: Option<Reading>)
    ensures r.Some? ==> |r.value.rest| <= |s|
    decreases |s|, 2
  {
    if s == [] || s[0] == ')' then Some(Reading(Eps, s))
    else
      var item := ReadItem(s);
      if item.None? then None
      else
        var more := ReadSeq(item.value.rest);
        if more.None? then None
        else Some(Reading(Cat(item.value.regex, more.value.regex), more.value.rest))
  }

  /** re.compile. */
  function Compile(s: string): Option<Regex> {
    var r := ReadSeq(s);
    if r.Some? && r.value.rest == [] then Some(r.value.regex) else None
  }

  // ------------------------------------------------------------------ matching

  /** r matches s[i..j]. The end anchor also holds before a final newline. */
  predicate Matches(r: Regex, s: string, i: nat, j: nat)
    requires i <= j <= |s|
    decreases r, j - i
  {
    match r
    case Eps => i == j
    case Lit(c) => j == i + 1 && s[i] == c
    case Dot => j == i + 1 && s[i] != '\n'
    case NotSlash => j == i + 1 && s[i] != '/'
    case Start => i == j == 0
    case End => i == j && (j == |s| || (j == |s| - 1 && s[j] == '\n'))
    case Cat(a, b) => exists k: nat | i <= k <= j :: Matches(a, s, i, k) && Matches(b, s, k, j)
    case Star(a) => i == j || exists k: nat | i < k <= j :: Matches(a, s, i, k) && Matches(r, s, k, j)
    case Opt(a) => i == j || Matches(a, s, i, j)
  }

  /** r.match(s): r matches some stretch from the front. */
  predicate Found(r: Regex, s: string) {
    exists j: nat | j <= |s| :: Matches(r, s, 0, j)
  }

  lemma MatchesCat(a: Regex, b: Regex, s: string, i: nat, k: nat, j: nat)
    requires i <= k <= j <= |s| && Matches(a, s, i, k) && Matches(b, s, k, j)
    ensures Matches(Cat(a, b), s, i, j)
  {
  }

  lemma MatchedCat(a: Regex, b: Regex, s: string, i: nat, j: nat) returns (k: nat)
    requires i <= j <= |s| && Matches(Cat(a, b), s, i, j)
    ensures i <= k <= j && Matches(a, s, i, k) && Matches(b, s, k, j)
  {
    k :| i <= k <= j && Matches(a, s, i, k) && Matches(b, s, k, j);
  }

  lemma {:induction false} DotStar(s: string, i: nat, j: nat)
    requires i <= j <= |s|
    ensures Matches(Star(Dot), s, i, j) <==> '\n' !in s[i..j]
    decreases j - i
  {
    if i == j {
    } else {
      DotStar(s, i + 1, j);
      assert s[i..j] == [s[i]] + s[i + 1..j];
    }
  }

  lemma {:induction false} NotSlashStar(s: string, i: nat, j: nat)
    requires i <= j <= |s|
    ensures Matches(Star(NotSlash), s, i, j) <==> '/' !in s[i..j]
    decreases j - i
  {
    if i == j {
    } else {
      NotSlashStar(s, i + 1, j);
      assert s[i..j] == [s[i]] + s[i + 1..j];
    }
  }
}
