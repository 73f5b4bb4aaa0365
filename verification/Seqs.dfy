/** Facts about sequences and characters that several modules need. */
module Seqs {

  predicate NoDuplicates<T(==)>(s: seq<T>) {
    forall i, j | 0 <= i < j < |s| :: s[i] != s[j]
  }

  lemma Regroup<T>(a: seq<T>, b: seq<T>, c: seq<T>)
    ensures (a + b) + c == a + (b + c)
  {
  }

  /** sep.join(parts). */
  function Join(parts: seq<string>, sep: char): string {
    if parts == [] then []
    else if |parts| == 1 then parts[0]
    else Join(parts[..|parts| - 1], sep) + [sep] + parts[|parts| - 1]
  }

  lemma JoinMore(parts: seq<string>, last: string, sep: char)
    requires parts != []
    ensures Join(parts + [last], sep) == Join(parts, sep) + [sep] + last
  {
    assert (parts + [last])[..|parts|] == parts;
  }

  lemma JoinLast(parts: seq<string>, sep: char)
    requires |parts| > 1
    ensures Join(parts, sep) == Join(parts[..|parts| - 1], sep) + ([sep] + parts[|parts| - 1])
  {
    Regroup(Join(parts[..|parts| - 1], sep), [sep], parts[|parts| - 1]);
  }

  /** Making the last part longer makes the whole longer. */
  lemma JoinLonger(parts: seq<string>, more: string, sep: char)
    requires parts != []
    ensures var m := |parts| - 1; Join(parts[..m] + [parts[m] + more], sep) == Join(parts, sep) + more
  {
    var m := |parts| - 1;
    var longer := parts[..m] + [parts[m] + more];
    if m > 0 {
      hide *;
      JoinLast(longer, sep);
      JoinLast(parts, sep);
      assert longer[..m] == parts[..m] && longer[m] == parts[m] + more;
      Regroup([sep], parts[m], more);
      Regroup(Join(parts[..m], sep), [sep] + parts[m], more);
    }
  }

  lemma {:induction false} JoinFirst(p: string, ps: seq<string>, sep: char)
    requires ps != []
    ensures Join([p] + ps, sep) == p + [sep] + Join(ps, sep)
  {
    var n := |ps| - 1;
    assert ([p] + ps)[..n + 1] == [p] + ps[..n];
    if n == 0 {
    } else {
      JoinFirst(p, ps[..n], sep);
      JoinLast([p] + ps, sep);
      JoinLast(ps, sep);
      hide *;
      Regroup(p + [sep], Join(ps[..n], sep), [sep] + ps[n]);
    }
  }

  predicate AsciiAlnum(c: char) {
    'a' <= c <= 'z' || 'A' <= c <= 'Z' || '0' <= c <= '9'
  }
}
