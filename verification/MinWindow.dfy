/** The sliding minimum-window scan (examples/benchmark/run_benchmark.py, _min_window). */
module MinWindow {
  import opened Options

  datatype Window = Window(start: nat, end: nat)   // both included

  predicate Within<T(==)>(hay: seq<T>, w: Window) {
    w.start <= w.end < |hay|
  }

  function Elements<T(==)>(s: seq<T>): set<T> {
    set t | t in s
  }

  /** The window holds every needle. */
  predicate Covers<T(==)>(hay: seq<T>, need: set<T>, w: Window) {
    Within(hay, w) && forall n | n in need :: n in hay[w.start..w.end + 1]
  }

  /** a is shorter than b, or as short and ends no later. */
  predicate Before(a: Window, b: Window) {
    var x, y := a.end - a.start, b.end - b.start;
    x < y || (x == y && a.end <= b.end)
  }

  /** The earliest-ending of the shortest windows holding every needle. */
  ghost predicate IsMinWindow<T>(hay: seq<T>, need: set<T>, w: Window) {
    need != {} && Covers(hay, need, w) && forall v | Covers(hay, need, v) :: Before(w, v)
  }

  lemma MinWindowUnique<T>(hay: seq<T>, need: set<T>, v: Window, w: Window)
    requires IsMinWindow(hay, need, v) && IsMinWindow(hay, need, w)
    ensures v == w
  {
  }

  /** The needles the stretch hay[left..right] holds. */
  function Held<T(==)>(hay: seq<T>, need: set<T>, left: nat, right: nat): set<T>
    requires left <= right <= |hay|
  {
    set n | n in need && n in hay[left..right]
  }

  function Count<T(==)>(have: map<T, int>, t: T): int {
    if t in have then have[t] else 0
  }

  /** have counts the needles of hay[left..right]. */
  ghost predicate Counts<T>(hay: seq<T>, need: set<T>, have: map<T, int>, left: nat, right: nat)
    requires left <= right <= |hay|
  {
    forall n | n in need :: Count(have, n) == multiset(hay[left..right])[n]
  }

  /** best is the best of the windows that end before right, or at right starting before left. */
  ghost predicate Best<T>(hay: seq<T>, need: set<T>, best: Option<Window>, left: nat, right: nat) {
    && (best.Some? ==> Covers(hay, need, best.value) && best.value.end <= right)
    && forall v | Covers(hay, need, v) && (v.end < right || (v.end == right && v.start < left)) ::
         best.Some? && Before(best.value, v)
  }

  lemma ElementsEmpty<T>(s: seq<T>)
    ensures Elements(s) == {} <==> s == []
  {
    if s != [] {
      assert s[0] in Elements(s);
    }
  }

  lemma TakeRight<T>(hay: seq<T>, need: set<T>, have: map<T, int>, left: nat, right: nat)
    requires left <= right < |hay| && Counts(hay, need, have, left, right)
    ensures var t := hay[right];
            && |Held(hay, need, left, right + 1)|
               == |Held(hay, need, left, right)| + (if t in need && Count(have, t) == 0 then 1 else 0)
            && Counts(hay, need, if t in need then have[t := Count(have, t) + 1] else have, left, right + 1)
  {
    assert hay[left..right + 1] == hay[left..right] + [hay[right]];
    HeldGrows(hay, need, left, right);
  }

  lemma HeldGrows<T>(hay: seq<T>, need: set<T>, left: nat, right: nat)
    requires left <= right < |hay|
    ensures |Held(hay, need, left, right + 1)|
         == |Held(hay, need, left, right)|
            + if hay[right] in need && multiset(hay[left..right])[hay[right]] == 0 then 1 else 0
  {
    var t, held := hay[right], Held(hay, need, left, right);
    assert hay[left..right + 1] == hay[left..right] + [t];
    if t in need && t !in hay[left..right] {
      assert Held(hay, need, left, right + 1) == held + {t};
    } else {
      assert Held(hay, need, left, right + 1) == held;
    }
  }

  lemma DropLeft<T>(hay: seq<T>, need: set<T>, have: map<T, int>, left: nat, right: nat)
    requires left < right <= |hay| && Counts(hay, need, have, left, right)
    ensures var t := hay[left];
            && |Held(hay, need, left + 1, right)|
               == |Held(hay, need, left, right)| - (if t in need && Count(have, t) == 1 then 1 else 0)
            && Counts(hay, need, if t in need then have[t := Count(have, t) - 1] else have, left + 1, right)
  {
    assert hay[left..right] == [hay[left]] + hay[left + 1..right];
    var t, held := hay[left], Held(hay, need, left, right);
    assert Held(hay, need, left + 1, right) == held - (if t in need && Count(have, t) == 1 then {t} else {});
    assert t in need ==> t in held;
  }

  lemma AllHeld<T>(hay: seq<T>, need: set<T>, left: nat, right: nat)
    requires left <= right <= |hay|
    ensures |Held(hay, need, left, right)| <= |need|
    ensures |Held(hay, need, left, right)| == |need| <==> forall n | n in need :: n in hay[left..right]
  {
    var held := Held(hay, need, left, right);
    assert need == held + (need - held);
  }

  lemma Wider<T>(hay: seq<T>, need: set<T>, left: nat, v: Window)
    requires Covers(hay, need, v) && left <= v.start
    ensures |Held(hay, need, left, v.end + 1)| == |need|
  {
    forall n | n in need ensures n in hay[left..v.end + 1] {
      var i :| 0 <= i < |hay[v.start..v.end + 1]| && hay[v.start..v.end + 1][i] == n;
      assert hay[left..v.end + 1][i + v.start - left] == n;
    }
    AllHeld(hay, need, left, v.end + 1);
  }

  /** A window ending at right and starting before left is longer than the best already found. */
  lemma BestSkips<T>(hay: seq<T>, need: set<T>, best: Option<Window>, left: nat, right: nat)
    requires Best(hay, need, best, 0, right)
    requires left > 0 ==> best.Some? && best.value.end - best.value.start <= right - left
    ensures Best(hay, need, best, left, right)
  {
  }

  function Better(best: Option<Window>, w: Window): Option<Window> {
    if best.None? || w.end - w.start < best.value.end - best.value.start then Some(w) else best
  }

  lemma BestTakes<T>(hay: seq<T>, need: set<T>, best: Option<Window>, left: nat, right: nat)
    requires Best(hay, need, best, left, right)
    requires left <= right < |hay| && need != {} && |Held(hay, need, left, right + 1)| == |need|
    ensures Best(hay, need, Better(best, Window(left, right)), left + 1, right)
  {
    AllHeld(hay, need, left, right + 1);
    assert Covers(hay, need, Window(left, right));
  }

  /** Once the stretch no longer holds every needle, no later start does either. */
  lemma BestCloses<T>(hay: seq<T>, need: set<T>, best: Option<Window>, left: nat, right: nat)
    requires Best(hay, need, best, left, right)
    requires left <= right + 1 <= |hay| && |Held(hay, need, left, right + 1)| < |need|
    ensures Best(hay, need, best, 0, right + 1)
  {
    forall v | Covers(hay, need, v) && v.end == right ensures v.start < left {
      if left <= v.start {
        Wider(hay, need, left, v);
      }
    }
  }

  lemma BestIsMin<T>(hay: seq<T>, need: set<T>, best: Option<Window>)
    requires need != {} && Best(hay, need, best, 0, |hay|)
    ensures best.Some? ==> IsMinWindow(hay, need, best.value)
    ensures best.None? <==> exists n :: n in need && n !in hay
  {
    if best.Some? {
      forall n | n in need ensures n in hay {
        assert n in hay[best.value.start..best.value.end + 1];
      }
    } else if hay == [] {
      var n :| n in need;
      assert n !in hay;
    } else {
      assert hay[0..|hay|] == hay;
      assert !Covers(hay, need, Window(0, |hay| - 1));
    }
  }

  /** The scan between tokens: hay[..right] is done, and no stretch from left covers. */
  ghost predicate Between<T>(hay: seq<T>, need: set<T>, have: map<T, int>, covered: nat, left: nat, right: nat,
                             best: Option<Window>) {
    && left <= right <= |hay| && need != {}
    && Counts(hay, need, have, left, right)
    && covered == |Held(hay, need, left, right)| < |need|
    && Best(hay, need, best, 0, right)
    && (left > 0 ==> best.Some? && best.value.end - best.value.start <= right - left)
  }

  /** The scan at token right, dropping tokens from the left while the stretch covers. */
  ghost predicate At<T>(hay: seq<T>, need: set<T>, have: map<T, int>, covered: nat, left: nat, right: nat,
                        best: Option<Window>) {
    && left <= right + 1 <= |hay| && need != {}
    && Counts(hay, need, have, left, right + 1)
    && covered == |Held(hay, need, left, right + 1)| <= |need|
    && Best(hay, need, best, left, right)
    && (left > 0 ==> best.Some? && best.value.end - best.value.start <= right + 1 - left)
  }

  function Added<T(==)>(need: set<T>, have: map<T, int>, t: T, step: int): map<T, int> {
    if t in need then have[t := Count(have, t) + step] else have
  }

  lemma ScanStarts<T>(hay: seq<T>, need: set<T>)
    requires need != {}
    ensures Between(hay, need, map[], 0, 0, 0, None)
  {
    assert Held(hay, need, 0, 0) == {};
  }

  lemma ScanTakes<T>(hay: seq<T>, need: set<T>, have: map<T, int>, covered: nat, left: nat, right: nat,
                     best: Option<Window>)
    requires right < |hay| && Between(hay, need, have, covered, left, right, best)
    ensures var t := hay[right];
            At(hay, need, Added(need, have, t, 1),
               covered + (if t in need && Count(have, t) == 0 then 1 else 0), left, right, best)
  {
    hide Counts;
    hide Best;
    hide Held;
    TakeRight(hay, need, have, left, right);
    AllHeld(hay, need, left, right + 1);
    BestSkips(hay, need, best, left, right);
  }

  lemma ScanDrops<T>(hay: seq<T>, need: set<T>, have: map<T, int>, covered: nat, left: nat, right: nat,
                     best: Option<Window>)
    requires right < |hay| && covered == |need| && At(hay, need, have, covered, left, right, best)
    ensures left <= right
    ensures var t := hay[left]; var last := t in need && Count(have, t) == 1;
            && (last ==> covered > 0)
            && At(hay, need, Added(need, have, t, -1), if last then covered - 1 else covered,
                  left + 1, right, Better(best, Window(left, right)))
  {
    hide Counts;
    hide Best;
    hide Held;
    HeldNothing(hay, need, right + 1);
    BestTakes(hay, need, best, left, right);
    DropLeft(hay, need, have, left, right + 1);
    AllHeld(hay, need, left + 1, right + 1);
  }

  lemma ScanCloses<T>(hay: seq<T>, need: set<T>, have: map<T, int>, covered: nat, left: nat, right: nat,
                      best: Option<Window>)
    requires right < |hay| && covered != |need| && At(hay, need, have, covered, left, right, best)
    ensures Between(hay, need, have, covered, left, right + 1, best)
  {
    hide Counts;
    hide Best;
    hide Held;
    BestCloses(hay, need, best, left, right);
  }

  /** None when there is no needle or one is missing; otherwise the earliest-ending of the
      shortest windows holding every needle. Repeated needles count once. */
  method MinWindow<T(==)>(hay: seq<T>, needles: seq<T>) returns (best: Option<Window>)
    ensures best.None? <==> needles == [] || exists n :: n in needles && n !in hay
    ensures best.Some? ==> IsMinWindow(hay, Elements(needles), best.value)
  {
    hide Between;
    hide At;
    hide IsMinWindow;
    hide Best;
    var need := Elements(needles);
    best := None;
    if need == {} {
      ElementsEmpty(needles);
      return;
    }
    var have: map<T, int> := map[];
    var covered: nat, left: nat := 0, 0;
    ElementsEmpty(needles);
    ScanStarts(hay, need);
    for right: nat := 0 to |hay|
      invariant left <= right
      invariant Between(hay, need, have, covered, left, right, best)
    {
      var tok := hay[right];
      ScanTakes(hay, need, have, covered, left, right, best);
      if tok in need {
        have := have[tok := Count(have, tok) + 1];
        if have[tok] == 1 {
          covered := covered + 1;
        }
      }
      while covered == |need|
        invariant left <= right + 1 && At(hay, need, have, covered, left, right, best)
        decreases right + 1 - left
      {
        ScanDrops(hay, need, have, covered, left, right, best);
        if best.None? || right - left < best.value.end - best.value.start {
          best := Some(Window(left, right));
        }
        var lt := hay[left];
        if lt in need {
          have := have[lt := Count(have, lt) - 1];
          if have[lt] == 0 {
            covered := covered - 1;
          }
        }
        left := left + 1;
      }
      ScanCloses(hay, need, have, covered, left, right, best);
    }
    ScanEnds(hay, need, have, covered, left, best);
  }

  lemma ScanEnds<T>(hay: seq<T>, need: set<T>, have: map<T, int>, covered: nat, left: nat, best: Option<Window>)
    requires Between(hay, need, have, covered, left, |hay|, best)
    ensures best.Some? ==> IsMinWindow(hay, need, best.value)
    ensures best.None? <==> exists n :: n in need && n !in hay
  {
    BestIsMin(hay, need, best);
  }

  lemma HeldNothing<T>(hay: seq<T>, need: set<T>, at: nat)
    requires at <= |hay|
    ensures Held(hay, need, at, at) == {}
  {
  }
}
