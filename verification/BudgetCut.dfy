/** Cutting an oversized chunk into pieces within a token budget (src/doc-pipeline/pipeline.py,
    _cut_to_budget and split_oversized_chunks). The token counter is any function on strings. */
module BudgetCut {
  import opened Options
  import opened Text

  type Counter = string -> nat

  // ------------------------------------------------------------------ one cut

  /** The last place before end where c stands (str.rfind). */
  function RFind(s: string, c: char, end: nat): (found: Option<nat>)
    ensures found.None? ==> forall i | 0 <= i < end && i < |s| :: s[i] != c
    ensures found.Some? ==> found.value < end && found.value < |s| && s[found.value] == c
    ensures found.Some? ==> forall i | found.value < i < end && i < |s| :: s[i] != c
  {
    if end == 0 then None
    else if end - 1 < |s| && s[end - 1] == c then Some(end - 1)
    else RFind(s, c, end - 1)
  }

  predicate Good(at: Option<nat>, lo: nat) {
    at.Some? && at.value > lo / 4
  }

  /** Where a piece of up to lo characters ends: the last line break, else the last space, in its
      last three quarters, else lo. */
  function CutAt(text: string, lo: nat): (cut: nat)
    ensures cut <= lo && (lo > 0 ==> lo / 4 < cut)
  {
    var line, space := RFind(text, '\n', lo + 1), RFind(text, ' ', lo + 1);
    if Good(line, lo) then line.value else if Good(space, lo) then space.value else lo
  }

  /** c stands somewhere after a quarter of lo, up to lo itself. */
  predicate Offers(text: string, lo: nat, c: char) {
    exists i: nat | i < |text| :: lo / 4 < i <= lo && text[i] == c
  }

  predicate EndsAtLast(text: string, lo: nat, c: char, cut: nat) {
    && cut < |text| && text[cut] == c
    && forall i: nat | cut < i <= lo && i < |text| :: text[i] != c
  }

  /** The cut is at the last line break on offer, failing that at the last space on offer, and
      through a word only when there is neither. */
  lemma CutAtBoundary(text: string, lo: nat)
    requires lo <= |text|
    ensures Offers(text, lo, '\n') ==> EndsAtLast(text, lo, '\n', CutAt(text, lo))
    ensures !Offers(text, lo, '\n') && Offers(text, lo, ' ') ==> EndsAtLast(text, lo, ' ', CutAt(text, lo))
    ensures !Offers(text, lo, '\n') && !Offers(text, lo, ' ') ==> CutAt(text, lo) == lo
  {
    var line, space := RFind(text, '\n', lo + 1), RFind(text, ' ', lo + 1);
    assert Good(line, lo) ==> text[line.value] == '\n';
    assert Good(space, lo) ==> text[space.value] == ' ';
  }

  /** What the binary search finds: a prefix within the budget (or one character) that one more
      character takes out of it. */
  predicate Edge(text: string, max: nat, count: Counter, lo: nat) {
    && 1 <= lo <= |text|
    && (lo == 1 || count(text[..lo]) <= max)
    && (lo < |text| ==> count(text[..lo + 1]) > max)
  }

  function Rest(text: string, cut: nat): string
    requires cut <= |text|
  {
    StripLeft(text[cut..])
  }

  /** pieces is a cutting of text. */
  ghost predicate Cutting(text: string, max: nat, count: Counter, pieces: seq<string>)
    decreases |pieces|
  {
    if text == [] then pieces == []
    else if count(text) <= max then pieces == [text]
    else
      && pieces != []
      && (exists lo | Edge(text, max, count, lo) :: First(text, lo, pieces[0]))
      && |pieces[0]| <= |text|
      && Cutting(Rest(text, |pieces[0]|), max, count, pieces[1..])
  }

  predicate First(text: string, lo: nat, piece: string) {
    lo <= |text| && piece == text[..CutAt(text, lo)]
  }

  lemma {:induction false} StripLeftShorter(s: string)
    ensures |StripLeft(s)| <= |s|
    ensures StripLeft(s) != [] ==> !Is(Space, StripLeft(s)[0])
  {
    if s == [] || !Is(Space, s[0]) {
    } else {
      StripLeftShorter(s[1..]);
    }
  }

  method LongestPrefix(text: string, max: nat, count: Counter) returns (lo: nat)
    requires text != [] && count(text) > max
    ensures Edge(text, max, count, lo)
  {
    var hi := |text|;
    lo := 1;
    while lo < hi
      invariant 1 <= lo <= hi <= |text|
      invariant lo == 1 || count(text[..lo]) <= max
      invariant hi < |text| ==> count(text[..hi + 1]) > max
    {
      var mid := (lo + hi + 1) / 2;
      if count(text[..mid]) <= max {
        lo := mid;
      } else {
        hi := mid - 1;
      }
    }
  }

  lemma CutsOne(text: string, max: nat, count: Counter, lo: nat, pieces: seq<string>)
    requires count(text) > max && Edge(text, max, count, lo)
    requires Cutting(Rest(text, CutAt(text, lo)), max, count, pieces)
    ensures Cutting(text, max, count, [text[..CutAt(text, lo)]] + pieces)
  {
    hide CutAt;
    var all := [text[..CutAt(text, lo)]] + pieces;
    assert all[1..] == pieces && First(text, lo, all[0]);
  }

  /** _cut_to_budget, for any counter and any budget. */
  method CutToBudget(text: string, max: nat, count: Counter) returns (pieces: seq<string>)
    ensures Cutting(text, max, count, pieces)
  {
    hide Edge;
    hide CutAt;
    hide Rest;
    var rest := text;
    pieces := [];
    assert forall ps: seq<string> :: pieces + ps == ps;
    while rest != [] && count(rest) > max
      invariant forall ps | Cutting(rest, max, count, ps) :: Cutting(text, max, count, pieces + ps)
      decreases |rest|
    {
      var lo := LongestPrefix(rest, max, count);
      var cut := lo;
      var line := RFind(rest, '\n', lo + 1);
      if Good(line, lo) {
        cut := line.value;
      } else {
        var space := RFind(rest, ' ', lo + 1);
        if Good(space, lo) {
          cut := space.value;
        }
      }
      CutIs(rest, max, count, lo);
      ghost var before, done := rest, pieces;
      pieces := pieces + [rest[..cut]];
      rest := StripLeft(rest[cut..]);
      forall ps | Cutting(rest, max, count, ps) ensures Cutting(text, max, count, pieces + ps) {
        CutsOne(before, max, count, lo, ps);
        assert pieces + ps == done + ([before[..cut]] + ps);
      }
    }
    ghost var end := if rest == [] then [] else [rest];
    assert Cutting(rest, max, count, end);
    assert pieces + [] == pieces;
    if rest != [] {
      pieces := pieces + [rest];
    }
  }

  lemma CutIs(text: string, max: nat, count: Counter, lo: nat)
    requires Edge(text, max, count, lo)
    ensures lo <= |text| && 0 < CutAt(text, lo) <= lo
    ensures var line, space := RFind(text, '\n', lo + 1), RFind(text, ' ', lo + 1);
            CutAt(text, lo) == if Good(line, lo) then line.value else if Good(space, lo) then space.value else lo
    ensures var cut := CutAt(text, lo); Rest(text, cut) == StripLeft(text[cut..]) && |Rest(text, cut)| < |text|
  {
    StripLeftShorter(text[CutAt(text, lo)..]);
  }

  // ------------------------------------------------------------------ what a cutting keeps

  predicate Blank(s: string) {
    forall i | 0 <= i < |s| :: Is(Space, s[i])
  }

  /** The pieces, each followed by its gap. */
  function Interleaved(pieces: seq<string>, gaps: seq<string>): string
    requires |pieces| == |gaps|
  {
    if pieces == [] then [] else pieces[0] + gaps[0] + Interleaved(pieces[1..], gaps[1..])
  }

  lemma {:induction false} StripLeftDropsBlank(s: string) returns (gap: string)
    ensures Blank(gap) && s == gap + StripLeft(s)
  {
    if s != [] && Is(Space, s[0]) {
      var g := StripLeftDropsBlank(s[1..]);
      gap := [s[0]] + g;
    } else {
      gap := [];
    }
  }

  /** The first step of a cutting of an oversized text. */
  lemma Cut(text: string, max: nat, count: Counter, pieces: seq<string>) returns (lo: nat)
    requires Cutting(text, max, count, pieces) && text != [] && count(text) > max
    ensures Edge(text, max, count, lo) && pieces != [] && pieces[0] == text[..CutAt(text, lo)]
    ensures 0 < |pieces[0]| <= lo <= |text| && lo / 4 < |pieces[0]|
    ensures Cutting(Rest(text, |pieces[0]|), max, count, pieces[1..])
  {
    hide CutAt;
    lo :| Edge(text, max, count, lo) && First(text, lo, pieces[0]);
  }

  ghost predicate AllBlank(gaps: seq<string>) {
    forall i | 0 <= i < |gaps| :: Blank(gaps[i])
  }

  /** Nothing but white space right after a piece is dropped. */
  lemma {:induction false} CuttingRebuilds(text: string, max: nat, count: Counter, pieces: seq<string>)
    returns (gaps: seq<string>)
    requires Cutting(text, max, count, pieces)
    ensures |gaps| == |pieces| && AllBlank(gaps) && Interleaved(pieces, gaps) == text
    decreases |pieces|
  {
    if text == [] {
      gaps := [];
    } else if count(text) <= max {
      gaps := [[]];
      assert Interleaved(pieces[1..], gaps[1..]) == [];
    } else {
      var lo := Cut(text, max, count, pieces);
      hide *;
      var p := pieces[0];
      var gap := RestGap(text, |p|);
      var more := CuttingRebuilds(Rest(text, |p|), max, count, pieces[1..]);
      gaps := [gap] + more;
      assert p == text[..|p|];
      InterleavedMore(p, gap, pieces[1..], more);
      assert pieces == [p] + pieces[1..];
    }
  }

  lemma RestGap(text: string, cut: nat) returns (gap: string)
    requires cut <= |text|
    ensures Blank(gap) && text == text[..cut] + (gap + Rest(text, cut))
  {
    gap := StripLeftDropsBlank(text[cut..]);
  }

  lemma {:induction false} NoEmptyPiece(text: string, max: nat, count: Counter, pieces: seq<string>)
    requires Cutting(text, max, count, pieces)
    ensures [] !in pieces
    decreases |pieces|
  {
    if text == [] || count(text) <= max {
    } else {
      var lo := Cut(text, max, count, pieces);
      hide *;
      NoEmptyPiece(Rest(text, |pieces[0]|), max, count, pieces[1..]);
      assert pieces == [pieces[0]] + pieces[1..];
    }
  }

  lemma InterleavedMore(p: string, gap: string, pieces: seq<string>, gaps: seq<string>)
    requires |pieces| == |gaps|
    ensures Interleaved([p] + pieces, [gap] + gaps) == p + (gap + Interleaved(pieces, gaps))
    ensures Blank(gap) && AllBlank(gaps) ==> AllBlank([gap] + gaps)
  {
    assert ([p] + pieces)[1..] == pieces && ([gap] + gaps)[1..] == gaps;
  }

  // ------------------------------------------------------------------ the budget

  /** A longer text never counts for less. */
  ghost predicate PrefixMonotone(count: Counter) {
    forall s: string, n: nat, m: nat | n <= m <= |s| :: count(s[..n]) <= count(s[..m])
  }

  ghost predicate SubstringMonotone(count: Counter) {
    forall s: string, n: nat, m: nat | n <= m <= |s| :: count(s[n..m]) <= count(s)
  }

  lemma PrefixGrows(count: Counter, s: string, n: nat, m: nat)
    requires PrefixMonotone(count) && n <= m <= |s|
    ensures count(s[..n]) <= count(s[..m])
  {
  }

  /** With such a counter the search's answer is the longest prefix within the budget. */
  lemma EdgeIsLongest(text: string, max: nat, count: Counter, lo: nat, n: nat)
    requires PrefixMonotone(count) && Edge(text, max, count, lo)
    requires n <= |text| && count(text[..n]) <= max
    ensures n <= lo
  {
  }

  /** Every piece is within the budget or a single character that is not. */
  lemma {:induction false} CuttingFits(text: string, max: nat, count: Counter, pieces: seq<string>, k: nat)
    requires PrefixMonotone(count) && Cutting(text, max, count, pieces) && k < |pieces|
    ensures count(pieces[k]) <= max || |pieces[k]| == 1
    decreases |pieces|
  {
    if text == [] || count(text) <= max {
    } else {
      var lo := Cut(text, max, count, pieces);
      if k == 0 {
        PrefixGrows(count, text, |pieces[0]|, lo);
      } else {
        hide Cutting;
        CuttingFits(Rest(text, |pieces[0]|), max, count, pieces[1..], k - 1);
      }
    }
  }

  /** A piece is within the budget exactly when its first character is, so all are if each character
      of the text is on its own. */
  lemma AllFitsIfCharsDo(text: string, max: nat, count: Counter, pieces: seq<string>)
    requires PrefixMonotone(count) && Cutting(text, max, count, pieces)
    ensures forall k | 0 <= k < |pieces| ::
              pieces[k] != [] && (count(pieces[k]) <= max <==> count(pieces[k][..1]) <= max)
    ensures (forall c | c in text :: count([c]) <= max) ==> AllFit(max, count, pieces)
  {
    NoEmptyPiece(text, max, count, pieces);
    forall k | 0 <= k < |pieces|
      ensures pieces[k] != [] && (count(pieces[k]) <= max <==> count(pieces[k][..1]) <= max)
      ensures pieces[k][0] in text && pieces[k][..1] == [pieces[k][0]]
    {
      var p := pieces[k];
      assert p in pieces;
      PieceStartsInText(text, max, count, pieces, k);
      CuttingFits(text, max, count, pieces, k);
      assert p[..|p|] == p;
      PrefixGrows(count, p, 1, |p|);
    }
  }

  lemma {:induction false} PieceStartsInText(text: string, max: nat, count: Counter, pieces: seq<string>, k: nat)
    requires Cutting(text, max, count, pieces) && k < |pieces| && pieces[k] != []
    ensures pieces[k][0] in text
    decreases |pieces|
  {
    if text == [] || count(text) <= max {
    } else {
      var lo := Cut(text, max, count, pieces);
      if k > 0 {
        hide *;
        var cut := |pieces[0]|;
        PieceStartsInText(Rest(text, cut), max, count, pieces[1..], k - 1);
        var gap := RestGap(text, cut);
        assert forall c | c in Rest(text, cut) :: c in text[..cut] + (gap + Rest(text, cut));
      }
    }
  }

  /** The text left before piece k. */
  function Left(text: string, pieces: seq<string>, k: nat): string
    requires k <= |pieces|
    decreases k
  {
    if k == 0 then text
    else if |pieces[0]| > |text| then []
    else Left(Rest(text, |pieces[0]|), pieces[1..], k - 1)
  }

  /** A piece that is not the last starts the text left, and is longer than a quarter of the
      longest prefix of it within the budget. */
  lemma {:induction false} PieceIsLong(text: string, max: nat, count: Counter, pieces: seq<string>, k: nat, n: nat)
    requires PrefixMonotone(count) && Cutting(text, max, count, pieces) && k + 1 < |pieces|
    requires var left := Left(text, pieces, k); n <= |left| && count(left[..n]) <= max
    ensures pieces[k] <= Left(text, pieces, k)
    ensures n / 4 < |pieces[k]|
    decreases |pieces|
  {
    var lo := Cut(text, max, count, pieces);
    if k == 0 {
      EdgeIsLongest(text, max, count, lo, n);
    } else {
      hide Cutting;
      hide Edge;
      PieceIsLong(Rest(text, |pieces[0]|), max, count, pieces[1..], k - 1, n);
    }
  }

  // ------------------------------------------------------------------ exactly when every piece fits

  /** A character that can only end up in a piece: not white space, or the first one. */
  predicate Stays(text: string, i: nat)
    requires i < |text|
  {
    i == 0 || !Is(Space, text[i])
  }

  ghost predicate CharsFit(text: string, max: nat, count: Counter) {
    forall i: nat | i < |text| && Stays(text, i) :: count([text[i]]) <= max
  }

  ghost predicate AllFit(max: nat, count: Counter, pieces: seq<string>) {
    forall k | 0 <= k < |pieces| :: count(pieces[k]) <= max
  }

  lemma CharFits(count: Counter, s: string, i: nat)
    requires SubstringMonotone(count) && i < |s|
    ensures count([s[i]]) <= count(s)
  {
    assert s[i..i + 1] == [s[i]];
  }

  lemma PrefixFits(count: Counter, s: string, n: nat, m: nat)
    requires SubstringMonotone(count) && n <= m <= |s|
    ensures count(s[..n]) <= count(s[..m])
  {
    assert s[..m][0..n] == s[..n];
  }

  /** The characters of what is left come from the text. */
  lemma RestChars(text: string, cut: nat, i: nat)
    requires cut <= |text| && i < |Rest(text, cut)| && Stays(Rest(text, cut), i)
    ensures exists j: nat :: j < |text| && Stays(text, j) && text[j] == Rest(text, cut)[i]
  {
    var gap := StripLeftDropsBlank(text[cut..]);
    StripLeftShorter(text[cut..]);
    var j := cut + |gap| + i;
    assert text[cut..][|gap| + i] == Rest(text, cut)[i];
    assert text[j] == Rest(text, cut)[i];
  }

  lemma RestCharsFit(text: string, max: nat, count: Counter, cut: nat)
    requires cut <= |text| && CharsFit(text, max, count)
    ensures CharsFit(Rest(text, cut), max, count)
  {
    forall i: nat | i < |Rest(text, cut)| && Stays(Rest(text, cut), i)
      ensures count([Rest(text, cut)[i]]) <= max
    {
      RestChars(text, cut, i);
    }
  }

  /** A character that stays is in the first piece or stays in what is left. */
  lemma CharGoesOn(text: string, cut: nat, i: nat) returns (j: nat)
    requires cut <= i < |text| && Stays(text, i) && 0 < cut
    ensures j < |Rest(text, cut)| && Stays(Rest(text, cut), j) && Rest(text, cut)[j] == text[i]
  {
    var gap := StripLeftDropsBlank(text[cut..]);
    assert text[cut..][i - cut] == text[i];
    assert forall m | 0 <= m < |gap| :: text[cut..][m] == gap[m];
    j := i - cut - |gap|;
  }

  lemma {:induction false} FitsIfCharsFit(text: string, max: nat, count: Counter, pieces: seq<string>)
    requires SubstringMonotone(count) && Cutting(text, max, count, pieces) && CharsFit(text, max, count)
    ensures AllFit(max, count, pieces)
    decreases |pieces|
  {
    if text == [] || count(text) <= max {
    } else {
      var lo := Cut(text, max, count, pieces);
      hide Cutting;
      hide CutAt;
      var p := pieces[0];
      PrefixFits(count, text, |p|, lo);
      assert lo == 1 ==> text[..1] == [text[0]] && Stays(text, 0);
      RestCharsFit(text, max, count, |p|);
      hide CharsFit;
      hide SubstringMonotone;
      hide Edge;
      FitsIfCharsFit(Rest(text, |p|), max, count, pieces[1..]);
      assert forall k | 0 < k < |pieces| :: pieces[k] == pieces[1..][k - 1];
    }
  }

  lemma {:induction false} CharFitsIfPiecesDo(text: string, max: nat, count: Counter, pieces: seq<string>, i: nat)
    requires SubstringMonotone(count) && Cutting(text, max, count, pieces) && AllFit(max, count, pieces)
    requires i < |text| && Stays(text, i)
    ensures count([text[i]]) <= max
    decreases |pieces|
  {
    if count(text) <= max {
      CharFits(count, text, i);
    } else {
      var lo := Cut(text, max, count, pieces);
      hide Cutting;
      hide CutAt;
      hide Edge;
      var p := pieces[0];
      if i < |p| {
        CharFits(count, p, i);
      } else {
        var j := CharGoesOn(text, |p|, i);
        hide SubstringMonotone;
        CharFitsIfPiecesDo(Rest(text, |p|), max, count, pieces[1..], j);
      }
    }
  }

  /** Every piece is within the budget exactly when every character that must stay in a piece is,
      on its own. */
  lemma AllFitIff(text: string, max: nat, count: Counter, pieces: seq<string>)
    requires SubstringMonotone(count) && Cutting(text, max, count, pieces)
    ensures AllFit(max, count, pieces) <==> CharsFit(text, max, count)
  {
    if CharsFit(text, max, count) {
      FitsIfCharsFit(text, max, count, pieces);
    }
    if AllFit(max, count, pieces) {
      forall i: nat | i < |text| && Stays(text, i) ensures count([text[i]]) <= max {
        CharFitsIfPiecesDo(text, max, count, pieces, i);
      }
    }
  }

  // ------------------------------------------------------------------ a list of chunks

  function Flat(parts: seq<seq<string>>): seq<string> {
    if parts == [] then [] else Flat(parts[..|parts| - 1]) + parts[|parts| - 1]
  }

  /** What becomes of one chunk: kept as it is when it fits, cut when it does not. */
  ghost predicate Handled(chunk: string, max: nat, count: Counter, part: seq<string>) {
    if count(chunk) <= max then part == [chunk] else Cutting(chunk, max, count, part)
  }

  ghost predicate HandledAll(chunks: seq<string>, max: nat, count: Counter, parts: seq<seq<string>>) {
    && |parts| == |chunks|
    && forall i | 0 <= i < |chunks| :: Handled(chunks[i], max, count, parts[i])
  }

  ghost predicate Split(chunks: seq<string>, max: nat, count: Counter, result: seq<string>) {
    exists parts :: HandledAll(chunks, max, count, parts) && result == Flat(parts)
  }

  /** split_oversized_chunks: a budget under one token is one token. */
  method SplitOversizedChunks(chunks: seq<string>, maxTokens: int, count: Counter) returns (result: seq<string>)
    ensures maxTokens >= 1 ==> Split(chunks, maxTokens, count, result)
    ensures maxTokens < 1 ==> Split(chunks, 1, count, result)
  {
    hide Handled;
    var max := if maxTokens < 1 then 1 else maxTokens;
    result := [];
    ghost var parts := [];
    for i := 0 to |chunks|
      invariant HandledAll(chunks[..i], max, count, parts)
      invariant result == Flat(parts)
    {
      var pieces;
      if count(chunks[i]) <= max {
        pieces := [chunks[i]];
      } else {
        pieces := CutToBudget(chunks[i], max, count);
      }
      HandledBy(chunks[i], max, count, pieces);
      assert (parts + [pieces])[..|parts|] == parts;
      parts := parts + [pieces];
      result := result + pieces;
    }
    assert chunks[..|chunks|] == chunks;
  }

  lemma HandledBy(chunk: string, max: nat, count: Counter, part: seq<string>)
    requires if count(chunk) <= max then part == [chunk] else Cutting(chunk, max, count, part)
    ensures Handled(chunk, max, count, part)
  {
  }

  lemma {:induction false} FlatMember(parts: seq<seq<string>>, p: string) returns (i: nat)
    requires p in Flat(parts)
    ensures i < |parts| && p in parts[i]
  {
    var n := |parts| - 1;
    if p in parts[n] {
      i := n;
    } else {
      i := FlatMember(parts[..n], p);
    }
  }

  lemma {:induction false} FlatSingles(parts: seq<seq<string>>, chunks: seq<string>)
    requires |parts| == |chunks| && forall i | 0 <= i < |chunks| :: parts[i] == [chunks[i]]
    ensures Flat(parts) == chunks
  {
    if parts == [] {
    } else {
      var n := |parts| - 1;
      FlatSingles(parts[..n], chunks[..n]);
      assert chunks == chunks[..n] + [chunks[n]];
    }
  }

  /** A lone character over the budget is its own only cutting. */
  lemma LoneCharacter(text: string, max: nat, count: Counter, pieces: seq<string>)
    requires |text| == 1 && count(text) > max && Cutting(text, max, count, pieces)
    ensures pieces == [text]
  {
    var lo := Cut(text, max, count, pieces);
    hide Edge;
    hide CutAt;
    assert text[..1] == text && Rest(text, 1) == [];
    assert pieces == [pieces[0]] + pieces[1..];
  }

  lemma SplitPieceStays(chunks: seq<string>, max: nat, count: Counter, result: seq<string>, p: string,
                        part: seq<string>)
    requires PrefixMonotone(count) && Split(chunks, max, count, result) && p in result
    requires Handled(p, max, count, part)
    ensures part == [p]
  {
    hide Cutting;
    var parts :| HandledAll(chunks, max, count, parts) && result == Flat(parts);
    var i := FlatMember(parts, p);
    if count(p) > max {
      var k :| 0 <= k < |parts[i]| && parts[i][k] == p;
      CuttingFits(chunks[i], max, count, parts[i], k);
      LoneCharacter(p, max, count, part);
    }
  }

  /** Splitting what was split changes nothing, even where one character alone is over budget. */
  lemma SplitIsIdempotent(chunks: seq<string>, max: nat, count: Counter, once: seq<string>, twice: seq<string>)
    requires PrefixMonotone(count)
    requires Split(chunks, max, count, once) && Split(once, max, count, twice)
    ensures twice == once
  {
    var parts :| HandledAll(once, max, count, parts) && twice == Flat(parts);
    hide PrefixMonotone;
    hide Handled;
    forall i | 0 <= i < |once| ensures parts[i] == [once[i]] {
      SplitPieceStays(chunks, max, count, once, once[i], parts[i]);
    }
    FlatSingles(parts, once);
  }
}
