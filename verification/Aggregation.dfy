/** Aggregating the records of an A/B run (examples/benchmark/run_ab.py). Numbers are exact reals:
    this is before any rounding. */
module Aggregation {
  import opened Options
  import opened Seqs

  // ------------------------------------------------------------------ records and buckets

  datatype Arm = Arm(prompt: nat, completion: nat, cost: real, billed: bool, cacheHit: bool,
                     cacheRead: Option<nat>, cacheWrite: Option<nat>)

  datatype Record = Record(provider: string, slice: string, profile: string, item: string, repeated: bool,
                           a: Arm, b: Arm, graded: bool, passed: bool)

  datatype Key = Key(profile: string, item: string)

  datatype Field =
    | APrompt | ACompletion | ACost | ACalls | BPrompt | BCompletion | BCost | BCalls
    | CacheHits | FactsChecked | FactsRegressed
    | ACacheRead | ACacheWrite | ACacheCalls | BCacheRead | BCacheWrite
    | ACacheReadN | ACacheWriteN | BCacheReadN | BCacheWriteN

  type Sums = map<Field, real>
  datatype Bucket = Bucket(sums: Sums, graded: set<Key>)

  function At(sums: Sums, f: Field): real {
    if f in sums then sums[f] else 0.0
  }

  const BLANK := Bucket(map[], {})

  function KeyOf(rec: Record): Key {
    Key(rec.profile, rec.item)
  }

  // ------------------------------------------------------------------ what one record adds

  function Amount(v: Option<nat>): real {
    if v.Some? then v.value as real else 0.0
  }

  function One(b: bool): real {
    if b then 1.0 else 0.0
  }

  /** What the record adds to a field; counts says whether its verdict is a new one. */
  function Gain(f: Field, rec: Record, counts: bool): real {
    match f
    case APrompt => rec.a.prompt as real
    case ACompletion => rec.a.completion as real
    case ACost => rec.a.cost
    case ACalls => 1.0
    case BPrompt => rec.b.prompt as real
    case BCompletion => rec.b.completion as real
    case BCost => rec.b.cost
    case BCalls => 1.0
    case CacheHits => One(rec.b.cacheHit)
    case FactsChecked => One(rec.graded && counts)
    case FactsRegressed => One(rec.graded && counts && !rec.passed)
    case ACacheRead => if rec.a.billed then Amount(rec.a.cacheRead) else 0.0
    case ACacheWrite => if rec.a.billed then Amount(rec.a.cacheWrite) else 0.0
    case ACacheCalls => One(rec.a.billed)
    case BCacheRead => Amount(rec.b.cacheRead)
    case BCacheWrite => Amount(rec.b.cacheWrite)
    case ACacheReadN => One(rec.a.billed && rec.a.cacheRead.Some?)
    case ACacheWriteN => One(rec.a.billed && rec.a.cacheWrite.Some?)
    case BCacheReadN => One(rec.b.cacheRead.Some?)
    case BCacheWriteN => One(rec.b.cacheWrite.Some?)
  }

  /** A replay served from the cache whose item was graded before. */
  predicate Replays(rec: Record, seen: set<Key>) {
    rec.repeated && rec.b.cacheHit && KeyOf(rec) in seen
  }

  /** _count_verdict. */
  method CountVerdict(rec: Record, seen: set<Key>) returns (counts: bool, after: set<Key>)
    ensures counts <==> !Replays(rec, seen)
    ensures after == seen + {KeyOf(rec)}
  {
    var key := KeyOf(rec);
    if rec.repeated && rec.b.cacheHit && key in seen {
      assert seen + {key} == seen;
      return false, seen;
    }
    return true, seen + {key};
  }

  function Plus(sums: Sums, f: Field, x: real): Sums {
    sums[f := At(sums, f) + x]
  }

  /** r is sums but for the fields given. */
  ghost predicate Same(sums: Sums, r: Sums, but: set<Field>) {
    forall f | f !in but :: At(r, f) == At(sums, f)
  }

  method Add(sums: Sums, field: Field, x: real) returns (r: Sums)
    ensures At(r, field) == At(sums, field) + x && Same(sums, r, {field})
  {
    r := Plus(sums, field, x);
  }

  /** One half of an arm's cache counts; nothing at all when the provider did not report it. */
  method AddHalf(sums: Sums, total: Field, reported: Field, val: Option<nat>) returns (r: Sums)
    requires total != reported
    ensures At(r, total) == At(sums, total) + Amount(val) && At(r, reported) == At(sums, reported) + One(val.Some?)
    ensures Same(sums, r, {total, reported})
  {
    hide At;
    r := sums;
    if val.Some? {
      r := Add(r, reported, 1.0);
      if val.value != 0 {
        r := Add(r, total, val.value as real);
      }
    }
  }

  /** The cache counts of one arm. */
  method AddHalves(sums: Sums, read: Field, readN: Field, write: Field, writeN: Field, arm: Arm) returns (r: Sums)
    requires read != readN && read != write && read != writeN && readN != write && readN != writeN && write != writeN
    ensures At(r, read) == At(sums, read) + Amount(arm.cacheRead)
    ensures At(r, readN) == At(sums, readN) + One(arm.cacheRead.Some?)
    ensures At(r, write) == At(sums, write) + Amount(arm.cacheWrite)
    ensures At(r, writeN) == At(sums, writeN) + One(arm.cacheWrite.Some?)
    ensures Same(sums, r, {read, readN, write, writeN})
  {
    hide At;
    hide Amount;
    hide One;
    r := AddHalf(sums, read, readN, arm.cacheRead);
    r := AddHalf(r, write, writeN, arm.cacheWrite);
  }

  /** What every record adds to. */
  method AddCalls(sums: Sums, rec: Record) returns (r: Sums)
    ensures forall f | f in CALLS :: At(r, f) == At(sums, f) + Gain(f, rec, true)
    ensures Same(sums, r, CALLS)
  {
    r := sums;
    r := r[APrompt := At(sums, APrompt) + rec.a.prompt as real];
    r := r[ACompletion := At(sums, ACompletion) + rec.a.completion as real];
    r := r[ACost := At(sums, ACost) + rec.a.cost];
    r := r[ACalls := At(sums, ACalls) + 1.0];
    r := r[BPrompt := At(sums, BPrompt) + rec.b.prompt as real];
    r := r[BCompletion := At(sums, BCompletion) + rec.b.completion as real];
    r := r[BCost := At(sums, BCost) + rec.b.cost];
    r := r[BCalls := At(sums, BCalls) + 1.0];
  }

  const CALLS := {APrompt, ACompletion, ACost, ACalls, BPrompt, BCompletion, BCost, BCalls}
  const VERDICTS := {CacheHits, FactsChecked, FactsRegressed}

  const DIRECT_CACHES := {ACacheRead, ACacheWrite, ACacheCalls, ACacheReadN, ACacheWriteN}
  const PROXY_CACHES := {BCacheRead, BCacheWrite, BCacheReadN, BCacheWriteN}

  /** The direct arm's cache counts: only of calls that were really made. */
  method AddDirectCaches(sums: Sums, rec: Record) returns (r: Sums)
    ensures forall f | f in DIRECT_CACHES :: At(r, f) == At(sums, f) + Gain(f, rec, true)
    ensures Same(sums, r, DIRECT_CACHES)
  {
    hide At;
    hide Amount;
    r := sums;
    if rec.a.billed {
      r := Add(r, ACacheCalls, 1.0);
      r := AddHalves(r, ACacheRead, ACacheReadN, ACacheWrite, ACacheWriteN, rec.a);
    }
  }

  method AddProxyCaches(sums: Sums, rec: Record) returns (r: Sums)
    ensures forall f | f in PROXY_CACHES :: At(r, f) == At(sums, f) + Gain(f, rec, true)
    ensures Same(sums, r, PROXY_CACHES)
  {
    hide At;
    hide Amount;
    r := AddHalves(sums, BCacheRead, BCacheReadN, BCacheWrite, BCacheWriteN, rec.b);
  }

  method AddVerdict(sums: Sums, rec: Record, seen: set<Key>) returns (r: Sums, graded: set<Key>)
    ensures forall f | f in VERDICTS :: At(r, f) == At(sums, f) + Gain(f, rec, !Replays(rec, seen))
    ensures Same(sums, r, VERDICTS)
    ensures graded == seen + if rec.graded then {KeyOf(rec)} else {}
  {
    hide At;
    r, graded := sums, seen;
    if rec.b.cacheHit {
      r := Add(r, CacheHits, 1.0);
    }
    if rec.graded {
      var counts;
      counts, graded := CountVerdict(rec, seen);
      if counts {
        r := Add(r, FactsChecked, 1.0);
        if !rec.passed {
          r := Add(r, FactsRegressed, 1.0);
        }
      }
    }
  }

  lemma GainIgnores(f: Field, rec: Record, counts: bool)
    ensures f !in VERDICTS ==> Gain(f, rec, counts) == Gain(f, rec, true)
  {
  }

  lemma EveryField(f: Field)
    ensures f in CALLS || f in DIRECT_CACHES || f in PROXY_CACHES || f in VERDICTS
    ensures f in CALLS ==> f !in DIRECT_CACHES && f !in PROXY_CACHES && f !in VERDICTS
    ensures f in DIRECT_CACHES ==> f !in PROXY_CACHES && f !in VERDICTS
    ensures f in PROXY_CACHES ==> f !in VERDICTS
  {
  }

  /** _accumulate. */
  method Accumulate(bucket: Bucket, rec: Record) returns (r: Bucket)
    ensures Accumulated(bucket, rec, r)
  {
    hide *;
    var s1 := AddCalls(bucket.sums, rec);
    var s2 := AddDirectCaches(s1, rec);
    var s3 := AddProxyCaches(s2, rec);
    var s4, graded := AddVerdict(s3, rec, bucket.graded);
    r := Bucket(s4, graded);
    forall f ensures At(s4, f) == At(bucket.sums, f) + Gain(f, rec, !Replays(rec, bucket.graded)) {
      EveryField(f);
      SameAt(bucket.sums, s1, CALLS, f);
      SameAt(s1, s2, DIRECT_CACHES, f);
      SameAt(s2, s3, PROXY_CACHES, f);
      SameAt(s3, s4, VERDICTS, f);
      GainIgnores(f, rec, !Replays(rec, bucket.graded));
    }
    AccumulatedIs(bucket, rec, r);
  }

  /** Every field has grown by what the record adds, and its key is among the graded ones. */
  ghost predicate Accumulated(before: Bucket, rec: Record, after: Bucket) {
    && (forall f :: At(after.sums, f) == At(before.sums, f) + Gain(f, rec, !Replays(rec, before.graded)))
    && after.graded == before.graded + if rec.graded then {KeyOf(rec)} else {}
  }

  lemma AccumulatedIs(before: Bucket, rec: Record, after: Bucket)
    requires forall f :: At(after.sums, f) == At(before.sums, f) + Gain(f, rec, !Replays(rec, before.graded))
    requires after.graded == before.graded + if rec.graded then {KeyOf(rec)} else {}
    ensures Accumulated(before, rec, after)
  {
  }

  lemma SameAt(sums: Sums, r: Sums, but: set<Field>, f: Field)
    requires Same(sums, r, but)
    ensures f !in but ==> At(r, f) == At(sums, f)
  {
  }

  // ------------------------------------------------------------------ what a bucket holds

  /** Which records a bucket is fed: one slice, and possibly one provider and one profile of it. */
  datatype Scope = Scope(slice: string, provider: Option<string>, profile: Option<string>)

  predicate In(c: Scope, rec: Record) {
    && rec.slice == c.slice
    && (c.provider.Some? ==> rec.provider == c.provider.value)
    && (c.profile.Some? ==> rec.profile == c.profile.value)
  }

  /** The verdict of record k repeats that of an earlier graded record of the scope. */
  predicate Repeats(records: seq<Record>, c: Scope, k: nat)
    requires k < |records|
  {
    && records[k].repeated && records[k].b.cacheHit
    && exists j | 0 <= j < k :: In(c, records[j]) && records[j].graded && KeyOf(records[j]) == KeyOf(records[k])
  }

  /** What record k adds to a field of the scope. */
  function Adds(f: Field, records: seq<Record>, c: Scope, k: nat): real
    requires k < |records|
  {
    if In(c, records[k]) then Gain(f, records[k], !Repeats(records, c, k)) else 0.0
  }

  function Total(f: Field, records: seq<Record>, c: Scope, n: nat): real
    requires n <= |records|
  {
    if n == 0 then 0.0 else Total(f, records, c, n - 1) + Adds(f, records, c, n - 1)
  }

  function GradedKeys(records: seq<Record>, c: Scope, n: nat): set<Key>
    requires n <= |records|
  {
    set j | 0 <= j < n && In(c, records[j]) && records[j].graded :: KeyOf(records[j])
  }

  ghost predicate Holds(b: Bucket, records: seq<Record>, c: Scope, n: nat)
    requires n <= |records|
  {
    b.graded == GradedKeys(records, c, n) && forall f :: At(b.sums, f) == Total(f, records, c, n)
  }

  /** The scope has had a record. */
  predicate Fed(records: seq<Record>, c: Scope, n: nat)
    requires n <= |records|
  {
    exists j | 0 <= j < n :: In(c, records[j])
  }

  lemma BlankHolds(records: seq<Record>, c: Scope, n: nat)
    requires n <= |records| && !Fed(records, c, n)
    ensures Holds(BLANK, records, c, n)
  {
    forall f ensures Total(f, records, c, n) == 0.0 {
      NothingIn(f, records, c, n);
    }
  }

  lemma {:induction false} NothingIn(f: Field, records: seq<Record>, c: Scope, n: nat)
    requires n <= |records| && forall j | 0 <= j < n :: !In(c, records[j])
    ensures Total(f, records, c, n) == 0.0
  {
    if n == 0 {
    } else {
      NothingIn(f, records, c, n - 1);
    }
  }

  lemma ReplaysIsRepeats(records: seq<Record>, c: Scope, n: nat)
    requires n < |records|
    ensures Replays(records[n], GradedKeys(records, c, n)) <==> Repeats(records, c, n)
  {
  }

  lemma GradedGrows(records: seq<Record>, c: Scope, n: nat)
    requires n < |records|
    ensures GradedKeys(records, c, n + 1)
         == GradedKeys(records, c, n) + if In(c, records[n]) && records[n].graded then {KeyOf(records[n])} else {}
  {
  }

  lemma AccumulatedHolds(before: Bucket, b: Bucket, records: seq<Record>, c: Scope, n: nat)
    requires n < |records| && In(c, records[n]) && Holds(before, records, c, n)
    requires Accumulated(before, records[n], b)
    ensures Holds(b, records, c, n + 1)
  {
    hide At;
    hide Gain;
    hide Replays;
    hide Repeats;
    hide GradedKeys;
    ReplaysIsRepeats(records, c, n);
    GradedGrows(records, c, n);
  }

  lemma SkippedHolds(b: Bucket, records: seq<Record>, c: Scope, n: nat)
    requires n < |records| && !In(c, records[n]) && Holds(b, records, c, n)
    ensures Holds(b, records, c, n + 1)
  {
    hide At;
    hide Gain;
    GradedGrows(records, c, n);
  }

  // ------------------------------------------------------------------ what each field means

  /** The sum of an amount over the first n records that are in the scope. */
  function SumOver(records: seq<Record>, c: Scope, n: nat, amount: Record -> real): real
    requires n <= |records|
  {
    if n == 0 then 0.0
    else SumOver(records, c, n - 1, amount) + if In(c, records[n - 1]) then amount(records[n - 1]) else 0.0
  }

  /** Of the first n records, those that are in the scope and counted. */
  function Counted(records: seq<Record>, c: Scope, n: nat, counted: nat -> bool): set<int>
    requires n <= |records|
  {
    set k | 0 <= k < n && In(c, records[k]) && counted(k)
  }

  function CountOver(records: seq<Record>, c: Scope, n: nat, counted: nat -> bool): nat
    requires n <= |records|
  {
    |Counted(records, c, n, counted)|
  }

  lemma {:induction false} TotalIsSum(f: Field, records: seq<Record>, c: Scope, n: nat, amount: Record -> real)
    requires n <= |records| && forall rec, counts :: Gain(f, rec, counts) == amount(rec)
    ensures Total(f, records, c, n) == SumOver(records, c, n, amount)
  {
    if n == 0 {
    } else {
      TotalIsSum(f, records, c, n - 1, amount);
    }
  }

  lemma OneMoreCounted(records: seq<Record>, c: Scope, n: nat, counted: nat -> bool)
    requires 0 < n <= |records|
    ensures CountOver(records, c, n, counted)
         == CountOver(records, c, n - 1, counted) + if In(c, records[n - 1]) && counted(n - 1) then 1 else 0
  {
    hide In;
    assert Counted(records, c, n, counted)
        == Counted(records, c, n - 1, counted) + if In(c, records[n - 1]) && counted(n - 1) then {n - 1} else {};
  }

  lemma {:induction false} TotalIsCount(f: Field, records: seq<Record>, c: Scope, n: nat, counted: nat -> bool)
    requires n <= |records| && forall k: nat | k < |records| :: Gain(f, records[k], !Repeats(records, c, k)) == One(counted(k))
    ensures Total(f, records, c, n) == CountOver(records, c, n, counted) as real
  {
    hide Gain;
    hide Repeats;
    hide In;
    if n == 0 {
      assert Counted(records, c, n, counted) == {};
    } else {
      TotalIsCount(f, records, c, n - 1, counted);
      OneMoreCounted(records, c, n, counted);
      hide CountOver;
    }
  }

  /** Tokens and cost are those of all the scope's records, per arm, ... */
  lemma AmountsAre(records: seq<Record>, c: Scope, n: nat)
    requires n <= |records|
    ensures Total(APrompt, records, c, n) == SumOver(records, c, n, (r: Record) => r.a.prompt as real)
    ensures Total(ACompletion, records, c, n) == SumOver(records, c, n, (r: Record) => r.a.completion as real)
    ensures Total(ACost, records, c, n) == SumOver(records, c, n, (r: Record) => r.a.cost)
    ensures Total(BPrompt, records, c, n) == SumOver(records, c, n, (r: Record) => r.b.prompt as real)
    ensures Total(BCompletion, records, c, n) == SumOver(records, c, n, (r: Record) => r.b.completion as real)
    ensures Total(BCost, records, c, n) == SumOver(records, c, n, (r: Record) => r.b.cost)
  {
    hide Total;
    hide SumOver;
    TotalIsSum(APrompt, records, c, n, (r: Record) => r.a.prompt as real);
    TotalIsSum(ACompletion, records, c, n, (r: Record) => r.a.completion as real);
    TotalIsSum(ACost, records, c, n, (r: Record) => r.a.cost);
    TotalIsSum(BPrompt, records, c, n, (r: Record) => r.b.prompt as real);
    TotalIsSum(BCompletion, records, c, n, (r: Record) => r.b.completion as real);
    TotalIsSum(BCost, records, c, n, (r: Record) => r.b.cost);
  }

  /** ... and cache tokens those reported, of the direct arm's only by calls that were really made. */
  lemma CacheTokensAre(records: seq<Record>, c: Scope, n: nat)
    requires n <= |records|
    ensures Total(ACacheRead, records, c, n) == SumOver(records, c, n, (r: Record) =>
              if r.a.billed && r.a.cacheRead.Some? then r.a.cacheRead.value as real else 0.0)
    ensures Total(ACacheWrite, records, c, n) == SumOver(records, c, n, (r: Record) =>
              if r.a.billed && r.a.cacheWrite.Some? then r.a.cacheWrite.value as real else 0.0)
    ensures Total(BCacheRead, records, c, n) == SumOver(records, c, n, (r: Record) =>
              if r.b.cacheRead.Some? then r.b.cacheRead.value as real else 0.0)
    ensures Total(BCacheWrite, records, c, n) == SumOver(records, c, n, (r: Record) =>
              if r.b.cacheWrite.Some? then r.b.cacheWrite.value as real else 0.0)
  {
    hide Total;
    hide SumOver;
    TotalIsSum(ACacheRead, records, c, n, (r: Record) =>
      if r.a.billed && r.a.cacheRead.Some? then r.a.cacheRead.value as real else 0.0);
    TotalIsSum(ACacheWrite, records, c, n, (r: Record) =>
      if r.a.billed && r.a.cacheWrite.Some? then r.a.cacheWrite.value as real else 0.0);
    TotalIsSum(BCacheRead, records, c, n, (r: Record) =>
      if r.b.cacheRead.Some? then r.b.cacheRead.value as real else 0.0);
    TotalIsSum(BCacheWrite, records, c, n, (r: Record) =>
      if r.b.cacheWrite.Some? then r.b.cacheWrite.value as real else 0.0);
  }

  /** The other fields count records: each arm's calls and cache hits, ... */
  lemma CallsAre(records: seq<Record>, c: Scope, n: nat)
    requires n <= |records|
    ensures Total(ACalls, records, c, n) == Total(BCalls, records, c, n) == CountOver(records, c, n, k => true) as real
    ensures Total(CacheHits, records, c, n)
         == CountOver(records, c, n, (k: nat) => k < |records| && records[k].b.cacheHit) as real
    ensures Total(ACacheCalls, records, c, n)
         == CountOver(records, c, n, (k: nat) => k < |records| && records[k].a.billed) as real
  {
    hide Repeats;
    hide Total;
    hide CountOver;
    TotalIsCount(ACalls, records, c, n, k => true);
    TotalIsCount(BCalls, records, c, n, k => true);
    TotalIsCount(CacheHits, records, c, n, (k: nat) => k < |records| && records[k].b.cacheHit);
    TotalIsCount(ACacheCalls, records, c, n, (k: nat) => k < |records| && records[k].a.billed);
  }

  /** ... reports of cache tokens, of the direct arm's only by calls that were really made, ... */
  lemma ReportsAre(records: seq<Record>, c: Scope, n: nat)
    requires n <= |records|
    ensures Total(ACacheReadN, records, c, n)
         == CountOver(records, c, n, (k: nat) => k < |records| && records[k].a.billed && records[k].a.cacheRead.Some?) as real
    ensures Total(ACacheWriteN, records, c, n)
         == CountOver(records, c, n, (k: nat) => k < |records| && records[k].a.billed && records[k].a.cacheWrite.Some?) as real
    ensures Total(BCacheReadN, records, c, n)
         == CountOver(records, c, n, (k: nat) => k < |records| && records[k].b.cacheRead.Some?) as real
    ensures Total(BCacheWriteN, records, c, n)
         == CountOver(records, c, n, (k: nat) => k < |records| && records[k].b.cacheWrite.Some?) as real
  {
    hide Repeats;
    hide Total;
    hide CountOver;
    TotalIsCount(ACacheReadN, records, c, n, (k: nat) => k < |records| && records[k].a.billed && records[k].a.cacheRead.Some?);
    TotalIsCount(ACacheWriteN, records, c, n, (k: nat) => k < |records| && records[k].a.billed && records[k].a.cacheWrite.Some?);
    TotalIsCount(BCacheReadN, records, c, n, (k: nat) => k < |records| && records[k].b.cacheRead.Some?);
    TotalIsCount(BCacheWriteN, records, c, n, (k: nat) => k < |records| && records[k].b.cacheWrite.Some?);
  }

  /** ... and the verdicts that repeat no earlier one of the scope. */
  lemma VerdictsAre(records: seq<Record>, c: Scope, n: nat)
    requires n <= |records|
    ensures Total(FactsChecked, records, c, n)
         == CountOver(records, c, n, (k: nat) => k < |records| && records[k].graded && !Repeats(records, c, k)) as real
    ensures Total(FactsRegressed, records, c, n)
         == CountOver(records, c, n, (k: nat) =>
              k < |records| && records[k].graded && !records[k].passed && !Repeats(records, c, k)) as real
  {
    hide Repeats;
    hide Total;
    hide CountOver;
    TotalIsCount(FactsChecked, records, c, n, (k: nat) => k < |records| && records[k].graded && !Repeats(records, c, k));
    TotalIsCount(FactsRegressed, records, c, n, (k: nat) =>
      k < |records| && records[k].graded && !records[k].passed && !Repeats(records, c, k));
  }

  // ------------------------------------------------------------------ aggregate, one slice

  datatype Place = Place(provider: string, profile: string)

  function ProfileScope(slice: string, p: Place): Scope {
    Scope(slice, Some(p.provider), Some(p.profile))
  }

  function ProviderScope(slice: string, provider: string): Scope {
    Scope(slice, Some(provider), None)
  }

  type ByProfile = map<Place, Bucket>
  type ByProvider = map<string, Bucket>

  function ProfileBucket(byProfile: ByProfile, p: Place): Bucket {
    if p in byProfile then byProfile[p] else BLANK
  }

  function ProviderBucket(totals: ByProvider, q: string): Bucket {
    if q in totals then totals[q] else BLANK
  }

  /** After n records: a bucket for each profile fed, holding its records' sums. */
  ghost predicate ProfilesHold(slice: string, byProfile: ByProfile, records: seq<Record>, n: nat)
    requires n <= |records|
  {
    && (forall p :: p in byProfile <==> Fed(records, ProfileScope(slice, p), n))
    && (forall p | p in byProfile :: Holds(byProfile[p], records, ProfileScope(slice, p), n))
  }

  /** ... and for each provider. */
  ghost predicate ProvidersHold(slice: string, totals: ByProvider, records: seq<Record>, n: nat)
    requires n <= |records|
  {
    && (forall q :: q in totals <==> Fed(records, ProviderScope(slice, q), n))
    && (forall q | q in totals :: Holds(totals[q], records, ProviderScope(slice, q), n))
  }

  lemma ProfilesStep(slice: string, byProfile: ByProfile, records: seq<Record>, n: nat, b: Bucket)
    requires n < |records| && ProfilesHold(slice, byProfile, records, n)
    ensures var p := Place(records[n].provider, records[n].profile);
            if records[n].slice != slice then ProfilesHold(slice, byProfile, records, n + 1)
            else Accumulated(ProfileBucket(byProfile, p), records[n], b) ==>
                   ProfilesHold(slice, byProfile[p := b], records, n + 1)
  {
    hide Holds;
    hide Accumulated;
    hide Fed;
    hide In;
    var r := records[n];
    InScopes(slice, r);
    FedMore(records, n);
    forall p | p in byProfile && !In(ProfileScope(slice, p), r)
      ensures Holds(byProfile[p], records, ProfileScope(slice, p), n + 1)
    {
      SkippedHolds(byProfile[p], records, ProfileScope(slice, p), n);
    }
    var p := Place(r.provider, r.profile);
    if r.slice == slice && Accumulated(ProfileBucket(byProfile, p), r, b) {
      if p !in byProfile {
        BlankHolds(records, ProfileScope(slice, p), n);
      }
      AccumulatedHolds(ProfileBucket(byProfile, p), b, records, ProfileScope(slice, p), n);
    }
  }

  lemma ProvidersStep(slice: string, totals: ByProvider, records: seq<Record>, n: nat, t: Bucket)
    requires n < |records| && ProvidersHold(slice, totals, records, n)
    ensures var q := records[n].provider;
            if records[n].slice != slice then ProvidersHold(slice, totals, records, n + 1)
            else Accumulated(ProviderBucket(totals, q), records[n], t) ==>
                   ProvidersHold(slice, totals[q := t], records, n + 1)
  {
    hide Holds;
    hide Accumulated;
    hide Fed;
    hide In;
    var r := records[n];
    InScopes(slice, r);
    FedMore(records, n);
    forall q | q in totals && !In(ProviderScope(slice, q), r)
      ensures Holds(totals[q], records, ProviderScope(slice, q), n + 1)
    {
      SkippedHolds(totals[q], records, ProviderScope(slice, q), n);
    }
    var q := r.provider;
    if r.slice == slice && Accumulated(ProviderBucket(totals, q), r, t) {
      if q !in totals {
        BlankHolds(records, ProviderScope(slice, q), n);
      }
      AccumulatedHolds(ProviderBucket(totals, q), t, records, ProviderScope(slice, q), n);
    }
  }

  class SliceAggregate {
    const slice: string
    var byProfile: ByProfile
    var totals: ByProvider

    constructor (slice: string)
      ensures this.slice == slice && byProfile == map[] && totals == map[]
    {
      this.slice := slice;
      byProfile, totals := map[], map[];
    }

    /** The loop of aggregate over the records of one slice. */
    method Aggregate(records: seq<Record>)
      requires byProfile == map[] && totals == map[]
      modifies this
      ensures ProfilesHold(slice, byProfile, records, |records|)
      ensures ProvidersHold(slice, totals, records, |records|)
    {
      NothingHeld(slice, records);
      hide *;
      for n := 0 to |records|
        invariant ProfilesHold(slice, byProfile, records, n)
        invariant ProvidersHold(slice, totals, records, n)
      {
        var r := records[n];
        var b, t := BLANK, BLANK;
        if r.slice == slice {
          b := Accumulate(ProfileBucket(byProfile, Place(r.provider, r.profile)), r);
          t := Accumulate(ProviderBucket(totals, r.provider), r);
        }
        ProfilesStep(slice, byProfile, records, n, b);
        ProvidersStep(slice, totals, records, n, t);
        if r.slice == slice {
          byProfile := byProfile[Place(r.provider, r.profile) := b];
          totals := totals[r.provider := t];
        }
      }
    }
  }

  lemma NothingHeld(slice: string, records: seq<Record>)
    ensures ProfilesHold(slice, map[], records, 0) && ProvidersHold(slice, map[], records, 0)
  {
    FedNone(records);
  }

  lemma InScopes(slice: string, r: Record)
    ensures forall p :: In(ProfileScope(slice, p), r) <==> r.slice == slice && p == Place(r.provider, r.profile)
    ensures forall q :: In(ProviderScope(slice, q), r) <==> r.slice == slice && q == r.provider
  {
  }

  lemma FedNone(records: seq<Record>)
    ensures forall c :: !Fed(records, c, 0)
  {
  }

  lemma FedMore(records: seq<Record>, n: nat)
    requires n < |records|
    ensures forall c :: Fed(records, c, n + 1) <==> Fed(records, c, n) || In(c, records[n])
  {
    forall c ensures Fed(records, c, n + 1) <==> Fed(records, c, n) || In(c, records[n]) {
      if j :| 0 <= j < n + 1 && In(c, records[j]) {
      }
    }
  }

  // ------------------------------------------------------------------ the parts of a scope

  function TotalOver(f: Field, records: seq<Record>, cs: seq<Scope>, n: nat): real
    requires n <= |records|
  {
    if cs == [] then 0.0 else TotalOver(f, records, cs[..|cs| - 1], n) + Total(f, records, cs[|cs| - 1], n)
  }

  function AddsOver(f: Field, records: seq<Record>, cs: seq<Scope>, k: nat): real
    requires k < |records|
  {
    if cs == [] then 0.0 else AddsOver(f, records, cs[..|cs| - 1], k) + Adds(f, records, cs[|cs| - 1], k)
  }

  lemma {:induction false} TotalOverStep(f: Field, records: seq<Record>, cs: seq<Scope>, n: nat)
    requires 0 < n <= |records|
    ensures TotalOver(f, records, cs, n) == TotalOver(f, records, cs, n - 1) + AddsOver(f, records, cs, n - 1)
  {
    if cs == [] {
    } else {
      hide Adds;
      TotalOverStep(f, records, cs[..|cs| - 1], n);
    }
  }

  lemma {:induction false} TotalOverNone(f: Field, records: seq<Record>, cs: seq<Scope>)
    ensures TotalOver(f, records, cs, 0) == 0.0
  {
    if cs == [] {
    } else {
      TotalOverNone(f, records, cs[..|cs| - 1]);
    }
  }

  predicate Apart(cs: seq<Scope>, rec: Record) {
    forall i, j | 0 <= i < j < |cs| :: !(In(cs[i], rec) && In(cs[j], rec))
  }

  lemma {:induction false} AddsNowhere(f: Field, records: seq<Record>, cs: seq<Scope>, k: nat)
    requires k < |records| && forall i | 0 <= i < |cs| :: !In(cs[i], records[k])
    ensures AddsOver(f, records, cs, k) == 0.0
  {
    if cs == [] {
    } else {
      hide In;
      AddsNowhere(f, records, cs[..|cs| - 1], k);
    }
  }

  /** A record adds to the parts what it adds to the one part it is in. */
  lemma {:induction false} AddsOnce(f: Field, records: seq<Record>, cs: seq<Scope>, k: nat, i: nat)
    requires k < |records| && Apart(cs, records[k]) && i < |cs| && In(cs[i], records[k])
    ensures AddsOver(f, records, cs, k) == Adds(f, records, cs[i], k)
  {
    hide In;
    var m := |cs| - 1;
    if i == m {
      AddsNowhere(f, records, cs[..m], k);
    } else {
      AddsOnce(f, records, cs[..m], k, i);
      assert !In(cs[m], records[k]);
    }
  }

  function Profiles(slice: string, provider: string, profiles: seq<string>): (cs: seq<Scope>)
    ensures |cs| == |profiles| && forall i | 0 <= i < |cs| :: cs[i] == ProfileScope(slice, Place(provider, profiles[i]))
  {
    seq(|profiles|, i requires 0 <= i < |profiles| => ProfileScope(slice, Place(provider, profiles[i])))
  }

  function Providers(slice: string, providers: seq<string>): (cs: seq<Scope>)
    ensures |cs| == |providers| && forall i | 0 <= i < |cs| :: cs[i] == ProviderScope(slice, providers[i])
  {
    seq(|providers|, i requires 0 <= i < |providers| => ProviderScope(slice, providers[i]))
  }

  /** A verdict repeats an earlier one of its provider exactly when it repeats one of its profile. */
  lemma RepeatsInProfile(records: seq<Record>, slice: string, provider: string, k: nat)
    requires k < |records| && In(ProviderScope(slice, provider), records[k])
    ensures Repeats(records, ProviderScope(slice, provider), k)
       <==> Repeats(records, ProfileScope(slice, Place(provider, records[k].profile)), k)
  {
  }

  /** Every field of a provider's total is the sum of that field over its profiles, the verdict
      counts included, although each bucket tells replays apart by its own records only. */
  lemma {:induction false} TotalIsSumOfProfiles(f: Field, records: seq<Record>, slice: string, provider: string,
                                                profiles: seq<string>, n: nat)
    requires n <= |records| && NoDuplicates(profiles)
    requires forall k | 0 <= k < n && In(ProviderScope(slice, provider), records[k]) :: records[k].profile in profiles
    ensures Total(f, records, ProviderScope(slice, provider), n)
         == TotalOver(f, records, Profiles(slice, provider, profiles), n)
  {
    var cs := Profiles(slice, provider, profiles);
    if n == 0 {
      TotalOverNone(f, records, cs);
    } else {
      TotalIsSumOfProfiles(f, records, slice, provider, profiles, n - 1);
      TotalOverStep(f, records, cs, n);
      ProfileStep(f, records, slice, provider, profiles, n - 1);
    }
  }

  lemma ProfileStep(f: Field, records: seq<Record>, slice: string, provider: string, profiles: seq<string>, k: nat)
    requires k < |records| && NoDuplicates(profiles)
    requires In(ProviderScope(slice, provider), records[k]) ==> records[k].profile in profiles
    ensures AddsOver(f, records, Profiles(slice, provider, profiles), k)
         == Adds(f, records, ProviderScope(slice, provider), k)
  {
    hide Gain;
    hide Repeats;
    var cs := Profiles(slice, provider, profiles);
    if In(ProviderScope(slice, provider), records[k]) {
      var i :| 0 <= i < |profiles| && profiles[i] == records[k].profile;
      AddsOnce(f, records, cs, k, i);
      RepeatsInProfile(records, slice, provider, k);
    } else {
      AddsNowhere(f, records, cs, k);
    }
  }

  function BucketSum(byProfile: ByProfile, provider: string, profiles: seq<string>, f: Field): real {
    if profiles == [] then 0.0
    else
      var m := |profiles| - 1;
      BucketSum(byProfile, provider, profiles[..m], f) + At(ProfileBucket(byProfile, Place(provider, profiles[m])).sums, f)
  }

  lemma {:induction false} BucketSumIs(slice: string, byProfile: ByProfile, records: seq<Record>, provider: string,
                                       profiles: seq<string>, f: Field)
    requires ProfilesHold(slice, byProfile, records, |records|)
    requires forall p | p in profiles :: Place(provider, p) in byProfile
    ensures BucketSum(byProfile, provider, profiles, f)
         == TotalOver(f, records, Profiles(slice, provider, profiles), |records|)
  {
    if profiles == [] {
    } else {
      var m := |profiles| - 1;
      BucketSumIs(slice, byProfile, records, provider, profiles[..m], f);
      var cs := Profiles(slice, provider, profiles);
      assert cs[..m] == Profiles(slice, provider, profiles[..m]);
      assert Holds(byProfile[Place(provider, profiles[m])], records, cs[m], |records|);
      hide *;
      TotalOverLast(f, records, cs);
      BucketSumLast(byProfile, provider, profiles, f);
      BucketAt(byProfile[Place(provider, profiles[m])], records, cs[m], f);
      BucketFound(byProfile, Place(provider, profiles[m]));
    }
  }

  lemma TotalOverLast(f: Field, records: seq<Record>, cs: seq<Scope>)
    requires cs != []
    ensures TotalOver(f, records, cs, |records|)
         == TotalOver(f, records, cs[..|cs| - 1], |records|) + Total(f, records, cs[|cs| - 1], |records|)
  {
  }

  lemma BucketSumLast(byProfile: ByProfile, provider: string, profiles: seq<string>, f: Field)
    requires profiles != []
    ensures var m := |profiles| - 1;
            BucketSum(byProfile, provider, profiles, f) == BucketSum(byProfile, provider, profiles[..m], f)
              + At(ProfileBucket(byProfile, Place(provider, profiles[m])).sums, f)
  {
  }

  lemma BucketAt(b: Bucket, records: seq<Record>, c: Scope, f: Field)
    requires Holds(b, records, c, |records|)
    ensures At(b.sums, f) == Total(f, records, c, |records|)
  {
  }

  lemma BucketFound(byProfile: ByProfile, p: Place)
    requires p in byProfile
    ensures ProfileBucket(byProfile, p) == byProfile[p]
  {
  }

  /** In what aggregate builds, each field of a provider's total bucket is the sum of that field
      over the provider's profile buckets. */
  lemma BucketsAreAdditive(slice: string, byProfile: ByProfile, totals: ByProvider, records: seq<Record>,
                           provider: string, profiles: seq<string>, f: Field)
    requires ProfilesHold(slice, byProfile, records, |records|) && ProvidersHold(slice, totals, records, |records|)
    requires provider in totals && NoDuplicates(profiles)
    requires forall p :: p in profiles <==> Place(provider, p) in byProfile
    ensures At(totals[provider].sums, f) == BucketSum(byProfile, provider, profiles, f)
  {
    forall k | 0 <= k < |records| && In(ProviderScope(slice, provider), records[k])
      ensures records[k].profile in profiles
    {
      assert In(ProfileScope(slice, Place(provider, records[k].profile)), records[k]);
      assert Fed(records, ProfileScope(slice, Place(provider, records[k].profile)), |records|);
    }
    assert Holds(totals[provider], records, ProviderScope(slice, provider), |records|);
    hide *;
    BucketAt(totals[provider], records, ProviderScope(slice, provider), f);
    TotalIsSumOfProfiles(f, records, slice, provider, profiles, |records|);
    BucketSumIs(slice, byProfile, records, provider, profiles, f);
  }

  // ------------------------------------------------------------------ the console's recount

  function SliceScope(slice: string): Scope {
    Scope(slice, None, None)
  }

  /** _reg: one seen-set for all providers. */
  method Recount(records: seq<Record>, slice: string) returns (regressed: real)
    ensures regressed == Total(FactsRegressed, records, SliceScope(slice), |records|)
  {
    hide Repeats;
    hide GradedKeys;
    var seen: set<Key> := {};
    regressed := 0.0;
    NoKeys(records, SliceScope(slice));
    for n := 0 to |records|
      invariant seen == GradedKeys(records, SliceScope(slice), n)
      invariant regressed == Total(FactsRegressed, records, SliceScope(slice), n)
    {
      var r := records[n];
      GradedGrows(records, SliceScope(slice), n);
      ReplaysIsRepeats(records, SliceScope(slice), n);
      if r.slice != slice || !r.graded {
        continue;
      }
      var counts;
      counts, seen := CountVerdict(r, seen);
      if !counts {
        continue;
      }
      if !r.passed {
        regressed := regressed + 1.0;
      }
    }
  }

  lemma NoKeys(records: seq<Record>, c: Scope)
    ensures GradedKeys(records, c, 0) == {}
  {
  }

  /** A dropped fact on a cache-hit repeat whose item was graded before under another provider, but
      not under its own: the artifact counts it, the console does not. */
  predicate Masked(records: seq<Record>, slice: string, k: nat)
    requires k < |records|
  {
    && records[k].slice == slice && records[k].graded && !records[k].passed
    && Repeats(records, SliceScope(slice), k) && !Repeats(records, ProviderScope(slice, records[k].provider), k)
  }

  lemma {:induction false} MaskedStep(records: seq<Record>, slice: string, providers: seq<string>, k: nat)
    requires k < |records| && NoDuplicates(providers)
    requires records[k].slice == slice ==> records[k].provider in providers
    ensures AddsOver(FactsRegressed, records, Providers(slice, providers), k)
         == Adds(FactsRegressed, records, SliceScope(slice), k) + One(Masked(records, slice, k))
  {
    var cs := Providers(slice, providers);
    if records[k].slice == slice {
      var i :| 0 <= i < |providers| && providers[i] == records[k].provider;
      AddsOnce(FactsRegressed, records, cs, k, i);
      RepeatsInSlice(records, slice, k);
    } else {
      AddsNowhere(FactsRegressed, records, cs, k);
    }
  }

  lemma RepeatsInSlice(records: seq<Record>, slice: string, k: nat)
    requires k < |records| && records[k].slice == slice
    ensures Repeats(records, ProviderScope(slice, records[k].provider), k) ==> Repeats(records, SliceScope(slice), k)
  {
  }

  function MaskedCount(records: seq<Record>, slice: string, n: nat): (m: real)
    requires n <= |records|
    ensures m >= 0.0 && (m == 0.0 <==> forall k: nat | k < n :: !Masked(records, slice, k))
  {
    if n == 0 then 0.0 else MaskedCount(records, slice, n - 1) + One(Masked(records, slice, n - 1))
  }

  /** The artifact's regressions over all providers exceed the console's by the masked ones. */
  lemma {:induction false} ArtifactMinusConsole(records: seq<Record>, slice: string, providers: seq<string>, n: nat)
    requires n <= |records| && NoDuplicates(providers)
    requires forall k | 0 <= k < n && records[k].slice == slice :: records[k].provider in providers
    ensures TotalOver(FactsRegressed, records, Providers(slice, providers), n)
         == Total(FactsRegressed, records, SliceScope(slice), n) + MaskedCount(records, slice, n)
  {
    hide Adds;
    hide Masked;
    if n == 0 {
      TotalOverNone(FactsRegressed, records, Providers(slice, providers));
    } else {
      ArtifactMinusConsole(records, slice, providers, n - 1);
      TotalOverStep(FactsRegressed, records, Providers(slice, providers), n);
      MaskedStep(records, slice, providers, n - 1);
    }
  }

  /** The console line and the artifact agree exactly when no regression is masked. */
  lemma ConsoleAgreesIff(records: seq<Record>, slice: string, providers: seq<string>)
    requires NoDuplicates(providers)
    requires forall k | 0 <= k < |records| && records[k].slice == slice :: records[k].provider in providers
    ensures Total(FactsRegressed, records, SliceScope(slice), |records|)
            == TotalOver(FactsRegressed, records, Providers(slice, providers), |records|)
       <==> forall k: nat | k < |records| :: !Masked(records, slice, k)
  {
    ArtifactMinusConsole(records, slice, providers, |records|);
  }

  /** With one provider in the slice they always agree. */
  lemma OneProviderAgrees(records: seq<Record>, slice: string, provider: string)
    requires forall k | 0 <= k < |records| && records[k].slice == slice :: records[k].provider == provider
    ensures Total(FactsRegressed, records, SliceScope(slice), |records|)
         == Total(FactsRegressed, records, ProviderScope(slice, provider), |records|)
  {
    var cs := Providers(slice, [provider]);
    forall k: nat | k < |records| ensures !Masked(records, slice, k) {
      if records[k].slice == slice && Repeats(records, SliceScope(slice), k) {
        var j :| 0 <= j < k && In(SliceScope(slice), records[j]) && records[j].graded && KeyOf(records[j]) == KeyOf(records[k]);
        assert In(ProviderScope(slice, provider), records[j]);
      }
    }
    ConsoleAgreesIff(records, slice, [provider]);
    assert cs[..0] == [];
    assert TotalOver(FactsRegressed, records, cs, |records|) == Total(FactsRegressed, records, cs[0], |records|);
  }

  /** They do differ: an item graded under one provider, and then dropped on a repeat that another
      provider's cache served. */
  lemma ConsoleMissesMasked(first: Record, second: Record)
    requires first.slice == second.slice && KeyOf(first) == KeyOf(second) && first.provider != second.provider
    requires first.graded && first.passed && second.graded && !second.passed
    requires second.repeated && second.b.cacheHit
    ensures var records, slice := [first, second], first.slice;
            && Total(FactsRegressed, records, SliceScope(slice), 2) == 0.0
            && Total(FactsRegressed, records, ProviderScope(slice, first.provider), 2) == 0.0
            && Total(FactsRegressed, records, ProviderScope(slice, second.provider), 2) == 1.0
  {
    var records, slice := [first, second], first.slice;
    assert In(SliceScope(slice), records[0]) && records[0].graded && KeyOf(records[0]) == KeyOf(records[1]);
    assert Repeats(records, SliceScope(slice), 1);
    assert !Repeats(records, ProviderScope(slice, second.provider), 1);
    forall c ensures Total(FactsRegressed, records, c, 2) == Adds(FactsRegressed, records, c, 0) + Adds(FactsRegressed, records, c, 1) {
      assert Total(FactsRegressed, records, c, 1) == Adds(FactsRegressed, records, c, 0);
    }
  }
}
