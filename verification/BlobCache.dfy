/** The validate cache over a blob key store (src/proxy/auth/api_key_manager.py): version checks,
    reloads under one lock, and local writes. */
module BlobCache {
  import opened KeyEntry
  import opened Options

  /** The key file or secret: its version names its contents, and every write makes a new one. */
  datatype Blob = Blob(version: nat, data: Store)

  // ------------------------------------------------------------------ agreement under interleaving

  /** A load in progress: the version is read first, then the data; then the cache is assigned,
      then the version it was loaded from. A version that could not be told is None. */
  datatype Load =
    | NoLoad
    | HasVersion(v: Option<nat>)
    | HasData(v: Option<nat>, data: Store)
    | Installed(v: Option<nat>)

  /** A local write between its persist, which made this version, and its cache assignment. The
      write lock and the load lock are different locks. */
  datatype Write = NoWrite | Persisted(version: nat, data: Store)

  datatype Sys = Sys(blob: Blob, cache: Store, cacheVersion: Option<nat>, load: Load, write: Write)

  datatype Step =
    | ForeignWrite(data: Store)
    | Persist(data: Store)
    | AssignWritten
    | ReadVersion(told: bool)
    | ReadData
    | LoadFails
    | InstallData
    | InstallVersion

  predicate Enabled(s: Sys, step: Step) {
    match step
    case ForeignWrite(_) => true
    case Persist(_) => s.write.NoWrite?
    case AssignWritten => s.write.Persisted?
    case ReadVersion(_) => s.load.NoLoad?
    case ReadData => s.load.HasVersion?
    case LoadFails => s.load.HasVersion?
    case InstallData => s.load.HasData?
    case InstallVersion => s.load.Installed?
  }

  function Next(s: Sys, step: Step): Sys
    requires Enabled(s, step)
  {
    var version := s.blob.version + 1;
    match step
    case ForeignWrite(data) => s.(blob := Blob(version, data))
    case Persist(data) => s.(blob := Blob(version, data), write := Persisted(version, data))
    case AssignWritten => s.(cache := s.write.data, write := NoWrite)
    case ReadVersion(told) => s.(load := HasVersion(if told then Some(s.blob.version) else None))
    case ReadData => s.(load := HasData(s.load.v, s.blob.data))
    case LoadFails => s.(load := NoLoad)
    case InstallData => s.(cache := s.load.data, load := Installed(s.load.v))
    case InstallVersion => s.(cacheVersion := s.load.v, load := NoLoad)
  }

  predicate Runs(s: Sys, steps: seq<Step>)
    decreases |steps|
  {
    steps == [] || (Enabled(s, steps[0]) && Runs(Next(s, steps[0]), steps[1..]))
  }

  function End(s: Sys, steps: seq<Step>): Sys
    requires Runs(s, steps)
    decreases |steps|
  {
    if steps == [] then s else End(Next(s, steps[0]), steps[1..])
  }

  function Initial(blob: Blob): Sys {
    Sys(blob, map[], None, NoLoad, NoWrite)
  }

  /** A recorded version that is still the store's vouches for the cached keys. */
  predicate Agrees(s: Sys) {
    s.cacheVersion == Some(s.blob.version) ==> s.cache == s.blob.data
  }

  predicate UpTo(v: Option<nat>, limit: nat) {
    v.Some? ==> v.value <= limit
  }

  /** A version held somewhere would make the store a waiting write assigns look current. */
  predicate Vouched(s: Sys) {
    var current := Some(s.blob.version);
    || (s.write.Persisted? && Some(s.write.version) == current)
    || s.cacheVersion == current || (s.load.Installed? && s.load.v == current)
  }

  predicate Inv(s: Sys) {
    var current := Some(s.blob.version);
    && UpTo(s.cacheVersion, s.blob.version)
    && (!s.load.NoLoad? ==> UpTo(s.load.v, s.blob.version))
    // A version that is still current vouches for what was read after it.
    && (s.load.HasData? && current in {s.load.v, s.cacheVersion} ==> s.load.data == s.blob.data)
    && (s.load.Installed? && s.load.v == current ==> s.cache == s.blob.data)
    // ... and for a write that still waits for its assignment.
    && (s.write.Persisted? ==>
          && s.write.version <= s.blob.version
          && (Vouched(s) ==> s.write.data == s.blob.data))
    && Agrees(s)
  }

  /** While a local write waits to assign the cache, a load installs what it read of the version
      that is current only if that is what the write wrote. */
  predicate Guarded(s: Sys, step: Step) {
    step == InstallData && s.load.HasData? && s.write.Persisted? && s.load.v == Some(s.blob.version)
    ==> s.write.data == s.load.data
  }

  predicate GuardedRun(s: Sys, steps: seq<Step>)
    requires Runs(s, steps)
    decreases |steps|
  {
    steps == [] || (Guarded(s, steps[0]) && GuardedRun(Next(s, steps[0]), steps[1..]))
  }

  /** From a state that agrees, a step keeps agreement, now and later, exactly when it is guarded. */
  lemma StepKeepsIff(s: Sys, step: Step)
    requires Inv(s) && Enabled(s, step)
    ensures Inv(Next(s, step)) <==> Guarded(s, step)
  {
    if step == InstallData && s.write.Persisted? && s.load.v == Some(s.blob.version) {
      assert s.load.data == s.blob.data;
    }
  }

  lemma {:induction false} RunKeepsInv(s: Sys, steps: seq<Step>)
    requires Inv(s) && Runs(s, steps) && GuardedRun(s, steps)
    ensures Inv(End(s, steps))
    decreases |steps|
  {
    if steps == [] {
    } else {
      StepKeepsIff(s, steps[0]);
      hide *;
      RunUnfolds(s, steps);
      RunKeepsInv(Next(s, steps[0]), steps[1..]);
    }
  }

  lemma RunUnfolds(s: Sys, steps: seq<Step>)
    requires steps != [] && Runs(s, steps) && GuardedRun(s, steps)
    ensures Enabled(s, steps[0]) && Guarded(s, steps[0])
    ensures Runs(Next(s, steps[0]), steps[1..]) && GuardedRun(Next(s, steps[0]), steps[1..])
    ensures End(s, steps) == End(Next(s, steps[0]), steps[1..])
  {
  }

  /** Over every interleaving of writes by anyone and loads, failed ones included, that keeps the
      guard: whenever the recorded version is the store's, the cached keys are the store's. */
  lemma CacheAgrees(blob: Blob, steps: seq<Step>)
    requires Runs(Initial(blob), steps) && GuardedRun(Initial(blob), steps)
    ensures Agrees(End(Initial(blob), steps))
  {
    RunKeepsInv(Initial(blob), steps);
  }

  lemma ThreeSteps(s: Sys, a: Step, b: Step, c: Step)
    requires Enabled(s, a) && Enabled(Next(s, a), b) && Enabled(Next(Next(s, a), b), c)
    ensures Runs(s, [a, b, c]) && End(s, [a, b, c]) == Next(Next(Next(s, a), b), c)
  {
    hide Next;
    hide Enabled;
    var all := [a, b, c];
    var s2, s3 := Next(Next(s, a), b), Next(Next(Next(s, a), b), c);
    assert Runs(s3, all[3..]) && End(s3, all[3..]) == s3;
    Unfold(s2, all, 2);
    Unfold(Next(s, a), all, 1);
    Unfold(s, all, 0);
    assert all[0..] == all;
  }

  lemma FourSteps(s: Sys, a: Step, b: Step, c: Step, d: Step)
    requires Enabled(s, a) && Enabled(Next(s, a), b) && Enabled(Next(Next(s, a), b), c)
    requires Enabled(Next(Next(Next(s, a), b), c), d)
    ensures Runs(s, [a, b, c, d]) && End(s, [a, b, c, d]) == Next(Next(Next(Next(s, a), b), c), d)
  {
    hide Next;
    hide Enabled;
    var all := [a, b, c, d];
    var s1 := Next(s, a);
    ThreeSteps(s1, b, c, d);
    assert all[0..] == all && all[1..] == [b, c, d];
    Unfold(s, all, 0);
  }

  /** Whenever no load is in progress one can start, and undisturbed it ends with the store's keys
      cached and their version recorded, if it could be told; one that fails leaves both as they were. */
  lemma LoadInstalls(s: Sys, told: bool)
    requires s.load.NoLoad?
    ensures var steps := [ReadVersion(told), ReadData, InstallData, InstallVersion];
            Runs(s, steps)
            && End(s, steps) == s.(cache := s.blob.data, cacheVersion := if told then Some(s.blob.version) else None)
    ensures var steps := [ReadVersion(told), LoadFails]; Runs(s, steps) && End(s, steps) == s
  {
    FourSteps(s, ReadVersion(told), ReadData, InstallData, InstallVersion);
    var fails := [ReadVersion(told), LoadFails];
    var s1 := Next(s, fails[0]);
    assert Runs(s, fails[2..]) && End(s, fails[2..]) == s;
    Unfold(s1, fails, 1);
    Unfold(s, fails, 0);
    assert fails[0..] == fails;
  }

  /** A write caches what it wrote. Nobody else's write touches this instance. */
  lemma WriteInstalls(s: Sys, data: Store)
    requires s.write.NoWrite?
    ensures Runs(s, [Persist(data), AssignWritten]) && Runs(s, [ForeignWrite(data)])
    ensures var t := End(s, [Persist(data), AssignWritten]);
            t.blob.data == t.cache == data && t.blob.version > s.blob.version && t == s.(blob := t.blob, cache := data)
    ensures var t := End(s, [ForeignWrite(data)]);
            t.blob.data == data && t.blob.version > s.blob.version && t == s.(blob := t.blob)
  {
    var own, foreign := [Persist(data), AssignWritten], [ForeignWrite(data)];
    var s1 := Next(s, own[0]);
    var s2, s3 := Next(s1, own[1]), Next(s, foreign[0]);
    assert Runs(s2, own[2..]) && End(s2, own[2..]) == s2;
    assert Runs(s3, foreign[1..]) && End(s3, foreign[1..]) == s3;
    Unfold(s1, own, 1);
    Unfold(s, own, 0);
    Unfold(s, foreign, 0);
    assert own[0..] == own && foreign[0..] == foreign;
  }

  /** In every run a load starts only when the one before has ended, and likewise a write. */
  lemma {:induction false} OneAtATime(s: Sys, steps: seq<Step>, j: nat)
    requires Runs(s, steps) && j < |steps|
    ensures s.write.Persisted? && steps[j].Persist? ==> exists k :: 0 <= k < j && steps[k] == AssignWritten
    ensures !s.load.NoLoad? && steps[j].ReadVersion? ==>
              exists k :: 0 <= k < j && (steps[k] == InstallVersion || steps[k] == LoadFails)
    decreases |steps|
  {
    if j == 0 {
    } else {
      OneAtATime(Next(s, steps[0]), steps[1..], j - 1);
      assert forall k | 0 <= k < j - 1 :: steps[1..][k] == steps[k + 1];
      assert steps[1..][j - 1] == steps[j];
    }
  }

  /** The orders in which a waiting assignment can fall among the last two steps of a load. */
  datatype Late = Last | Between | First

  function LateSteps(late: Late): seq<Step> {
    match late
    case Last => [InstallData, InstallVersion, AssignWritten]
    case Between => [InstallData, AssignWritten, InstallVersion]
    case First => [AssignWritten, InstallData, InstallVersion]
  }

  /** When the assignment comes after the load installed its data, the cache agrees with the
      version recorded exactly when the load read another version than the current one or what the
      write wrote; when it comes before, always. */
  lemma LateAssignmentIff(s: Sys, late: Late)
    requires Inv(s) && s.load.HasData? && s.write.Persisted?
    ensures Runs(s, LateSteps(late))
    ensures Agrees(End(s, LateSteps(late))) <==>
              late == First || s.load.v != Some(s.blob.version) || s.write.data == s.load.data
    ensures late != First ==> (Agrees(End(s, LateSteps(late))) <==> Guarded(s, InstallData))
  {
    match late
    case Last => ThreeSteps(s, InstallData, InstallVersion, AssignWritten);
    case Between => ThreeSteps(s, InstallData, AssignWritten, InstallVersion);
    case First => ThreeSteps(s, AssignWritten, InstallData, InstallVersion);
  }

  /** A run whose local writes assign the cache in the step after their persist. */
  predicate WritesAreOneStep(steps: seq<Step>) {
    forall i | 0 <= i < |steps| && steps[i].Persist? :: i + 1 < |steps| && steps[i + 1] == AssignWritten
  }

  lemma {:induction false} OneStepIsGuarded(s: Sys, steps: seq<Step>)
    requires s.write.NoWrite? && Runs(s, steps) && WritesAreOneStep(steps)
    ensures GuardedRun(s, steps)
    decreases |steps|
  {
    if steps == [] {
    } else {
      var s1 := Next(s, steps[0]);
      if steps[0].Persist? {
        assert steps[1..][0] == AssignWritten;
        assert Runs(s1, steps[1..]);
        assert steps[2..] == steps[1..][1..];
        assert forall i | 0 <= i < |steps| - 2 :: steps[2..][i] == steps[i + 2];
        OneStepIsGuarded(Next(s1, AssignWritten), steps[2..]);
      } else {
        assert forall i | 0 <= i < |steps| - 1 :: steps[1..][i] == steps[i + 1];
        OneStepIsGuarded(s1, steps[1..]);
      }
    }
  }

  /** Why the guard is needed: a foreign write and a whole reload between a local write's persist
      and its assignment leave the recorded version current and the cached keys not. A key the
      foreign write revoked validates here until the cache's own time limit. */
  lemma LateAssignmentDisagrees(blob: Blob, written: Store, foreign: Store)
    requires written != foreign
    ensures var steps := [Persist(written), ForeignWrite(foreign), ReadVersion(true), ReadData,
                          InstallData, InstallVersion, AssignWritten];
            Runs(Initial(blob), steps) && !Agrees(End(Initial(blob), steps))
  {
    var s0 := Initial(blob);
    var all := [Persist(written), ForeignWrite(foreign), ReadVersion(true), ReadData,
                InstallData, InstallVersion, AssignWritten];
    var s1 := Next(s0, all[0]);
    var s2 := Next(s1, all[1]);
    var s3 := Next(s2, all[2]);
    var s4 := Next(s3, all[3]);
    var s5 := Next(s4, all[4]);
    var s6 := Next(s5, all[5]);
    var s7 := Next(s6, all[6]);
    assert Runs(s7, all[7..]) && End(s7, all[7..]) == s7;
    hide Next;
    Unfold(s6, all, 6);
    Unfold(s5, all, 5);
    Unfold(s4, all, 4);
    Unfold(s3, all, 3);
    Unfold(s2, all, 2);
    Unfold(s1, all, 1);
    Unfold(s0, all, 0);
    assert all[0..] == all;
  }

  lemma Unfold(s: Sys, all: seq<Step>, i: nat)
    requires i < |all| && Enabled(s, all[i]) && Runs(Next(s, all[i]), all[i + 1..])
    ensures Runs(s, all[i..]) && End(s, all[i..]) == End(Next(s, all[i]), all[i + 1..])
  {
    hide Next;
    hide Enabled;
    assert all[i..][1..] == all[i + 1..];
  }

  // ------------------------------------------------------------------ one instance's lookups

  /** A write of the blob store and when it happened. */
  datatype Written = Written(at: int, blob: Blob)

  /** A load another lookup's need started: when that lookup began, when the load was attempted. */
  datatype Reloaded = Reloaded(asked: int, at: int, miss: bool)

  /** Each load was asked for after the one before it was attempted. */
  predicate InTurn(loads: seq<Reloaded>) {
    && (forall i | 0 <= i < |loads| :: loads[i].asked <= loads[i].at)
    && forall i, j | 0 <= i < j < |loads| :: loads[i].at < loads[j].asked
  }

  /** Loads for a miss were asked for at least the interval apart. */
  predicate Spaced(loads: seq<Reloaded>, interval: nat) {
    forall i, j | 0 <= i < j < |loads| && loads[i].miss && loads[j].miss ::
      loads[i].asked + interval <= loads[j].asked
  }

  predicate Throttled(loads: seq<Reloaded>, interval: nat, lastAttempt: int, lastForced: int) {
    && InTurn(loads) && Spaced(loads, interval)
    && forall i | 0 <= i < |loads| :: loads[i].at <= lastAttempt && (loads[i].miss ==> loads[i].asked <= lastForced)
  }

  lemma ThrottledGrows(loads: seq<Reloaded>, interval: nat, lastAttempt: int, lastForced: int, l: Reloaded)
    requires Throttled(loads, interval, lastAttempt, lastForced)
    requires lastAttempt < l.asked <= l.at
    requires l.miss ==> interval <= l.asked - lastForced
    ensures Throttled(loads + [l], interval, l.at, if l.miss then l.asked else lastForced)
  {
  }

  predicate InOrder(store: seq<Written>) {
    && store != []
    && forall i, j | 0 <= i < j < |store| ::
         store[i].at <= store[j].at && store[i].blob.version < store[j].blob.version
  }

  class KeyCache {
    const ttl: nat
    const checkInterval: nat
    const missInterval: nat
    var cache: Store
    var loadedAt: int
    var cacheVersion: Option<nat>
    var lastVersionCheck: int
    var lastForcedReload: int
    var lastLoadAttempt: int

    ghost var clock: int              // the latest reading of the monotonic clock
    ghost var store: seq<Written>     // every version of the blob store; the last is current
    ghost var loads: seq<Reloaded>    // every load attempted
    ghost var held: nat               // the version the cached keys are those of
    ghost var loaded: bool            // the cache has been assigned

    ghost predicate Valid()
      reads this
    {
      && 0 <= lastVersionCheck <= clock && 0 <= lastLoadAttempt <= clock && 0 <= lastForcedReload <= clock
      && InOrder(store) && store != [] && store[|store| - 1].at <= clock
      && Throttled(loads, missInterval, lastLoadAttempt, lastForcedReload)
    }

    /** The cached keys are those of a version that was still current at time t. */
    ghost predicate CurrentAt(t: int)
      reads this
    {
      held < |store| && cache == store[held].blob.data && (held + 1 < |store| ==> t <= store[held + 1].at)
    }

    /** What holds as long as reads succeed: the cached keys were current at the last check and at
        the last load, and a recorded version that is still current vouches for them. */
    ghost predicate InStep()
      reads this
    {
      && Valid()
      && (!loaded ==> lastLoadAttempt == 0 && cache == map[])
      && (loaded ==> CurrentAt(lastVersionCheck) && CurrentAt(lastLoadAttempt))
      && var now := store[|store| - 1].blob;
      UpTo(cacheVersion, now.version) && (cacheVersion == Some(now.version) ==> cache == now.data)
    }

    constructor (ttl: nat, checkInterval: nat, missInterval: nat, ghost first: Written)
      requires 0 <= first.at
      ensures InStep() && store == [first] && loads == []
      ensures this.ttl == ttl && this.checkInterval == checkInterval && this.missInterval == missInterval
      ensures cache == map[] && cacheVersion.None? && !loaded && loadedAt == 0
    {
      this.ttl, this.checkInterval, this.missInterval := ttl, checkInterval, missInterval;
      cache, cacheVersion, loadedAt := map[], None, 0;
      lastVersionCheck, lastForcedReload, lastLoadAttempt := 0, 0, 0;
      clock, store, loads, held, loaded := first.at, [first], [], 0, false;
    }

    /** Another instance writes the store. */
    ghost method ForeignWrite(now: int, data: Store)
      requires InStep() && clock <= now
      modifies this`clock, this`store
      ensures InStep() && clock == now
      ensures store == old(store) + [Written(now, Blob(old(store)[|old(store)| - 1].blob.version + 1, data))]
    {
      clock := now;
      store := store + [Written(now, Blob(store[|store| - 1].blob.version + 1, data))];
    }

    /** _persist_store: write the store and take it as the cache. The recorded version stays as
        it was, so the next check reloads. */
    method LocalWrite(now: int, data: Store)
      requires InStep() && clock <= now
      modifies this`clock, this`store, this`cache, this`loadedAt, this`held, this`loaded
      ensures InStep() && clock == now && cache == data && CurrentAt(now) && loaded && loadedAt == now
      ensures store == old(store) + [Written(now, Blob(old(store)[|old(store)| - 1].blob.version + 1, data))]
    {
      clock := now;
      store := store + [Written(now, Blob(store[|store| - 1].blob.version + 1, data))];
      held, loaded := |store| - 1, true;
      cache := data;
      loadedAt := now;
    }

    /** The part of _reload under the load lock, for a lookup that began at asked; needed is its
        need checked again there. read is what the store answers now: None when it cannot be read. */
    method Reload(asked: int, now: int, needed: bool, miss: bool, read: Option<Blob>)
      requires Valid() && clock <= now && 0 < asked <= now
      requires read.Some? ==> read.value == store[|store| - 1].blob
      modifies this
      ensures Valid() && clock == now && store == old(store)
      ensures loads == old(loads) || loads == old(loads) + [Reloaded(asked, now, miss)]
      ensures loads != old(loads) <==>
                needed && old(lastLoadAttempt) < asked && (miss ==> missInterval <= asked - old(lastForcedReload))
      ensures loads != old(loads) && read.Some? ==>
                InStep() && loaded && cache == read.value.data && cacheVersion == Some(read.value.version) && CurrentAt(now)
      ensures loads == old(loads) || read.None? ==>
                && cache == old(cache) && cacheVersion == old(cacheVersion) && loadedAt == old(loadedAt)
                && held == old(held) && loaded == old(loaded) && lastVersionCheck == old(lastVersionCheck)
      ensures old(InStep()) && read.Some? ==> InStep()
      ensures loads != old(loads) && read.Some? ==> loadedAt == lastVersionCheck == now
      ensures lastLoadAttempt == if loads != old(loads) then now else old(lastLoadAttempt)
      ensures lastForcedReload == if loads != old(loads) && miss then asked else old(lastForcedReload)
    {
      hide InTurn;
      hide Spaced;
      hide Throttled;
      hide InOrder;
      clock := now;
      if !needed || lastLoadAttempt >= asked {
        return;
      }
      if miss && asked - lastForcedReload < missInterval {
        return;
      }
      ThrottledGrows(loads, missInterval, lastLoadAttempt, lastForcedReload, Reloaded(asked, now, miss));
      if miss {
        lastForcedReload := asked;
      }
      lastLoadAttempt := now;
      loads := loads + [Reloaded(asked, now, miss)];
      if read.Some? {
        cache, cacheVersion := read.value.data, Some(read.value.version);
        loadedAt, lastVersionCheck := now, now;
        held, loaded := |store| - 1, true;
      }
    }

    /** _check_store_version: reload if the store's version is not the recorded one. */
    method CheckStoreVersion(now: int, blob: Blob)
      requires InStep() && clock <= now && 0 < now && cache != map[] && blob == store[|store| - 1].blob
      modifies this
      ensures InStep() && clock == now && store == old(store)
      ensures lastVersionCheck == now && loaded && lastForcedReload == old(lastForcedReload)
      ensures CurrentAt(now)
      ensures if loads == old(loads)
              then cache == old(cache) && loadedAt == old(loadedAt) && lastLoadAttempt == old(lastLoadAttempt)
              else cache == blob.data && loadedAt == lastLoadAttempt == now && loads == old(loads) + [Reloaded(now, now, false)]
      ensures loads != old(loads) <==>
                old(lastVersionCheck) < now && old(lastLoadAttempt) < now && old(cacheVersion) != Some(blob.version)
    {
      hide InTurn;
      hide Spaced;
      hide Throttled;
      hide InOrder;
      clock := now;
      if lastVersionCheck >= now {
        return;
      }
      lastVersionCheck := now;
      if cacheVersion == Some(blob.version) {
        held := |store| - 1;
      } else {
        Reload(now, now, true, false, Some(blob));
      }
    }

    /** The cache is empty, or past its time limit and due for another try. */
    ghost predicate ColdOrStale(now: int)
      reads this
    {
      cache == map[] || (now - loadedAt > ttl && now - lastLoadAttempt >= missInterval)
    }

    ghost predicate CheckDue(now: int)
      reads this
    {
      now - lastVersionCheck >= checkInterval
    }

    /** validate_proxy_key, with a store that answers and takes no time: the entry the key's hash
        has in a version of the store that was still current within the check interval, and in the
        current one when a reload or a check was due. A key the store has is found whenever a miss
        may force a reload; and the store is loaded at most once, and not without a reason. */
    method Validate(now: int, hash: Hash, blob: Blob) returns (entry: Option<Entry>)
      requires InStep() && clock <= now && 0 < now && blob == store[|store| - 1].blob
      modifies this
      ensures InStep() && clock == now && store == old(store)
      ensures CurrentAt(now - checkInterval)
      ensures entry == if hash in cache then Some(cache[hash]) else None
      ensures old(ColdOrStale(now) || CheckDue(now)) ==> CurrentAt(now)
      ensures hash in blob.data && old(lastLoadAttempt) < now && missInterval <= now - old(lastForcedReload) ==> entry.Some?
      ensures loads != old(loads) ==>
                || (loads == old(loads) + [Reloaded(now, now, true)] && hash !in old(cache))
                || (loads == old(loads) + [Reloaded(now, now, false)]
                    && old(ColdOrStale(now) || (CheckDue(now) && cacheVersion != Some(blob.version))))
      ensures if loads == old(loads) then loadedAt == old(loadedAt) && cache == old(cache)
              else loadedAt == lastLoadAttempt == now && cache == blob.data
    {
      hide InTurn;
      hide Spaced;
      hide Throttled;
      hide InOrder;
      clock := now;
      if cache == map[] || (now - loadedAt > ttl && now - lastLoadAttempt >= missInterval) {
        Reload(now, now, cache == map[] || now - loadedAt > ttl, false, Some(blob));
      }
      if cache != map[] && now - lastVersionCheck >= checkInterval {
        CheckStoreVersion(now, blob);
      }
      if hash !in cache {
        Reload(now, now, hash !in cache, true, Some(blob));
      }
      return if hash in cache then Some(cache[hash]) else None;
    }
  }

  function MissCount(loads: seq<Reloaded>): nat {
    if loads == [] then 0 else
      MissCount(loads[..|loads| - 1]) + if loads[|loads| - 1].miss then 1 else 0
  }

  lemma OneMoreInterval(c: nat, interval: nat)
    requires c > 0
    ensures c * interval == (c - 1) * interval + interval
  {
  }

  /** However many lookups miss, the store is loaded for a miss at most once an interval: of n such
      loads asked for from a time on, one was asked for n - 1 intervals later or more. */
  lemma {:induction false} MissLoadsAreRare(loads: seq<Reloaded>, interval: nat, from: int) returns (i: nat)
    requires Spaced(loads, interval) && MissCount(loads) > 0
    requires forall k | 0 <= k < |loads| :: from <= loads[k].asked
    ensures i < |loads| && loads[i].miss && from + (MissCount(loads) - 1) * interval <= loads[i].asked
    decreases |loads|
  {
    var n, c := |loads| - 1, MissCount(loads[..|loads| - 1]);
    if c == 0 {
      i := n;
    } else {
      i := MissLoadsAreRare(loads[..n], interval, from);
      if loads[n].miss {
        OneMoreInterval(c, interval);
        assert loads[..n][i] == loads[i];
        i := n;
      }
    }
  }

  lemma {:induction false} MissCountIs(loads: seq<Reloaded>)
    ensures MissCount(loads) == |set i | 0 <= i < |loads| && loads[i].miss|
  {
    if loads == [] {
    } else {
      var n := |loads| - 1;
      MissCountIs(loads[..n]);
      var before, all := set i | 0 <= i < n && loads[..n][i].miss, set i | 0 <= i < |loads| && loads[i].miss;
      assert all == before + if loads[n].miss then {n} else {};
    }
  }

  /** So it is of the loads of any cache, however it was used. */
  lemma CacheMissesAreRare(c: KeyCache, from: int) returns (i: nat)
    requires c.Valid() && MissCount(c.loads) > 0
    requires forall k | 0 <= k < |c.loads| :: from <= c.loads[k].asked
    ensures i < |c.loads| && c.loads[i].miss && from + (MissCount(c.loads) - 1) * c.missInterval <= c.loads[i].asked
  {
    i := MissLoadsAreRare(c.loads, c.missInterval, from);
  }
}
