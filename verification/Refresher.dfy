/** Several instances over one key table, each validating from its own cache, which a
    CacheRefresher keeps in step (src/proxy/auth/pg_key_store.py and api_key_manager.py).
    An instance reads the table asynchronously, so a read may be overtaken by later commits. */
module Refresher {
  import opened KeyEntry
  import opened Options
  import opened KeyTable
  import opened Lifecycle

  // ------------------------------------------------------------------ one refresher

  /** The requests a CacheRefresher has not taken yet: for every key, and for some tenants. */
  datatype Pending = Pending(full: bool, tenants: set<Tenant>)

  const NOTHING := Pending(false, {})

  function Asked(p: Pending, tenant: Option<Tenant>): Pending {
    if tenant.None? then p.(full := true) else p.(tenants := p.tenants + {tenant.value})
  }

  /** With nothing pending, a wait that ends by its timeout asks for everything. */
  function Waited(p: Pending, timedOut: bool): Pending {
    if p == NOTHING && timedOut then Asked(p, None) else p
  }

  class CacheRefresher {
    var full: bool
    var tenants: set<Tenant>
    var wake: bool

    function Waiting(): Pending
      reads this
    {
      Pending(full, tenants)
    }

    constructor ()
      ensures Waiting() == Pending(true, {}) && !wake
    {
      full, tenants, wake := true, {}, false;
    }

    method Request(tenant: Option<Tenant>)
      modifies this
      ensures Waiting() == Asked(old(Waiting()), tenant) && wake
    {
      if tenant.None? {
        full := true;
      } else {
        tenants := tenants + {tenant.value};
      }
      wake := true;
    }

    /** One turn of run() up to its read. Nothing requested so far is left behind. */
    method TakePending(timedOut: bool) returns (all: bool, some: set<Tenant>)
      modifies this
      ensures Waiting() == NOTHING && !wake
      ensures Pending(all, some) == Waited(old(Waiting()), timedOut)
    {
      if !(full || tenants != {}) && timedOut {
        full := true;
      }
      wake := false;
      all, some := full, tenants;
      full, tenants := false, {};
    }

    /** The read failed: everything is read again. */
    method Failed()
      modifies this`full
      ensures Waiting() == Asked(old(Waiting()), None)
    {
      full := true;
    }
  }

  /** replace_tenants_in_cache: these tenants' keys swapped for entries. */
  function ReplaceTenants(cache: Store, tenants: set<Tenant>, entries: Store): Store {
    (map h | h in cache && !(exists t | t in tenants :: OwnedBy(cache[h], t)) :: cache[h]) + entries
  }

  // ------------------------------------------------------------------ the system

  datatype Reading =
    | NoRead
    | Taken(all: bool, some: set<Tenant>)
    | Got(all: bool, some: set<Tenant>, data: Store, overtaken: bool)   // overtaken: by this instance's own commit

  /** A local write between its commit and the assignment of the cache. */
  datatype Writing = Idle | Committed(tenant: Tenant, store: Store)

  datatype Node = Node(
    cache: Store, pending: Pending, reading: Reading, writing: Writing,
    unsent: multiset<Tenant>,    // written here, not announced yet
    inbox: multiset<Tenant>,     // announcements in transit to this instance
    missed: set<Tenant>)         // changes this instance was never told of since it last took a full reload

  datatype Sys = Sys(db: Db, nodes: seq<Node>)

  datatype Step =
    | Commit(node: nat, op: Op, order: seq<Hash>)
    | Assign(node: nat)
    | Announce(node: nat, tenant: Tenant)
    | Deliver(node: nat, tenant: Tenant)
    | Lose(node: nat, tenant: Tenant)
    | AskFull(node: nat)
    | Take(node: nat)
    | Read(node: nat)
    | ReadFails(node: nat)
    | ApplyRead(node: nat)
    | SyncInsert(hash: Hash, entry: Entry)

  function Mutation(s: Sys, op: Op, order: seq<Hash>): Mutated<nat> {
    Mutate(View(s.db), order, op)
  }

  /** The hashes a call may add are new: never in the table, live or revoked. */
  predicate NewKey(db: Db, op: Op) {
    op.Create? || op.Rotate? ==> op.hash !in db.table && op.hash !in db.revoked
  }

  predicate Enabled(s: Sys, step: Step) {
    match step
    case Commit(i, op, order) =>
      && i < |s.nodes| && s.nodes[i].writing.Idle?
      && Orders(order, View(s.db)) && NewKey(s.db, op)
      && Mutation(s, op, order).Done? && Transacted(s.db, Mutation(s, op, order)).Some?
    case Assign(i) => i < |s.nodes| && s.nodes[i].writing.Committed?
    case Announce(i, t) => i < |s.nodes| && t in s.nodes[i].unsent
    case Deliver(i, t) => i < |s.nodes| && t in s.nodes[i].inbox
    case Lose(i, t) => i < |s.nodes| && t in s.nodes[i].inbox
    case AskFull(i) => i < |s.nodes|
    case Take(i) => i < |s.nodes| && s.nodes[i].reading.NoRead?
    case Read(i) => i < |s.nodes| && s.nodes[i].reading.Taken?
    case ReadFails(i) => i < |s.nodes| && s.nodes[i].reading.Taken?
    case ApplyRead(i) => i < |s.nodes| && s.nodes[i].reading.Got?
    case SyncInsert(hash, entry) => RowArgs(entry).Some?
  }

  function With(s: Sys, i: nat, node: Node): Sys
    requires i < |s.nodes|
  {
    s.(nodes := s.nodes[i := node])
  }

  function Tell(echo: bool, from: nat, i: nat, node: Node, tenant: Tenant): Node {
    if i != from then node.(inbox := node.inbox + multiset{tenant})
    else if echo then node.(unsent := node.unsent - multiset{tenant}, inbox := node.inbox + multiset{tenant})
    else node.(unsent := node.unsent - multiset{tenant})
  }

  /** A write has committed; a read already made is overtaken by it. */
  function Committing(n: Node, tenant: Tenant, store: Store): Node {
    n.(writing := Committed(tenant, store),
       reading := if n.reading.Got? then n.reading.(overtaken := true) else n.reading)
  }

  /** The rows load_all or load_tenants reads. */
  function Load(db: Db, all: bool, some: set<Tenant>): Store {
    if all then View(db) else map h | h in db.table && db.table[h].tenantId in some :: View(db)[h]
  }

  /** The cache with the read installed. */
  function Applied(n: Node): Store
    requires n.reading.Got?
  {
    if n.reading.all then n.reading.data else ReplaceTenants(n.cache, n.reading.some, n.reading.data)
  }

  /** The system after a step. echo: an announcement reaches its own sender as well. */
  function Next(echo: bool, s: Sys, step: Step): Sys
    requires Enabled(s, step)
  {
    match step
    case Commit(i, op, order) =>
      var (db, store) := Transacted(s.db, Mutation(s, op, order)).value;
      Sys(db, s.nodes[i := Committing(s.nodes[i], op.tenant, store)])
    case Assign(i) =>
      var n := s.nodes[i];
      With(s, i, n.(cache := n.writing.store, writing := Idle, unsent := n.unsent + multiset{n.writing.tenant}))
    case Announce(i, t) =>
      s.(nodes := seq(|s.nodes|, j requires 0 <= j < |s.nodes| => Tell(echo, i, j, s.nodes[j], t)))
    case Deliver(i, t) =>
      var n := s.nodes[i];
      With(s, i, n.(inbox := n.inbox - multiset{t}, pending := Asked(n.pending, Some(t))))
    case Lose(i, t) =>
      var n := s.nodes[i];
      With(s, i, n.(inbox := n.inbox - multiset{t}, missed := n.missed + {t}))
    case AskFull(i) => With(s, i, s.nodes[i].(pending := Asked(s.nodes[i].pending, None)))
    case Take(i) =>
      var n := s.nodes[i];
      With(s, i, n.(reading := Taken(n.pending.full, n.pending.tenants), pending := NOTHING,
                    missed := if n.pending.full then {} else n.missed))
    case Read(i) =>
      var n := s.nodes[i];
      With(s, i, n.(reading := Got(n.reading.all, n.reading.some, Load(s.db, n.reading.all, n.reading.some), false)))
    case ReadFails(i) => With(s, i, s.nodes[i].(reading := NoRead, pending := Asked(s.nodes[i].pending, None)))
    case ApplyRead(i) =>
      var n := s.nodes[i];
      With(s, i, n.(cache := Applied(n), reading := NoRead))
    case SyncInsert(hash, entry) =>
      var db := Insert(s.db, hash, RowArgs(entry).value);
      Sys(db, seq(|s.nodes|, j requires 0 <= j < |s.nodes| =>
            s.nodes[j].(missed := s.nodes[j].missed + {RowArgs(entry).value.tenantId})))
  }

  function Initial(db: Db, count: nat): Sys {
    Sys(db, seq(count, _ => Node(map[], Pending(true, {}), NoRead, Idle, multiset{}, multiset{}, {})))
  }

  /** A run: every step is enabled where it is taken. */
  predicate Runs(echo: bool, s: Sys, steps: seq<Step>)
    decreases |steps|
  {
    steps == [] || (Enabled(s, steps[0]) && Runs(echo, Next(echo, s, steps[0]), steps[1..]))
  }

  function End(echo: bool, s: Sys, steps: seq<Step>): Sys
    requires Runs(echo, s, steps)
    decreases |steps|
  {
    if steps == [] then s else End(echo, Next(echo, s, steps[0]), steps[1..])
  }

  // ------------------------------------------------------------------ agreement

  function Slice(store: Store, tenant: Tenant): Store {
    map h | h in store && OwnedBy(store[h], tenant) :: store[h]
  }

  /** store holds exactly this tenant's keys as the table has them now. */
  predicate Fresh(s: Sys, store: Store, tenant: Tenant) {
    Slice(store, tenant) == Slice(View(s.db), tenant)
  }

  /** Node j has committed a change of the tenant and not announced it yet. */
  predicate Owes(s: Sys, j: nat, tenant: Tenant)
    requires j < |s.nodes|
  {
    tenant in s.nodes[j].unsent || (s.nodes[j].writing.Committed? && s.nodes[j].writing.tenant == tenant)
  }

  /** Node i is still going to take a re-read of the tenant. */
  predicate Later(echo: bool, s: Sys, i: nat, tenant: Tenant)
    requires i < |s.nodes|
  {
    || (exists j: nat | j < |s.nodes| :: (j != i || echo) && Owes(s, j, tenant))
    || tenant in s.nodes[i].inbox || s.nodes[i].pending.full || tenant in s.nodes[i].pending.tenants
  }

  predicate Covers(r: Reading, tenant: Tenant) {
    !r.NoRead? && (r.all || tenant in r.some)
  }

  /** The read in progress will install the tenant's keys as they are now. */
  predicate InRead(s: Sys, i: nat, tenant: Tenant)
    requires i < |s.nodes|
  {
    var r := s.nodes[i].reading;
    Covers(r, tenant) && (r.Taken? || Fresh(s, r.data, tenant))
  }

  /** This instance has committed a write since the read that waits to be applied. */
  predicate Overtaken(n: Node) {
    n.reading.Got? && n.reading.overtaken
  }

  /** Why a store held at node i may differ from the table on the tenant. */
  predicate Excused(echo: bool, s: Sys, i: nat, tenant: Tenant)
    requires i < |s.nodes|
  {
    Later(echo, s, i, tenant) || tenant in s.nodes[i].missed
  }

  predicate CacheOk(echo: bool, s: Sys, i: nat, tenant: Tenant)
    requires i < |s.nodes|
  {
    var n := s.nodes[i];
    || Fresh(s, n.cache, tenant) || Excused(echo, s, i, tenant) || n.writing.Committed?
    || (InRead(s, i, tenant) && !Overtaken(n))
  }

  predicate ReadOk(echo: bool, s: Sys, i: nat, tenant: Tenant)
    requires i < |s.nodes|
  {
    var n := s.nodes[i];
    n.reading.Got? && Covers(n.reading, tenant) ==>
      Fresh(s, n.reading.data, tenant) || Excused(echo, s, i, tenant) || (!echo && Overtaken(n))
  }

  /** A store written after the read was made does not depend on it. */
  predicate WriteOk(echo: bool, s: Sys, i: nat, tenant: Tenant)
    requires i < |s.nodes|
  {
    var n := s.nodes[i];
    n.writing.Committed? ==>
      Fresh(s, n.writing.store, tenant) || Excused(echo, s, i, tenant) || (InRead(s, i, tenant) && !Overtaken(n))
  }

  /** The tenant every hash has belonged to since it was first seen. */
  function Home(db: Db): map<Hash, Tenant> {
    (map h | h in db.table :: db.table[h].tenantId) + db.revoked
  }

  predicate Homed(store: Store, home: map<Hash, Tenant>) {
    forall h | h in store :: h in home && OwnedBy(store[h], home[h])
  }

  predicate AtHome(s: Sys, i: nat)
    requires i < |s.nodes|
  {
    var n := s.nodes[i];
    && Homed(n.cache, Home(s.db))
    && (n.reading.Got? ==>
          && Homed(n.reading.data, Home(s.db))
          && (!n.reading.all ==> forall h | h in n.reading.data :: Home(s.db)[h] in n.reading.some))
    && (n.writing.Committed? ==> Homed(n.writing.store, Home(s.db)))
  }

  ghost predicate Inv(echo: bool, s: Sys, i: nat) {
    && Valid(s.db) && i < |s.nodes| && AtHome(s, i)
    && forall t: Tenant :: CacheOk(echo, s, i, t) && ReadOk(echo, s, i, t) && WriteOk(echo, s, i, t)
  }

  /** What applying the read now must not do, tenant by tenant. A store that waits to be assigned
      was made before the read unless it overtook it, so it has to say what the read says; and a
      read that was overtaken by a write since assigned has to say what the cache says. */
  predicate ApplyHarmless(n: Node, tenant: Tenant)
    requires n.reading.Got?
  {
    if n.writing.Committed? then n.reading.overtaken || Slice(n.writing.store, tenant) == Slice(n.reading.data, tenant)
    else n.reading.overtaken ==> Slice(n.cache, tenant) == Slice(n.reading.data, tenant)
  }

  /** A key created with a tier of only spaces, which readers of its row see as "free". */
  predicate Blank(op: Op) {
    op.Create? && op.tier == ""
  }

  /** Node i may take the step. Only two of its own steps can do harm: applying a read, and
      creating a key with a blank tier when the announcement does not come back to it. */
  ghost predicate Guarded(echo: bool, s: Sys, step: Step, i: nat)
    requires i < |s.nodes| && Enabled(s, step)
  {
    match step
    case ApplyRead(k) =>
      k == i ==> forall t: Tenant | Covers(s.nodes[i].reading, t) && !Excused(echo, s, i, t) :: ApplyHarmless(s.nodes[i], t)
    case Commit(k, op, _) =>
      k == i && Blank(op) ==>
        echo || Excused(echo, s, i, op.tenant) || (s.nodes[i].reading.Taken? && Covers(s.nodes[i].reading, op.tenant))
    case _ => true
  }

  // ------------------------------------------------------------------ what a commit does

  lemma ViewIsHomed(db: Db)
    requires Valid(db)
    ensures Homed(View(db), Home(db)) && AllNormal(View(db))
  {
    forall h | h in View(db)
      ensures Normal(View(db)[h]) && OwnedBy(View(db)[h], db.table[h].tenantId)
    {
      MetaFields(db.table[h]);
      MetaIsNormal(db.table[h]);
    }
  }

  predicate Extends(home: map<Hash, Tenant>, home': map<Hash, Tenant>) {
    forall h | h in home :: h in home' && home'[h] == home[h]
  }

  /** A lifecycle transaction touches no other tenant's keys, moves no key between tenants, and
      hands back the table it committed, unless it creates a key with a blank tier: then what it
      hands back differs from the table on that key's tenant. */
  lemma CommitEffect(db: Db, op: Op, order: seq<Hash>)
    requires Valid(db) && NewKey(db, op)
    requires var m := Mutate(View(db), order, op); m.Done? && Transacted(db, m).Some?
    ensures var (db', store) := Transacted(db, Mutate(View(db), order, op)).value;
            && Valid(db') && Homed(store, Home(db'))
            && Extends(Home(db), Home(db'))
            && (forall t | t != op.tenant :: Slice(View(db'), t) == Slice(View(db), t))
            && (forall t | t != op.tenant :: Slice(store, t) == Slice(View(db'), t))
            && (!Blank(op) ==> store == View(db'))
            && (Blank(op) ==> Slice(store, op.tenant) != Slice(View(db'), op.tenant)
                              && op.hash !in Home(db) && op.hash in Slice(View(db'), op.tenant))
  {
    hide *;
    if Blank(op) {
      BlankCommit(db, op, order);
    } else {
      PlainCommit(db, op, order);
    }
    BlankIs(op);
  }

  lemma BlankIs(op: Op)
    ensures Blank(op) ==> op.Create? && op.tier == ""
    ensures !Blank(op) && op.Create? ==> op.tier != ""
  {
  }

  lemma PlainCommit(db: Db, op: Op, order: seq<Hash>)
    requires Valid(db) && NewKey(db, op) && !Blank(op)
    requires var m := Mutate(View(db), order, op); m.Done? && Transacted(db, m).Some?
    ensures var (db', store) := Transacted(db, Mutate(View(db), order, op)).value;
            && Valid(db') && store == View(db') && Homed(store, Home(db'))
            && Extends(Home(db), Home(db'))
            && forall t | t != op.tenant :: Slice(View(db'), t) == Slice(View(db), t)
  {
    hide Mutate;
    hide RowArgs;
    hide RowToMeta;
    hide Normal;
    hide OwnedBy;
    hide Diffed;
    hide Slice;
    hide Home;
    var m := Mutate(View(db), order, op);
    var db' := Transacted(db, m).value.0;
    ViewIsHomed(db);
    assert IssuesNewKey(View(db), op);
    CallIsConfined(View(db), order, op);
    if m.changed {
      CallKeepsNormal(View(db), order, op);
      DiffKeeps(db, m.store);
      CallAddsNew(View(db), order, op);
      CommittedIsView(db, m, op);
      ViewIsHomed(db');
      CommitSlices(View(db), View(db'), op.tenant);
      DiffBuries(db, m.store);
      CommitHome(db, db', op.tenant);
    } else {
      UnchangedIsUntouched(View(db), order, op);
      assert Extends(Home(db), Home(db'));
    }
  }

  lemma BlankEntry(db: Db, op: Op, order: seq<Hash>) returns (e: Entry)
    requires NewKey(db, op) && Blank(op) && Mutate(View(db), order, op).Done?
    ensures Mutate(View(db), order, op) == Done(true, 1, View(db)[op.hash := e])
    ensures e.Record? && Get(e.fields, TenantId) == Str(op.tenant) && Get(e.fields, Tier) == Str("")
  {
    hide NewFields;
    hide TenantAllowlist;
    e := Mutate(View(db), order, op).store[op.hash];
    CreateGives(View(db), order, op);
  }

  lemma BlankIsNotNormal(e: Entry)
    requires e.Record? && Get(e.fields, Tier) == Str("")
    ensures !Normal(e)
  {
  }

  lemma RowTenant(e: Entry, row: Row, tenant: Tenant)
    requires e.Record? && Get(e.fields, TenantId) == Str(tenant) && RowArgs(e) == Some(row)
    ensures row.tenantId == tenant
  {
  }

  lemma OneRow(hash: Hash, e: Entry)
    requires RowArgs(e).Some?
    ensures Encodes(map[hash := e]) && Rows(map[hash := e]) == map[hash := RowArgs(e).value]
  {
    hide RowArgs;
  }

  lemma KeepOne(store: Store, hash: Hash, e: Entry)
    ensures Keep(store[hash := e], {hash}) == map[hash := e]
  {
    assert Keep(store[hash := e], {hash})[hash] == e;
  }

  /** A transaction that adds one entry adds its row, and hands back the entry as it was made. */
  lemma AddsOne(db: Db, hash: Hash, e: Entry) returns (row: Row)
    requires Valid(db) && hash !in db.table && hash !in db.revoked
    requires Transacted<nat>(db, Done(true, 1, View(db)[hash := e])).Some?
    ensures RowArgs(e) == Some(row)
    ensures Transacted<nat>(db, Done(true, 1, View(db)[hash := e]))
         == Some((Db(db.table[hash := row], db.revoked), View(db)[hash := e]))
  {
    hide *;
    var after := View(db)[hash := e];
    EntryEncodes(db, hash, e);
    row := RowArgs(e).value;
    OneNewEntry(db, hash, e);
    DiffedIs(db, after);
    KeepOne(View(db), hash, e);
    OneRow(hash, e);
    NothingBuried(db, hash, e);
    TransactedIs(db, Done(true, 1, after));
    assert db.table + map[hash := row] == db.table[hash := row];
    assert after - {} == after;
  }

  lemma TransactedIs(db: Db, m: Mutated<nat>)
    requires m.Done? && m.changed
    ensures Transacted(db, m)
         == if Diffed(db, m.store).Some? then Some((Diffed(db, m.store).value, m.store - Refused(db, m.store))) else None
  {
    hide Diffed;
    hide Refused;
  }

  lemma EntryEncodes(db: Db, hash: Hash, e: Entry)
    requires Valid(db) && hash !in db.table && hash !in db.revoked
    requires Transacted<nat>(db, Done(true, 1, View(db)[hash := e])).Some?
    ensures RowArgs(e).Some?
  {
    hide RowArgs;
    hide RowToMeta;
    var after := View(db)[hash := e];
    DiffedRows(db, after);
    assert View(db).Keys - after.Keys == {};
    assert hash in Upserts(View(db), after);
  }

  lemma NothingBuried(db: Db, hash: Hash, e: Entry)
    requires hash !in db.revoked
    ensures Bury(db, db.table.Keys - View(db)[hash := e].Keys) == db
    ensures Dead(db, View(db)[hash := e]) == db.revoked
    ensures hash !in db.table ==> Refused(db, View(db)[hash := e]) == {}
  {
    hide RowToMeta;
    assert db.table.Keys - View(db)[hash := e].Keys == {};
    assert db.table - {} == db.table;
    assert View(db).Keys - View(db)[hash := e].Keys == {};
  }

  lemma BlankCommit(db: Db, op: Op, order: seq<Hash>)
    requires Valid(db) && NewKey(db, op) && Blank(op)
    requires var m := Mutate(View(db), order, op); m.Done? && Transacted(db, m).Some?
    ensures var (db', store) := Transacted(db, Mutate(View(db), order, op)).value;
            && Valid(db') && Homed(store, Home(db'))
            && Extends(Home(db), Home(db'))
            && (forall t | t != op.tenant :: Slice(View(db'), t) == Slice(View(db), t))
            && (forall t | t != op.tenant :: Slice(store, t) == Slice(View(db'), t))
            && Slice(store, op.tenant) != Slice(View(db'), op.tenant)
            && op.hash !in Home(db) && op.hash in Slice(View(db'), op.tenant)
  {
    var e := BlankEntry(db, op, order);
    hide *;
    NewKeyIs(db, op);
    var row := AddsOne(db, op.hash, e);
    RowArgsClean(e);
    BlankIsNotNormal(e);
    RowTenant(e, row, op.tenant);
    RoundTripIffNormal(e);
    InsertIs(db, op.hash, row);
    InsertEffect(db, op.hash, row);
    ViewInsert(db, op.hash, row);
    ViewIsHomed(db);
    MetaOwned(row);
    OwnedIs(e, op.tenant);
    var before, made, seen := View(db), View(db)[op.hash := e], View(db)[op.hash := Record(RowToMeta(row))];
    BlankSlices(before, made, seen, op.hash, op.tenant);
    HomedMore(before, op.hash, e, Home(db), Home(Insert(db, op.hash, row)));
  }

  lemma NewKeyIs(db: Db, op: Op)
    requires NewKey(db, op) && Blank(op)
    ensures op.Create? && op.hash !in db.table && op.hash !in db.revoked && op.hash !in Home(db) && op.hash !in View(db)
  {
  }

  lemma InsertIs(db: Db, hash: Hash, row: Row)
    requires hash !in db.table && hash !in db.revoked
    ensures Insert(db, hash, row) == Db(db.table[hash := row], db.revoked) == db.(table := db.table[hash := row])
    ensures hash in Home(Insert(db, hash, row)) && Home(Insert(db, hash, row))[hash] == row.tenantId
  {
  }

  lemma MetaOwned(row: Row)
    requires Clean(row)
    ensures OwnedBy(Record(RowToMeta(row)), row.tenantId)
  {
    MetaFields(row);
  }

  lemma OwnedIs(e: Entry, tenant: Tenant)
    requires e.Record? && Get(e.fields, TenantId) == Str(tenant)
    ensures OwnedBy(e, tenant)
  {
  }

  lemma HomedMore(store: Store, h: Hash, e: Entry, home: map<Hash, Tenant>, home': map<Hash, Tenant>)
    requires Homed(store, home) && Extends(home, home') && h in home' && OwnedBy(e, home'[h])
    ensures Homed(store[h := e], home')
  {
    hide OwnedBy;
  }

  /** Two versions of a new entry of one tenant make a difference to that tenant only. */
  lemma BlankSlices(store: Store, a: Store, b: Store, h: Hash, tenant: Tenant)
    requires h !in store && h in a && h in b && a == store[h := a[h]] && b == store[h := b[h]]
    requires OwnedBy(a[h], tenant) && OwnedBy(b[h], tenant) && a[h] != b[h]
    ensures Slice(a, tenant) != Slice(b, tenant) && h in Slice(b, tenant)
    ensures forall t | t != tenant :: Slice(a, t) == Slice(store, t) && Slice(b, t) == Slice(store, t)
  {
    assert Slice(a, tenant)[h] == a[h] && Slice(b, tenant)[h] == b[h];
    forall t | t != tenant ensures Slice(a, t) == Slice(store, t) && Slice(b, t) == Slice(store, t) {
      SliceUpdate(store, h, a[h], t);
      SliceUpdate(store, h, b[h], t);
    }
  }

  lemma CallAddsNew(store: Store, order: seq<Hash>, op: Op)
    requires Mutate(store, order, op).Done?
    ensures forall h | h in Mutate(store, order, op).store && h !in store ::
              (op.Create? || op.Rotate?) && h == op.hash
  {
    hide NewFields;
    hide RotatedFields;
    hide RotatedEntry;
    hide TenantAllowlist;
    hide Owned;
    hide OwnedBy;
    hide StampedEntry;
  }

  lemma DiffBuries(db: Db, after: Store)
    requires Valid(db) && Diffed(db, after).Some?
    ensures var db' := Diffed(db, after).value;
            forall h | h in db.table && h !in db'.table :: h in db'.revoked && db'.revoked[h] == db.table[h].tenantId
  {
    hide RowArgs;
    hide RowToMeta;
    DiffedRows(db, after);
  }

  lemma CommittedIsView(db: Db, m: Mutated<nat>, op: Op)
    requires Valid(db) && m.Done? && m.changed && Transacted(db, m).Some?
    requires AllNormal(m.store)
    requires forall h | h in m.store && h !in db.table :: h !in db.revoked
    ensures var (db', store) := Transacted(db, m).value;
            store == View(db') && store == m.store
  {
    hide RowArgs;
    hide RowToMeta;
    hide Normal;
    CachedIsTableIff(db, m);
    UpsertsWithin(View(db), m.store);
    assert Refused(db, m.store) == {};
    assert m.store - {} == m.store;
  }

  lemma CommitSlices(before: Store, after: Store, tenant: Tenant)
    requires forall h | h in before && !OwnedBy(before[h], tenant) :: h in after && after[h] == before[h]
    requires forall h | h in after && !OwnedBy(after[h], tenant) :: h in before && after[h] == before[h]
    ensures forall t | t != tenant :: Slice(after, t) == Slice(before, t)
  {
  }

  lemma CommitHome(db: Db, db': Db, tenant: Tenant)
    requires Valid(db) && Valid(db') && Grows(db, db') && RemovalsRecorded(db, db')
    requires Homed(View(db), Home(db)) && Homed(View(db'), Home(db'))
    requires forall h | h in db.table && h !in db'.table :: db'.revoked[h] == db.table[h].tenantId
    requires var before, after := View(db), View(db');
             && (forall h | h in before && !OwnedBy(before[h], tenant) :: h in after && after[h] == before[h])
             && (forall h | h in after && !OwnedBy(after[h], tenant) :: h in before && after[h] == before[h])
    ensures Extends(Home(db), Home(db'))
  {
    hide RowToMeta;
    forall h | h in db.table && h in db'.table ensures db.table[h].tenantId == db'.table[h].tenantId {
      assert OwnedBy(View(db)[h], Home(db)[h]) && OwnedBy(View(db')[h], Home(db')[h]);
    }
  }

  // ------------------------------------------------------------------ every step keeps the invariant

  /** A step of another node that goes on owing what it owed. */
  lemma OtherNode(echo: bool, s: Sys, k: nat, node: Node, i: nat)
    requires k < |s.nodes| && i != k && Inv(echo, s, i)
    requires forall t | Owes(s, k, t) :: Owes(With(s, k, node), k, t)
    ensures Inv(echo, With(s, k, node), i)
  {
    hide Slice;
    hide View;
    hide Homed;
    hide Valid;
    var s' := With(s, k, node);
    forall t: Tenant ensures CacheOk(echo, s', i, t) && ReadOk(echo, s', i, t) && WriteOk(echo, s', i, t) {
      assert CacheOk(echo, s, i, t) && ReadOk(echo, s, i, t) && WriteOk(echo, s, i, t);
      OwesKept(echo, s, k, node, i, t);
    }
  }

  lemma OwesKept(echo: bool, s: Sys, k: nat, node: Node, i: nat, tenant: Tenant)
    requires k < |s.nodes| && i < |s.nodes|
    requires Owes(s, k, tenant) ==> Owes(With(s, k, node), k, tenant)
    requires i == k ==> node.inbox == s.nodes[k].inbox && node.pending == s.nodes[k].pending
    ensures Later(echo, s, i, tenant) ==> Later(echo, With(s, k, node), i, tenant)
  {
    var s' := With(s, k, node);
    if j: nat :| j < |s.nodes| && (j != i || echo) && Owes(s, j, tenant) {
      assert Owes(s', j, tenant);
    }
  }

  /** What a commit by node k leaves of node i's agreement on a tenant. Only the creation of a
      blank tier by node i itself, for that key's tenant, can leave less than it found. */
  lemma CommitTenant(echo: bool, s: Sys, s': Sys, k: nat, op: Op, store: Store, i: nat, t: Tenant)
    requires i < |s.nodes| && k < |s.nodes| && s.nodes[k].writing.Idle?
    requires s'.nodes == s.nodes[k := Committing(s.nodes[k], op.tenant, store)]
    requires CacheOk(echo, s, i, t) && ReadOk(echo, s, i, t) && WriteOk(echo, s, i, t)
    requires t != op.tenant ==> Slice(View(s'.db), t) == Slice(View(s.db), t)
    requires t != op.tenant || !Blank(op) ==> Slice(store, t) == Slice(View(s'.db), t)
    ensures CacheOk(echo, s', i, t) && ReadOk(echo, s', i, t)
    ensures !(k == i && t == op.tenant && Blank(op)) ==> WriteOk(echo, s', i, t)
    ensures Excused(echo, s, i, t) ==> Excused(echo, s', i, t)
    ensures t == op.tenant && (echo || i != k) ==> Excused(echo, s', i, t)
    ensures !echo && i == k && Excused(echo, s', i, t) ==> Excused(echo, s, i, t)
  {
    hide Slice;
    hide View;
    assert Owes(s', k, op.tenant);
    if j: nat :| j < |s.nodes| && (j != i || echo) && Owes(s, j, t) {
      assert Owes(s', j, t);
    }
    if j: nat :| j < |s'.nodes| && j != i && Owes(s', j, t) {
      assert i == k ==> Owes(s, j, t);
    }
  }

  lemma StepCommit(echo: bool, s: Sys, k: nat, op: Op, order: seq<Hash>, i: nat)
    requires Enabled(s, Commit(k, op, order)) && Inv(echo, s, i)
    ensures Inv(echo, Next(echo, s, Commit(k, op, order)), i) <==> Guarded(echo, s, Commit(k, op, order), i)
  {
    hide Mutate;
    hide Transacted;
    hide Slice;
    hide View;
    hide Homed;
    hide Valid;
    hide Home;
    hide Orders;
    hide NewKey;
    hide Blank;
    var s' := Next(echo, s, Commit(k, op, order));
    var store := s'.nodes[k].writing.store;
    CommitEffect(s.db, op, order);
    AtHomeStays(s, s', i);
    hide AtHome;
    hide Excused;
    hide CacheOk;
    hide ReadOk;
    hide WriteOk;
    forall t: Tenant
      ensures CacheOk(echo, s', i, t) && ReadOk(echo, s', i, t)
      ensures !(k == i && t == op.tenant && Blank(op)) ==> WriteOk(echo, s', i, t)
    {
      assert CacheOk(echo, s, i, t) && ReadOk(echo, s, i, t) && WriteOk(echo, s, i, t);
      CommitTenant(echo, s, s', k, op, store, i, t);
    }
    if k == i && Blank(op) {
      assert CacheOk(echo, s, i, op.tenant) && ReadOk(echo, s, i, op.tenant) && WriteOk(echo, s, i, op.tenant);
      CommitTenant(echo, s, s', k, op, store, i, op.tenant);
      BlankIs(op);
      CommittedWriteOk(echo, s', i, s.nodes[i], op.tenant, store);
    }
  }

  /** What is asked of a write that has just committed. */
  lemma CommittedWriteOk(echo: bool, s': Sys, i: nat, n: Node, t: Tenant, store: Store)
    requires i < |s'.nodes| && s'.nodes[i] == Committing(n, t, store)
    ensures WriteOk(echo, s', i, t) <==>
              Fresh(s', store, t) || Excused(echo, s', i, t) || (n.reading.Taken? && Covers(n.reading, t))
  {
    hide Fresh;
    hide Excused;
  }

  lemma AtHomeStays(s: Sys, s': Sys, i: nat)
    requires i < |s.nodes| && |s'.nodes| == |s.nodes| && AtHome(s, i) && Extends(Home(s.db), Home(s'.db))
    requires s'.nodes[i].cache == s.nodes[i].cache
    requires s'.nodes[i].reading.Got? ==>
               s.nodes[i].reading.Got? && s'.nodes[i].reading == s.nodes[i].reading.(overtaken := s'.nodes[i].reading.overtaken)
    requires s'.nodes[i].writing.Committed? ==>
               s'.nodes[i].writing == s.nodes[i].writing || Homed(s'.nodes[i].writing.store, Home(s'.db))
    ensures AtHome(s', i)
  {
    hide OwnedBy;
    hide Home;
  }

  lemma InsertEffect(db: Db, hash: Hash, row: Row)
    requires Valid(db) && Clean(row)
    ensures var db' := Insert(db, hash, row);
            && Valid(db') && Extends(Home(db), Home(db'))
            && forall t | t != row.tenantId :: Slice(View(db'), t) == Slice(View(db), t)
  {
    hide RowToMeta;
    hide OwnedBy;
    hide Slice;
    hide Clean;
    hide Valid;
    hide Home;
    var db' := Insert(db, hash, row);
    InsertHome(db, hash, row);
    if db' != db {
      var entry := Record(RowToMeta(row));
      MetaOwner(row);
      ViewInsert(db, hash, row);
      forall t | t != row.tenantId ensures Slice(View(db'), t) == Slice(View(db), t) {
        SliceUpdate(View(db), hash, entry, t);
      }
    }
  }

  lemma InsertHome(db: Db, hash: Hash, row: Row)
    requires Valid(db) && Clean(row)
    ensures Valid(Insert(db, hash, row)) && Extends(Home(db), Home(Insert(db, hash, row)))
  {
    hide Clean;
  }

  lemma MetaOwner(row: Row)
    requires Clean(row)
    ensures forall t | t != row.tenantId :: !OwnedBy(Record(RowToMeta(row)), t)
  {
    MetaFields(row);
  }

  lemma ViewInsert(db: Db, hash: Hash, row: Row)
    ensures View(db.(table := db.table[hash := row])) == View(db)[hash := Record(RowToMeta(row))]
  {
    hide RowToMeta;
  }

  lemma SliceUpdate(store: Store, hash: Hash, entry: Entry, t: Tenant)
    requires hash !in store && !OwnedBy(entry, t)
    ensures Slice(store[hash := entry], t) == Slice(store, t)
  {
    hide OwnedBy;
  }

  lemma StepSync(echo: bool, s: Sys, hash: Hash, entry: Entry, i: nat)
    requires Enabled(s, SyncInsert(hash, entry)) && Inv(echo, s, i)
    ensures Inv(echo, Next(echo, s, SyncInsert(hash, entry)), i)
  {
    hide RowArgs;
    hide Slice;
    hide View;
    hide Homed;
    hide Valid;
    hide Home;
    hide Insert;
    var s' := Next(echo, s, SyncInsert(hash, entry));
    RowArgsClean(entry);
    InsertEffect(s.db, hash, RowArgs(entry).value);
    AtHomeStays(s, s', i);
    forall t: Tenant ensures CacheOk(echo, s', i, t) && ReadOk(echo, s', i, t) && WriteOk(echo, s', i, t) {
      assert CacheOk(echo, s, i, t) && ReadOk(echo, s, i, t) && WriteOk(echo, s, i, t);
      if j: nat :| j < |s.nodes| && (j != i || echo) && Owes(s, j, t) {
        assert Owes(s', j, t);
      }
    }
  }

  lemma AnnounceTenant(echo: bool, s: Sys, s': Sys, i: nat, t: Tenant)
    requires i < |s.nodes| && i < |s'.nodes| && s'.db == s.db
    requires s'.nodes[i].(unsent := s.nodes[i].unsent, inbox := s.nodes[i].inbox) == s.nodes[i]
    requires CacheOk(echo, s, i, t) && ReadOk(echo, s, i, t) && WriteOk(echo, s, i, t)
    requires Later(echo, s, i, t) ==> Later(echo, s', i, t)
    ensures CacheOk(echo, s', i, t) && ReadOk(echo, s', i, t) && WriteOk(echo, s', i, t)
  {
    hide Slice;
    hide View;
    hide Later;
  }

  lemma StepAnnounce(echo: bool, s: Sys, k: nat, tenant: Tenant, i: nat)
    requires Enabled(s, Announce(k, tenant)) && Inv(echo, s, i)
    ensures Inv(echo, Next(echo, s, Announce(k, tenant)), i)
  {
    hide Homed;
    hide Valid;
    hide Later;
    hide CacheOk;
    hide ReadOk;
    hide WriteOk;
    var s' := Next(echo, s, Announce(k, tenant));
    forall t: Tenant ensures CacheOk(echo, s', i, t) && ReadOk(echo, s', i, t) && WriteOk(echo, s', i, t) {
      assert CacheOk(echo, s, i, t) && ReadOk(echo, s, i, t) && WriteOk(echo, s, i, t);
      AnnounceLater(echo, s, k, tenant, i, t);
      AnnounceTenant(echo, s, s', i, t);
    }
  }

  lemma AnnounceLater(echo: bool, s: Sys, k: nat, tenant: Tenant, i: nat, t: Tenant)
    requires Enabled(s, Announce(k, tenant)) && i < |s.nodes|
    ensures Later(echo, s, i, t) ==> Later(echo, Next(echo, s, Announce(k, tenant)), i, t)
  {
    var s' := Next(echo, s, Announce(k, tenant));
    if j: nat :| j < |s.nodes| && (j != i || echo) && Owes(s, j, t) {
      assert Owes(s', j, t) || t in s'.nodes[i].inbox;
    }
  }

  /** The steps of node i's own that leave its stores as they are. */
  lemma OwnStep(echo: bool, s: Sys, step: Step, i: nat)
    requires Enabled(s, step) && Inv(echo, s, i)
    requires step in {Assign(i), AskFull(i), Take(i), Read(i), ReadFails(i)} || (step.Deliver? && step.node == i)
          || (step.Lose? && step.node == i)
    ensures Inv(echo, Next(echo, s, step), i)
  {
    hide Slice;
    hide View;
    hide Homed;
    hide Valid;
    hide Home;
    hide Load;
    var s' := Next(echo, s, step);
    var r := s.nodes[i].reading;
    if step == Read(i) {
      LoadIsFresh(s, r.all, r.some);
    }
    forall t: Tenant ensures CacheOk(echo, s', i, t) && ReadOk(echo, s', i, t) && WriteOk(echo, s', i, t) {
      assert step == Read(i) && Covers(r, t) ==> Fresh(s, Load(s.db, r.all, r.some), t);
      assert CacheOk(echo, s, i, t) && ReadOk(echo, s, i, t) && WriteOk(echo, s, i, t);
      if j: nat :| j < |s.nodes| && (j != i || echo) && Owes(s, j, t) {
        assert Owes(s', j, t);
      }
    }
  }

  lemma LoadIsFresh(s: Sys, all: bool, some: set<Tenant>)
    requires Valid(s.db)
    ensures var data := Load(s.db, all, some);
            && Homed(data, Home(s.db))
            && (!all ==> forall h | h in data :: Home(s.db)[h] in some)
            && forall t | all || t in some :: Fresh(s, data, t)
  {
    hide RowToMeta;
    ViewIsHomed(s.db);
  }

  lemma ReplaceSlices(cache: Store, tenants: set<Tenant>, data: Store, home: map<Hash, Tenant>)
    requires Homed(cache, home) && Homed(data, home)
    requires forall h | h in data :: home[h] in tenants
    ensures Homed(ReplaceTenants(cache, tenants, data), home)
    ensures forall t | t in tenants :: Slice(ReplaceTenants(cache, tenants, data), t) == Slice(data, t)
    ensures forall t | t !in tenants :: Slice(ReplaceTenants(cache, tenants, data), t) == Slice(cache, t)
  {
    hide OwnedBy;
    hide Slice;
    forall t
      ensures t in tenants ==> Slice(ReplaceTenants(cache, tenants, data), t) == Slice(data, t)
      ensures t !in tenants ==> Slice(ReplaceTenants(cache, tenants, data), t) == Slice(cache, t)
    {
      ReplaceSlice(cache, tenants, data, home, t);
    }
  }

  lemma OneOwner(e: Entry, a: Tenant, b: Tenant)
    requires OwnedBy(e, a) && OwnedBy(e, b)
    ensures a == b
  {
  }

  lemma ReplacedAt(cache: Store, tenants: set<Tenant>, data: Store, home: map<Hash, Tenant>, h: Hash)
    requires Homed(cache, home) && Homed(data, home)
    ensures var r := ReplaceTenants(cache, tenants, data);
            && (h in data ==> h in r && r[h] == data[h])
            && (h !in data && h in r ==> h in cache && r[h] == cache[h] && home[h] !in tenants)
            && (h !in data && h in cache && home[h] !in tenants ==> h in r)
  {
    hide OwnedBy;
    if h in cache {
      forall t | OwnedBy(cache[h], t) ensures t == home[h] {
        OneOwner(cache[h], t, home[h]);
      }
    }
  }

  lemma ReplaceSlice(cache: Store, tenants: set<Tenant>, data: Store, home: map<Hash, Tenant>, t: Tenant)
    requires Homed(cache, home) && Homed(data, home)
    requires forall h | h in data :: home[h] in tenants
    ensures Slice(ReplaceTenants(cache, tenants, data), t) == Slice(if t in tenants then data else cache, t)
  {
    hide OwnedBy;
    hide ReplaceTenants;
    var r, from := ReplaceTenants(cache, tenants, data), if t in tenants then data else cache;
    forall h
      ensures h in r && OwnedBy(r[h], t) <==> h in from && OwnedBy(from[h], t)
      ensures h in r && OwnedBy(r[h], t) ==> r[h] == from[h]
    {
      ReplacedAt(cache, tenants, data, home, h);
      if h in data && OwnedBy(data[h], t) {
        OneOwner(data[h], t, home[h]);
      }
      if h in cache && OwnedBy(cache[h], t) {
        OneOwner(cache[h], t, home[h]);
      }
    }
  }

  lemma ReplacedSlices(s: Sys, i: nat)
    requires i < |s.nodes| && s.nodes[i].reading.Got? && AtHome(s, i)
    ensures var n := s.nodes[i];
            var cache := Applied(n);
            && Homed(cache, Home(s.db))
            && (forall t | Covers(n.reading, t) :: Slice(cache, t) == Slice(n.reading.data, t))
            && forall t | !Covers(n.reading, t) :: Slice(cache, t) == Slice(n.cache, t)
  {
    hide Slice;
    hide Homed;
    hide Home;
    hide ReplaceTenants;
    var n := s.nodes[i];
    if !n.reading.all {
      ReplaceSlices(n.cache, n.reading.some, n.reading.data, Home(s.db));
    }
  }

  lemma ApplyTenant(echo: bool, s: Sys, s': Sys, i: nat, t: Tenant)
    requires i < |s.nodes| && s.nodes[i].reading.Got?
    requires s' == With(s, i, s.nodes[i].(cache := Applied(s.nodes[i]), reading := NoRead))
    requires CacheOk(echo, s, i, t) && ReadOk(echo, s, i, t) && WriteOk(echo, s, i, t)
    requires Slice(Applied(s.nodes[i]), t) == Slice(if Covers(s.nodes[i].reading, t) then s.nodes[i].reading.data else s.nodes[i].cache, t)
    ensures Excused(echo, s', i, t) <==> Excused(echo, s, i, t)
    ensures CacheOk(echo, s', i, t) && ReadOk(echo, s', i, t) && WriteOk(echo, s', i, t)
       <==> (Covers(s.nodes[i].reading, t) && !Excused(echo, s, i, t) ==> ApplyHarmless(s.nodes[i], t))
  {
    hide Slice;
    hide View;
    hide Applied;
    assert forall j: nat | j < |s.nodes| :: Owes(s', j, t) <==> Owes(s, j, t);
  }

  lemma StepApply(echo: bool, s: Sys, i: nat)
    requires Enabled(s, ApplyRead(i)) && Inv(echo, s, i)
    ensures Inv(echo, Next(echo, s, ApplyRead(i)), i) <==> Guarded(echo, s, ApplyRead(i), i)
  {
    hide Slice;
    hide View;
    hide Homed;
    hide Valid;
    hide Home;
    hide Applied;
    hide Excused;
    hide CacheOk;
    hide ReadOk;
    hide WriteOk;
    hide ApplyHarmless;
    var n := s.nodes[i];
    var s' := Next(echo, s, ApplyRead(i));
    ReplacedSlices(s, i);
    forall t: Tenant
      ensures CacheOk(echo, s', i, t) && ReadOk(echo, s', i, t) && WriteOk(echo, s', i, t)
         <==> (Covers(n.reading, t) && !Excused(echo, s, i, t) ==> ApplyHarmless(n, t))
    {
      assert CacheOk(echo, s, i, t) && ReadOk(echo, s, i, t) && WriteOk(echo, s, i, t);
      ApplyTenant(echo, s, s', i, t);
    }
  }

  /** From a state that agrees, every step of any node keeps node i in agreement exactly when it is
      guarded. */
  lemma StepKeepsIff(echo: bool, s: Sys, step: Step, i: nat)
    requires Enabled(s, step) && Inv(echo, s, i)
    ensures Inv(echo, Next(echo, s, step), i) <==> Guarded(echo, s, step, i)
  {
    match step
    case Commit(k, op, order) => StepCommit(echo, s, k, op, order, i);
    case SyncInsert(hash, entry) => StepSync(echo, s, hash, entry, i);
    case Announce(k, t) => StepAnnounce(echo, s, k, t, i);
    case _ =>
      hide Inv;
      hide View;
      hide Applied;
      hide Load;
      hide Excused;
      if step.node != i {
        OtherNode(echo, s, step.node, Next(echo, s, step).nodes[step.node], i);
      } else if step == ApplyRead(i) {
        StepApply(echo, s, i);
      } else {
        OwnStep(echo, s, step, i);
      }
  }

  /** A run in which node i keeps its guard. */
  ghost predicate GuardedRun(echo: bool, s: Sys, steps: seq<Step>, i: nat)
    requires i < |s.nodes| && Runs(echo, s, steps)
    decreases |steps|
  {
    steps == [] || (Guarded(echo, s, steps[0], i) && GuardedRun(echo, Next(echo, s, steps[0]), steps[1..], i))
  }

  lemma {:induction false} RunKeepsInv(echo: bool, s: Sys, steps: seq<Step>, i: nat)
    requires Inv(echo, s, i) && Runs(echo, s, steps) && GuardedRun(echo, s, steps, i)
    ensures Inv(echo, End(echo, s, steps), i)
    decreases |steps|
  {
    if steps == [] {
    } else {
      hide Guarded;
      StepKeepsIff(echo, s, steps[0], i);
      RunKeepsInv(echo, Next(echo, s, steps[0]), steps[1..], i);
    }
  }

  /** Nothing of the tenant is on its way to node i: no announcement to it owed or in transit, no
      request pending, no read of it running, no local write in its window. */
  predicate Quiet(echo: bool, s: Sys, i: nat, tenant: Tenant)
    requires i < |s.nodes|
  {
    !Later(echo, s, i, tenant) && !Covers(s.nodes[i].reading, tenant) && s.nodes[i].writing.Idle?
  }

  lemma InitialInv(echo: bool, db: Db, count: nat, i: nat)
    requires Valid(db) && i < count
    ensures Inv(echo, Initial(db, count), i)
  {
  }

  lemma QuietIsFresh(echo: bool, s: Sys, i: nat, tenant: Tenant)
    requires Inv(echo, s, i) && Quiet(echo, s, i, tenant) && tenant !in s.nodes[i].missed
    ensures Slice(s.nodes[i].cache, tenant) == Slice(View(s.db), tenant)
  {
    hide Slice;
    hide View;
    hide AtHome;
    assert CacheOk(echo, s, i, tenant);
  }

  /** The refresher never loses a change. Over every interleaving of commits by any instance,
      announcements delayed and reordered at will, requests, reads, applied and failed reads, once
      nothing of the tenant is on its way to node i its cached keys are the table's, unless it was
      never told of a change: a lost announcement or an unannounced insert of the deploy job
      since it last took a full reload. */
  lemma RefresherLosesNothing(echo: bool, db: Db, count: nat, steps: seq<Step>, i: nat, tenant: Tenant)
    requires Valid(db) && i < count
    requires Runs(echo, Initial(db, count), steps) && GuardedRun(echo, Initial(db, count), steps, i)
    ensures var s := End(echo, Initial(db, count), steps);
            && i < |s.nodes|
            && (Quiet(echo, s, i, tenant) && tenant !in s.nodes[i].missed ==>
                  Slice(s.nodes[i].cache, tenant) == Slice(View(s.db), tenant))
  {
    InitialInv(echo, db, count, i);
    hide *;
    RunKeepsInv(echo, Initial(db, count), steps, i);
    var s := End(echo, Initial(db, count), steps);
    InvHasNode(echo, s, i);
    if Quiet(echo, s, i, tenant) && tenant !in s.nodes[i].missed {
      QuietIsFresh(echo, s, i, tenant);
    }
  }

  lemma InvHasNode(echo: bool, s: Sys, i: nat)
    requires Inv(echo, s, i)
    ensures i < |s.nodes|
  {
  }

  // ------------------------------------------------------------------ instances that only read

  predicate Reads(n: Node) {
    n.writing.Idle? && !Overtaken(n)
  }

  /** An instance that commits nothing keeps the guard whatever the others do. */
  lemma {:induction false} ReaderIsGuarded(echo: bool, s: Sys, steps: seq<Step>, i: nat)
    requires Runs(echo, s, steps) && i < |s.nodes| && Reads(s.nodes[i])
    requires forall x | x in steps :: !(x.Commit? && x.node == i)
    ensures GuardedRun(echo, s, steps, i)
    decreases |steps|
  {
    if steps == [] {
    } else {
      hide Mutation;
      hide Transacted;
      hide View;
      hide Applied;
      hide Load;
      hide Insert;
      hide Slice;
      hide Excused;
      ReaderIsGuarded(echo, Next(echo, s, steps[0]), steps[1..], i);
    }
  }

  // ------------------------------------------------------------------ what a broken guard costs

  lemma {:induction false} TakeStep(echo: bool, s: Sys, step: Step, rest: seq<Step>)
    requires Enabled(s, step) && Runs(echo, Next(echo, s, step), rest)
    ensures Runs(echo, s, [step] + rest)
    ensures End(echo, s, [step] + rest) == End(echo, Next(echo, s, step), rest)
  {
    hide Next;
    hide Enabled;
    assert ([step] + rest)[1..] == rest;
  }

  lemma OneStep(echo: bool, s: Sys, a: Step)
    requires Enabled(s, a)
    ensures Runs(echo, s, [a]) && End(echo, s, [a]) == Next(echo, s, a)
  {
    hide Next;
    hide Enabled;
    TakeStep(echo, s, a, []);
    assert [a] + [] == [a];
  }

  lemma TwoSteps(echo: bool, s: Sys, a: Step, b: Step)
    requires Enabled(s, a) && Enabled(Next(echo, s, a), b)
    ensures Runs(echo, s, [a, b]) && End(echo, s, [a, b]) == Next(echo, Next(echo, s, a), b)
  {
    hide Next;
    hide Enabled;
    OneStep(echo, Next(echo, s, a), b);
    TakeStep(echo, s, a, [b]);
    assert [a] + [b] == [a, b];
  }

  /** Applying the read, and then assigning the store that waits, if one does. */
  function ApplyAndAssign(s: Sys, i: nat): seq<Step>
    requires i < |s.nodes|
  {
    if s.nodes[i].writing.Committed? then [ApplyRead(i), Assign(i)] else [ApplyRead(i)]
  }

  /** Applying a read leaves nothing on its way for a tenant it covers that is not excused, and
      then the tenant's cached keys are the table's exactly when applying it was harmless. The
      other cases are lost for good: nothing will bring them back before the next full reload. */
  lemma ApplyLosesIff(echo: bool, s: Sys, i: nat, t: Tenant)
    requires Inv(echo, s, i) && Enabled(s, ApplyRead(i))
    requires Covers(s.nodes[i].reading, t) && !Excused(echo, s, i, t)
    ensures Runs(echo, s, ApplyAndAssign(s, i))
    ensures var s' := End(echo, s, ApplyAndAssign(s, i));
            && i < |s'.nodes| && Quiet(echo, s', i, t) && t !in s'.nodes[i].missed
            && (Slice(s'.nodes[i].cache, t) == Slice(View(s'.db), t) <==> ApplyHarmless(s.nodes[i], t))
  {
    hide Slice;
    hide View;
    hide Homed;
    hide Valid;
    hide Home;
    hide Applied;
    hide Runs;
    hide End;
    hide ApplyHarmless;
    var n := s.nodes[i];
    var s1 := Next(echo, s, ApplyRead(i));
    assert CacheOk(echo, s, i, t) && ReadOk(echo, s, i, t) && WriteOk(echo, s, i, t);
    ReplacedSlices(s, i);
    ApplyTenant(echo, s, s1, i, t);
    if n.writing.Committed? {
      TwoSteps(echo, s, ApplyRead(i), Assign(i));
      AssignedQuiet(echo, s1, i, t);
    } else {
      OneStep(echo, s, ApplyRead(i));
    }
  }

  lemma AssignedQuiet(echo: bool, s: Sys, i: nat, t: Tenant)
    requires Enabled(s, Assign(i)) && !Excused(echo, s, i, t) && s.nodes[i].reading.NoRead?
    ensures Quiet(echo, Next(echo, s, Assign(i)), i, t)
  {
    var s' := Next(echo, s, Assign(i));
    forall j: nat | j < |s.nodes| && (j != i || echo) ensures !Owes(s', j, t) {
      assert !Owes(s, j, t);
    }
  }

  /** Creating a key with a blank tier and assigning what the transaction handed back, and then
      applying the read that was made before, if it covers the tenant. */
  function BlankAndAssign(s: Sys, i: nat, op: Op, order: seq<Hash>): seq<Step>
    requires i < |s.nodes|
  {
    var r := s.nodes[i].reading;
    [Commit(i, op, order), Assign(i)] + if r.Got? && Covers(r, op.tenant) then [ApplyRead(i)] else []
  }

  /** Where the guard forbids it, the creation of a blank tier leaves the cache wrong, with nothing
      on its way. */
  lemma BlankLoses(echo: bool, s: Sys, i: nat, op: Op, order: seq<Hash>)
    requires Inv(echo, s, i) && Enabled(s, Commit(i, op, order)) && !Guarded(echo, s, Commit(i, op, order), i)
    ensures Runs(echo, s, BlankAndAssign(s, i, op, order))
    ensures var s' := End(echo, s, BlankAndAssign(s, i, op, order));
            && i < |s'.nodes| && Quiet(echo, s', i, op.tenant) && op.tenant !in s'.nodes[i].missed
            && Slice(s'.nodes[i].cache, op.tenant) != Slice(View(s'.db), op.tenant)
  {
    hide Mutate;
    hide Transacted;
    hide Slice;
    hide View;
    hide Homed;
    hide Valid;
    hide Home;
    hide Orders;
    hide NewKey;
    hide Runs;
    hide End;
    hide Applied;
    var t, n := op.tenant, s.nodes[i];
    var s1 := Next(echo, s, Commit(i, op, order));
    var store := s1.nodes[i].writing.store;
    CommitEffect(s.db, op, order);
    assert CacheOk(echo, s, i, t) && ReadOk(echo, s, i, t) && WriteOk(echo, s, i, t);
    CommitTenant(echo, s, s1, i, op, store, i, t);
    AtHomeStays(s, s1, i);
    var s2 := Next(echo, s1, Assign(i));
    TwoSteps(echo, s, Commit(i, op, order), Assign(i));
    AssignedLater(s1, i, t);
    if n.reading.Got? && Covers(n.reading, t) {
      var s3 := Next(echo, s2, ApplyRead(i));
      assert AtHome(s2, i);
      ReplacedSlices(s2, i);
      LacksNew(s, i, op.hash);
      hide AtHome;
      AppliedLater(s2, i, t);
      ThreeSteps(echo, s, Commit(i, op, order), Assign(i), ApplyRead(i));
    } else {
      assert [Commit(i, op, order), Assign(i)] + [] == [Commit(i, op, order), Assign(i)];
    }
  }

  lemma ThreeSteps(echo: bool, s: Sys, a: Step, b: Step, c: Step)
    requires Enabled(s, a) && Enabled(Next(echo, s, a), b) && Enabled(Next(echo, Next(echo, s, a), b), c)
    ensures Runs(echo, s, [a, b] + [c])
    ensures End(echo, s, [a, b] + [c]) == Next(echo, Next(echo, Next(echo, s, a), b), c)
  {
    hide Next;
    hide Enabled;
    TwoSteps(echo, Next(echo, s, a), b, c);
    TakeStep(echo, s, a, [b, c]);
    assert [a] + [b, c] == [a, b] + [c];
  }

  /** Assigning adds nothing that a node that is not told of its own changes still waits for. */
  lemma AssignedLater(s: Sys, i: nat, t: Tenant)
    requires Enabled(s, Assign(i)) && !Later(false, s, i, t)
    ensures !Later(false, Next(false, s, Assign(i)), i, t)
  {
    var s' := Next(false, s, Assign(i));
    forall j: nat | j < |s.nodes| && j != i ensures !Owes(s', j, t) {
      assert !Owes(s, j, t);
    }
  }

  lemma AppliedLater(s: Sys, i: nat, t: Tenant)
    requires Enabled(s, ApplyRead(i)) && !Later(false, s, i, t)
    ensures !Later(false, Next(false, s, ApplyRead(i)), i, t)
  {
    hide Applied;
    var s' := Next(false, s, ApplyRead(i));
    forall j: nat | j < |s.nodes| && j != i ensures !Owes(s', j, t) {
      assert !Owes(s, j, t);
    }
  }

  lemma LacksNew(s: Sys, i: nat, h: Hash)
    requires i < |s.nodes| && AtHome(s, i) && s.nodes[i].reading.Got? && h !in Home(s.db)
    ensures forall t :: h !in Slice(s.nodes[i].reading.data, t)
  {
    hide Home;
  }

  /** Node 0 asks for the keys of tenant b to be deleted, and before it installs the store its
      transaction returned, node 1 deletes tenant a's keys and node 0 has re-read them. */
  function StaleWrite(a: Tenant, b: Tenant, order: seq<Hash>): seq<Step> {
    [Commit(0, Delete(b), order)] + ([Commit(1, Delete(a), order)] + Tail(a))
  }

  lemma DeleteIs(store: Store, order: seq<Hash>, t: Tenant)
    ensures var gone := KeysOf(store, t);
            && Mutate(store, order, Delete(t)) == Done(gone != {}, |gone|, store - gone)
            && Upserts(store, store - gone) == {}
  {
    hide OwnedBy;
  }

  lemma DeleteNothing(db: Db, b: Tenant, order: seq<Hash>)
    requires KeysOf(View(db), b) == {}
    ensures var m := Mutate(View(db), order, Delete(b));
            m.Done? && Transacted(db, m) == Some((db, View(db)))
  {
    DeleteIs(View(db), order, b);
    hide Mutate;
    hide RowToMeta;
    assert View(db) - {} == View(db);
  }

  lemma DeleteRevokes(db: Db, h: Hash, a: Tenant, order: seq<Hash>)
    requires Valid(db) && h in db.table && db.table[h].tenantId == a
    ensures var m := Mutate(View(db), order, Delete(a));
            && m.Done? && Transacted(db, m).Some?
            && h !in Transacted(db, m).value.0.table && h in Transacted(db, m).value.0.revoked
  {
    hide Mutate;
    hide RowToMeta;
    hide RowArgs;
    hide Bury;
    hide Diffed;
    ViewIsHomed(db);
    DeleteIs(View(db), order, a);
    assert h in KeysOf(View(db), a) by {
      assert h in View(db) && OwnedBy(View(db)[h], Home(db)[h]);
    }
    hide View;
    hide Upserts;
    hide KeysOf;
    var after := View(db) - KeysOf(View(db), a);
    DiffedRows(db, after);
    DiffBuries(db, after);
  }

  /** Without the guard a change is lost: at the end of that run nothing of tenant a is on its
      way to node 0, and a key revoked in the table still validates from node 0's cache. */
  lemma StaleWriteKeepsRevokedKey(db: Db, h: Hash, a: Tenant, b: Tenant, order: seq<Hash>)
    requires Valid(db) && Orders(order, View(db)) && a != b
    requires h in db.table && db.table[h].tenantId == a && KeysOf(View(db), b) == {}
    ensures var s0 := Initial(db, 2);
            && Runs(true, s0, StaleWrite(a, b, order))
            && var s := End(true, s0, StaleWrite(a, b, order));
            && |s.nodes| == 2 && Quiet(true, s, 0, a) && s.nodes[0].missed == {}
            && h in s.nodes[0].cache && h in s.db.revoked && h !in s.db.table
  {
    DeleteNothing(db, b, order);
    DeleteRevokes(db, h, a, order);
    assert h in View(db);
    hide Mutate;
    hide Transacted;
    hide View;
    hide Orders;
    hide Valid;
    hide Tail;
    hide Load;
    hide Runs;
    hide End;
    var s0 := Initial(db, 2);
    assert |s0.nodes| == 2 && s0.nodes[0] == s0.nodes[1] == Node(map[], Pending(true, {}), NoRead, Idle, multiset{}, multiset{}, {});
    hide Initial;
    CommitStep(s0, 0, Delete(b), order);
    var s1 := Next(true, s0, Commit(0, Delete(b), order));
    CommitStep(s1, 1, Delete(a), order);
    var s2 := Next(true, s1, Commit(1, Delete(a), order));
    hide Next;
    hide Enabled;
    StaleWriteTail(s2, h, a, b);
    TakeStep(true, s1, Commit(1, Delete(a), order), Tail(a));
    TakeStep(true, s0, Commit(0, Delete(b), order), [Commit(1, Delete(a), order)] + Tail(a));
  }

  lemma CommitStep(s: Sys, k: nat, op: Op, order: seq<Hash>)
    requires k < |s.nodes| && s.nodes[k].writing.Idle? && s.nodes[k].reading.NoRead? && op.Delete?
    requires Orders(order, View(s.db)) && Mutate(View(s.db), order, op).Done?
    requires Transacted(s.db, Mutate(View(s.db), order, op)).Some?
    ensures Enabled(s, Commit(k, op, order))
    ensures var (db, store) := Transacted(s.db, Mutate(View(s.db), order, op)).value;
            Next(true, s, Commit(k, op, order))
            == Sys(db, s.nodes[k := s.nodes[k].(writing := Committed(op.tenant, store))])
  {
    hide View;
    hide Mutate;
    hide Transacted;
    hide Orders;
  }

  function Tail(a: Tenant): seq<Step> {
    [Assign(1)] + ([Announce(1, a)] + ([Deliver(0, a)] + Reread()))
  }

  lemma StaleWriteTail(s2: Sys, h: Hash, a: Tenant, b: Tenant)
    requires |s2.nodes| == 2 && a != b
    requires var n := s2.nodes[0];
             && n.writing.Committed? && n.writing.tenant == b && h in n.writing.store && n.pending == Pending(true, {})
             && n.reading.NoRead? && n.unsent == multiset{} && n.inbox == multiset{} && n.missed == {}
    requires var n := s2.nodes[1]; n.writing.Committed? && n.writing.tenant == a && n.unsent == multiset{}
    ensures Runs(true, s2, Tail(a))
    ensures var s := End(true, s2, Tail(a));
            && s.db == s2.db && |s.nodes| == 2 && Quiet(true, s, 0, a) && s.nodes[0].missed == {} && h in s.nodes[0].cache
  {
    hide Load;
    hide Runs;
    hide End;
    var s3 := Next(true, s2, Assign(1));
    var s4 := Next(true, s3, Announce(1, a));
    assert s4.nodes[0].inbox == multiset{a} && a !in s4.nodes[1].unsent;
    assert s4.nodes[0] == s2.nodes[0].(inbox := multiset{a});
    assert s4.nodes[1].writing.Idle?;
    var s5 := Next(true, s4, Deliver(0, a));
    RereadAndAssign(s5, a, b);
    TakeStep(true, s4, Deliver(0, a), Reread());
    TakeStep(true, s3, Announce(1, a), [Deliver(0, a)] + Reread());
    TakeStep(true, s2, Assign(1), [Announce(1, a)] + ([Deliver(0, a)] + Reread()));
  }

  /** Node 0 takes a full reload, applies it, and then installs its own write's store over it. */
  function Reread(): seq<Step> {
    [Take(0)] + ([Read(0)] + ([ApplyRead(0)] + ([Assign(0)] + [])))
  }

  lemma RereadAndAssign(s5: Sys, a: Tenant, b: Tenant)
    requires |s5.nodes| == 2 && a != b
    requires var n := s5.nodes[0];
             n.writing.Committed? && n.writing.tenant == b && n.pending.full && n.reading.NoRead? && n.unsent == multiset{}
             && a !in n.inbox
    requires s5.nodes[1].writing.Idle? && a !in s5.nodes[1].unsent
    ensures Runs(true, s5, Reread())
    ensures var s := End(true, s5, Reread());
            && s.db == s5.db && |s.nodes| == 2 && Quiet(true, s, 0, a) && s.nodes[0].missed == {}
            && s.nodes[0].cache == s5.nodes[0].writing.store
  {
    hide Load;
    var s6 := Next(true, s5, Take(0));
    var s7 := Next(true, s6, Read(0));
    var s8 := Next(true, s7, ApplyRead(0));
    var s9 := Next(true, s8, Assign(0));
    assert s9.nodes[0].unsent == multiset{b};
    assert Runs(true, s9, []) && End(true, s9, []) == s9;
    hide Runs;
    hide End;
    TakeStep(true, s8, Assign(0), []);
    TakeStep(true, s7, ApplyRead(0), [Assign(0)] + []);
    TakeStep(true, s6, Read(0), [ApplyRead(0)] + ([Assign(0)] + []));
    TakeStep(true, s5, Take(0), [Read(0)] + ([ApplyRead(0)] + ([Assign(0)] + [])));
  }

  /** One instance alone, which is not told of its own changes: its first reload has read the
      table, it deletes tenant a's keys, and then the reload is applied. */
  function StaleRead(a: Tenant, order: seq<Hash>): seq<Step> {
    [Take(0)] + ([Read(0)] + ([Commit(0, Delete(a), order)] + ([Assign(0)] + ([Announce(0, a)] + [ApplyRead(0)]))))
  }

  /** A change is lost without any other instance: at the end of that run nothing is on its way,
      no announcement is owed by anyone, and a revoked key still validates. */
  lemma StaleReadKeepsRevokedKey(db: Db, h: Hash, a: Tenant, order: seq<Hash>)
    requires Valid(db) && Orders(order, View(db)) && h in db.table && db.table[h].tenantId == a
    ensures var s0 := Initial(db, 1);
            && Runs(false, s0, StaleRead(a, order))
            && var s := End(false, s0, StaleRead(a, order));
            && |s.nodes| == 1 && Quiet(false, s, 0, a) && s.nodes[0].missed == {} && s.nodes[0].unsent == multiset{}
            && h in s.nodes[0].cache && h in s.db.revoked && h !in s.db.table
  {
    DeleteRevokes(db, h, a, order);
    assert h in View(db);
    hide *;
    var s0 := Initial(db, 1);
    FirstReload(db);
    var s1 := Next(false, s0, Take(0));
    var s2 := Next(false, s1, Read(0));
    var tail := StaleTail(a, order);
    StaleReadTail(s2, View(db), h, a, order);
    TakeStep(false, s1, Read(0), tail);
    TakeStep(false, s0, Take(0), [Read(0)] + tail);
    StaleReadIs(a, order);
  }

  lemma FirstReload(db: Db)
    ensures Enabled(Initial(db, 1), Take(0)) && Enabled(Next(false, Initial(db, 1), Take(0)), Read(0))
    ensures Next(false, Next(false, Initial(db, 1), Take(0)), Read(0))
         == Sys(db, [Node(map[], NOTHING, Got(true, {}, View(db), false), Idle, multiset{}, multiset{}, {})])
  {
    hide View;
  }

  function StaleTail(a: Tenant, order: seq<Hash>): seq<Step> {
    [Commit(0, Delete(a), order)] + ([Assign(0)] + ([Announce(0, a)] + [ApplyRead(0)]))
  }

  lemma StaleReadIs(a: Tenant, order: seq<Hash>)
    ensures StaleRead(a, order) == [Take(0)] + ([Read(0)] + StaleTail(a, order))
  {
  }

  lemma StaleReadTail(s2: Sys, data: Store, h: Hash, a: Tenant, order: seq<Hash>)
    requires |s2.nodes| == 1
    requires s2.nodes[0] == Node(map[], NOTHING, Got(true, {}, data, false), Idle, multiset{}, multiset{}, {})
    requires Orders(order, View(s2.db)) && h in data
    requires var m := Mutate(View(s2.db), order, Delete(a));
             && m.Done? && Transacted(s2.db, m).Some?
             && var db := Transacted(s2.db, m).value.0; h !in db.table && h in db.revoked
    ensures Runs(false, s2, StaleTail(a, order))
    ensures var s := End(false, s2, StaleTail(a, order));
            && |s.nodes| == 1 && Quiet(false, s, 0, a) && s.nodes[0].missed == {} && s.nodes[0].unsent == multiset{}
            && h in s.nodes[0].cache && h in s.db.revoked && h !in s.db.table
  {
    hide Mutate;
    hide Transacted;
    hide View;
    hide Orders;
    hide Runs;
    hide End;
    var s3 := Next(false, s2, Commit(0, Delete(a), order));
    var s4 := Next(false, s3, Assign(0));
    assert s4.nodes[0].unsent == multiset{a};
    var s5 := Next(false, s4, Announce(0, a));
    assert s5.nodes[0] == s4.nodes[0].(unsent := multiset{});
    var s6 := Next(false, s5, ApplyRead(0));
    OneStep(false, s5, ApplyRead(0));
    TakeStep(false, s4, Announce(0, a), [ApplyRead(0)]);
    TakeStep(false, s3, Assign(0), [Announce(0, a)] + [ApplyRead(0)]);
    TakeStep(false, s2, Commit(0, Delete(a), order), [Assign(0)] + ([Announce(0, a)] + [ApplyRead(0)]));
  }

  /** One turn of the refresher's loop is a take, after a request for everything if the wait
      ended by its timeout with nothing pending. */
  lemma TurnIsTake(echo: bool, s: Sys, i: nat, timedOut: bool)
    requires i < |s.nodes| && s.nodes[i].reading.NoRead?
    ensures var p := s.nodes[i].pending;
            var steps := (if p == NOTHING && timedOut then [AskFull(i)] else []) + [Take(i)];
            && Runs(echo, s, steps)
            && var s' := End(echo, s, steps);
            && i < |s'.nodes| && s'.nodes[i].pending == NOTHING
            && s'.nodes[i].reading == Taken(Waited(p, timedOut).full, Waited(p, timedOut).tenants)
  {
    if s.nodes[i].pending == NOTHING && timedOut {
      TwoSteps(echo, s, AskFull(i), Take(i));
      assert [AskFull(i)] + [Take(i)] == [AskFull(i), Take(i)];
    } else {
      OneStep(echo, s, Take(i));
      assert [] + [Take(i)] == [Take(i)];
    }
  }

  lemma FourSteps(echo: bool, s: Sys, a: Step, b: Step, c: Step, d: Step)
    requires Enabled(s, a) && Enabled(Next(echo, s, a), b) && Enabled(Next(echo, Next(echo, s, a), b), c)
    requires Enabled(Next(echo, Next(echo, Next(echo, s, a), b), c), d)
    ensures Runs(echo, s, [a, b] + [c, d])
    ensures End(echo, s, [a, b] + [c, d]) == Next(echo, Next(echo, Next(echo, Next(echo, s, a), b), c), d)
  {
    hide Next;
    hide Enabled;
    ThreeSteps(echo, Next(echo, s, a), b, c, d);
    TakeStep(echo, s, a, [b, c] + [d]);
    assert [a] + ([b, c] + [d]) == [a, b] + [c, d];
  }

  /** Everything may be asked for at any time, a read in progress may fail, which asks for everything
      again, and an announcement in transit may be lost, which leaves its tenant missed; and none is
      sent that is not owed, nor delivered or lost that is not in transit. */
  lemma WhatMayGoWrong(echo: bool, s: Sys, i: nat, t: Tenant)
    requires i < |s.nodes|
    ensures var n := s.nodes[i];
            && Enabled(s, AskFull(i))
            && Next(echo, s, AskFull(i)) == With(s, i, n.(pending := Pending(true, n.pending.tenants)))
            && (n.reading.Taken? <==> Enabled(s, ReadFails(i)))
            && (n.reading.Taken? ==>
                  Next(echo, s, ReadFails(i)) == With(s, i, n.(reading := NoRead, pending := Pending(true, n.pending.tenants))))
            && (t in n.inbox <==> Enabled(s, Lose(i, t))) && (t in n.inbox <==> Enabled(s, Deliver(i, t)))
            && (t in n.inbox ==>
                  Next(echo, s, Lose(i, t)) == With(s, i, n.(inbox := n.inbox - multiset{t}, missed := n.missed + {t})))
            && (t in n.unsent <==> Enabled(s, Announce(i, t)))
  {
  }

  /** A write that is assigned and announced is what this instance validates from, and is on its way
      to every other instance, and to this one too if it is told of its own changes. Nothing else
      changes. */
  lemma ChangeIsAnnounced(echo: bool, s: Sys, k: nat)
    requires Enabled(s, Assign(k))
    ensures var t := s.nodes[k].writing.tenant;
            var steps := [Assign(k), Announce(k, t)];
            && Runs(echo, s, steps) && End(echo, s, steps).db == s.db && |End(echo, s, steps).nodes| == |s.nodes|
            && forall j: nat | j < |s.nodes| ::
                 var told := if j != k || echo then s.nodes[j].inbox + multiset{t} else s.nodes[j].inbox;
                 End(echo, s, steps).nodes[j]
                 == if j == k then s.nodes[k].(cache := s.nodes[k].writing.store, writing := Idle, inbox := told)
                    else s.nodes[j].(inbox := told)
  {
    var t := s.nodes[k].writing.tenant;
    TwoSteps(echo, s, Assign(k), Announce(k, t));
    assert s.nodes[k].unsent + multiset{t} - multiset{t} == s.nodes[k].unsent;
  }

  /** An announcement that arrives, with nothing between, is all it takes: then this tenant's keys are
      cached as the table has them, with those of the tenants already waiting (or everything, if that
      was asked for), and every other tenant's are left alone. */
  lemma AnnouncementArrives(echo: bool, s: Sys, i: nat, t: Tenant)
    requires i < |s.nodes| && t in s.nodes[i].inbox && s.nodes[i].reading.NoRead?
    requires Valid(s.db) && Homed(s.nodes[i].cache, Home(s.db))
    ensures var steps := [Deliver(i, t), Take(i)] + [Read(i), ApplyRead(i)];
            && Runs(echo, s, steps) && |End(echo, s, steps).nodes| == |s.nodes|
            && var n, m := s.nodes[i], End(echo, s, steps).nodes[i];
            && End(echo, s, steps) == With(s, i, m)
            && m == n.(cache := m.cache, inbox := n.inbox - multiset{t}, pending := NOTHING,
                       missed := if n.pending.full then {} else n.missed)
            && (n.pending.full ==> m.cache == View(s.db))
            && (!n.pending.full ==> forall u ::
                  Slice(m.cache, u) == Slice(if u == t || u in n.pending.tenants then View(s.db) else n.cache, u))
  {
    var n := s.nodes[i];
    var full, some := n.pending.full, n.pending.tenants + {t};
    var cache := if full then Load(s.db, full, some) else ReplaceTenants(n.cache, some, Load(s.db, full, some));
    ArrivesAs(echo, s, i, t);
    LoadIsFresh(s, full, some);
    hide View;
    hide Load;
    hide Slice;
    hide ReplaceTenants;
    hide Homed;
    hide Home;
    hide Next;
    hide End;
    hide Runs;
    if full {
      LoadAll(s.db, some);
    } else {
      ReplaceSlices(n.cache, some, Load(s.db, false, some), Home(s.db));
    }
  }

  /** The state it leaves. */
  lemma ArrivesAs(echo: bool, s: Sys, i: nat, t: Tenant)
    requires i < |s.nodes| && t in s.nodes[i].inbox && s.nodes[i].reading.NoRead?
    ensures var steps := [Deliver(i, t), Take(i)] + [Read(i), ApplyRead(i)];
            && Runs(echo, s, steps)
            && var n := s.nodes[i];
               var full, some := n.pending.full, n.pending.tenants + {t};
               var data := Load(s.db, full, some);
               End(echo, s, steps)
               == With(s, i, n.(cache := if full then data else ReplaceTenants(n.cache, some, data),
                                inbox := n.inbox - multiset{t}, pending := NOTHING,
                                missed := if full then {} else n.missed))
  {
    FourSteps(echo, s, Deliver(i, t), Take(i), Read(i), ApplyRead(i));
    hide View;
    hide Load;
    hide ReplaceTenants;
    hide End;
    hide Runs;
  }

  lemma LoadAll(db: Db, some: set<Tenant>)
    ensures Load(db, true, some) == View(db)
  {
  }

  /** A full pass with nothing between repairs every tenant. */
  lemma FullPassRepairs(echo: bool, s: Sys, i: nat)
    requires i < |s.nodes| && s.nodes[i].reading.NoRead? && Valid(s.db)
    ensures var steps := [AskFull(i), Take(i), Read(i), ApplyRead(i)];
            && Runs(echo, s, steps) && i < |End(echo, s, steps).nodes|
            && End(echo, s, steps).nodes[i].cache == View(s.db)
            && End(echo, s, steps).nodes[i].missed == {}
  {
    hide View;
    hide RowToMeta;
    var s1 := Next(echo, s, AskFull(i));
    var s2 := Next(echo, s1, Take(i));
    var s3 := Next(echo, s2, Read(i));
    var s4 := Next(echo, s3, ApplyRead(i));
    assert Runs(echo, s4, []) && End(echo, s4, []) == s4;
    assert Runs(echo, s3, [ApplyRead(i)]) && End(echo, s3, [ApplyRead(i)]) == s4;
    assert [Read(i), ApplyRead(i)][1..] == [ApplyRead(i)];
    assert Runs(echo, s2, [Read(i), ApplyRead(i)]) && End(echo, s2, [Read(i), ApplyRead(i)]) == s4;
    assert [Take(i), Read(i), ApplyRead(i)][1..] == [Read(i), ApplyRead(i)];
    assert Runs(echo, s1, [Take(i), Read(i), ApplyRead(i)]) && End(echo, s1, [Take(i), Read(i), ApplyRead(i)]) == s4;
    assert [AskFull(i), Take(i), Read(i), ApplyRead(i)][1..] == [Take(i), Read(i), ApplyRead(i)];
  }
}
