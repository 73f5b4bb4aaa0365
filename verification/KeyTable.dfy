/** The shared key table and its writers (src/proxy/auth/pg_key_store.py and the deploy-time
    job infra/migrations/sync_proxy_keys.py). Each transaction, and each single-statement
    insert, is one atomic step. */
module KeyTable {
  import opened KeyEntry
  import opened Options

  /** Tables proxy_keys and revoked_proxy_keys. */
  datatype Db = Db(table: map<Hash, Row>, revoked: map<Hash, Tenant>)

  /** The store as every reader sees it. */
  function View(db: Db): Store {
    map h | h in db.table :: Record(RowToMeta(db.table[h]))
  }

  /** A live key is not a revoked one. */
  predicate Disjoint(db: Db) {
    db.table.Keys !! db.revoked.Keys
  }

  predicate RowsClean(db: Db) {
    forall h | h in db.table :: Clean(db.table[h])
  }

  predicate Valid(db: Db) {
    Disjoint(db) && RowsClean(db)
  }

  // ------------------------------------------------------------------ what each statement does

  /** Delete these hashes and record them as revoked; an earlier record is kept. */
  function Bury(db: Db, gone: set<Hash>): Db {
    Db(db.table - gone, (map h | h in db.table && h in gone :: db.table[h].tenantId) + db.revoked)
  }

  predicate Encodes(store: Store) {
    forall h | h in store :: RowArgs(store[h]).Some?
  }

  function Rows(store: Store): map<Hash, Row>
    requires Encodes(store)
  {
    map h | h in store :: RowArgs(store[h]).value
  }

  function Keep(store: Store, hashes: set<Hash>): Store {
    map h | h in store && h in hashes :: store[h]
  }

  /** The rows a diff write sends: new or changed ones. */
  function Upserts(before: Store, after: Store): set<Hash> {
    set h | h in after && (h !in before || before[h] != after[h])
  }

  function Insert(db: Db, hash: Hash, row: Row): Db {
    if hash in db.revoked || hash in db.table then db else db.(table := db.table[hash := row])
  }

  lemma RowsOfNone(table: map<Hash, Row>, store: Store)
    ensures Encodes(Keep(store, {})) && table + Rows(Keep(store, {})) == table
  {
  }

  lemma NotEncodable(store: Store, hash: Hash)
    requires hash in store && RowArgs(store[hash]).None?
    ensures !Encodes(store)
  {
  }

  lemma BuryRecords(db: Db, gone: set<Hash>, revoked: map<Hash, Tenant>)
    requires revoked == (map h | h in db.table && h in gone :: db.table[h].tenantId) + db.revoked
    ensures Bury(db, gone) == Db(db.table - gone, revoked)
  {
  }

  lemma UpsertsAre(before: Store, after: Store, upserts: set<Hash>)
    requires upserts == set h | h in after && (h !in before || before[h] != after[h])
    ensures upserts == Upserts(before, after)
  {
  }

  lemma RowsOfKept(table: map<Hash, Row>, store: Store)
    requires Encodes(store) && table == map[] + Rows(store)
    ensures table == Rows(store) && |table| == |store|
  {
    assert table.Keys == store.Keys;
  }

  /** One more row statement of a write. */
  lemma RowsOneMore(table: map<Hash, Row>, store: Store, sent: set<Hash>, hash: Hash)
    requires Encodes(Keep(store, sent)) && hash in store && RowArgs(store[hash]).Some?
    ensures Encodes(Keep(store, sent + {hash}))
    ensures table + Rows(Keep(store, sent + {hash}))
         == (table + Rows(Keep(store, sent)))[hash := RowArgs(store[hash]).value]
  {
    hide RowArgs;
    assert Keep(store, sent + {hash}) == Keep(store, sent)[hash := store[hash]];
  }

  // ------------------------------------------------------------------ whole writes

  /** A whole-store write of store over db; None when it rolls back. */
  function Replaced(db: Db, store: Store): Option<Db> {
    var buried := Bury(db, db.table.Keys - store.Keys);
    var kept := store - buried.revoked.Keys;
    if Encodes(kept) then Some(Db(Rows(kept), buried.revoked)) else None
  }

  /** A diff write of after over the current rows; None when it rolls back. */
  function Diffed(db: Db, after: Store): Option<Db> {
    var buried := Bury(db, View(db).Keys - after.Keys);
    var sent := Keep(after, Upserts(View(db), after) - buried.revoked.Keys);
    if Encodes(sent) then Some(Db(buried.table + Rows(sent), buried.revoked)) else None
  }

  /** The hashes a diff write refuses because they are recorded as revoked. */
  function Refused(db: Db, after: Store): set<Hash> {
    Upserts(View(db), after) * Bury(db, View(db).Keys - after.Keys).revoked.Keys
  }

  /** What a lifecycle mutation does to the store it is handed: raise, or report whether it
      changed it, a result, and the store as it left it. */
  datatype Mutated<+R> = Raised | Done(changed: bool, result: R, store: Store)

  /** The table after a transaction, and the store it returns for caching. */
  function Transacted<R>(db: Db, m: Mutated<R>): Option<(Db, Store)> {
    match m
    case Raised => None
    case Done(false, _, store) => Some((db, store))
    case Done(true, _, store) =>
      match Diffed(db, store)
      case None => None
      case Some(db') => Some((db', store - Refused(db, store)))
  }

  function Synced(db: Db, store: Store): Db
    requires Encodes(store)
  {
    db.(table := map h | h in db.table.Keys + (store.Keys - db.revoked.Keys) ::
                   if h in db.table then db.table[h] else RowArgs(store[h]).value)
  }

  // ------------------------------------------------------------------ the writers

  class KeyTable {
    var table: map<Hash, Row>
    var revoked: map<Hash, Tenant>

    function Now(): Db
      reads this
    {
      Db(table, revoked)
    }

    constructor ()
      ensures Now() == Db(map[], map[])
    {
      table, revoked := map[], map[];
    }

    /** Send one row statement an entry, new or overwriting; a value that does not encode raises. */
    method WriteRows(store: Store) returns (written: Option<nat>)
      modifies this`table
      ensures written == if Encodes(store) then Some(|store|) else None
      ensures Encodes(store) ==> table == old(table) + Rows(store)
    {
      hide RowArgs;
      hide Rows;
      hide Encodes;
      hide Keep;
      var count := 0;
      var rest := store.Keys;
      ghost var sent := {};
      RowsOfNone(table, store);
      while rest != {}
        invariant rest <= store.Keys && sent == store.Keys - rest && count == |sent|
        invariant Encodes(Keep(store, sent))
        invariant table == old(table) + Rows(Keep(store, sent))
      {
        var h :| h in rest;
        var row := RowArgs(store[h]);
        if row.None? {
          NotEncodable(store, h);
          return None;
        }
        RowsOneMore(old(table), store, sent, h);
        table := table[h := row.value];
        count := count + 1;
        sent, rest := sent + {h}, rest - {h};
      }
      assert sent == store.Keys;
      KeepAll(store);
      return Some(count);
    }

    /** replace_all: rewrite the table from store, recording what it removes as revoked. */
    method ReplaceAll(store: Store) returns (written: Option<nat>)
      modifies this
      ensures Replaced(old(Now()), store).None? ==> written.None? && Now() == old(Now())
      ensures Replaced(old(Now()), store).Some? ==>
                Now() == Replaced(old(Now()), store).value && written == Some(|table|)
    {
      hide RowArgs;
      hide Encodes;
      hide Rows;
      hide Bury;
      var table0, revoked0 := table, revoked;
      ghost var db := Now();
      var gone := table.Keys - store.Keys;
      revoked := (map h | h in table && h in gone :: table[h].tenantId) + revoked;
      BuryRecords(db, gone, revoked);
      table := map[];
      written := WriteRows(store - revoked.Keys);
      if written.None? {
        table, revoked := table0, revoked0;
      } else {
        RowsOfKept(table, store - revoked.Keys);
      }
    }

    /** transact: read, mutate and diff-write under the advisory lock. */
    method Transact<R>(mutation: Store -> Mutated<R>) returns (done: Option<(R, Store)>)
      modifies this
      ensures var m := mutation(View(old(Now())));
              match Transacted(old(Now()), m)
              case None => done.None? && Now() == old(Now())
              case Some((db, cached)) => Now() == db && m.Done? && done == Some((m.result, cached))
    {
      hide RowArgs;
      hide RowToMeta;
      var before := View(Now());
      var m := mutation(before);
      if m.Raised? {
        return None;
      }
      if !m.changed {
        return Some((m.result, m.store));
      }
      var refused := WriteDiff(before, m.store);
      if refused.None? {
        return None;
      }
      return Some((m.result, m.store - refused.value));
    }

    /** _write_diff: bury the removed rows, then upsert the new and changed ones. */
    method WriteDiff(before: Store, after: Store) returns (refused: Option<set<Hash>>)
      requires before == View(Now())
      modifies this
      ensures Diffed(old(Now()), after).None? ==> refused.None? && Now() == old(Now())
      ensures Diffed(old(Now()), after).Some? ==>
                Now() == Diffed(old(Now()), after).value && refused == Some(Refused(old(Now()), after))
    {
      hide RowArgs;
      hide Encodes;
      hide Rows;
      hide Bury;
      hide View;
      hide Upserts;
      hide Keep;
      var table0, revoked0 := table, revoked;
      ghost var db := Now();
      var removed := set h | h in before && h !in after;
      assert removed == before.Keys - after.Keys;
      revoked := (map h | h in table && h in removed :: table[h].tenantId) + revoked;
      table := table - removed;
      BuryRecords(db, removed, revoked);
      var upserts := set h | h in after && (h !in before || before[h] != after[h]);
      UpsertsAre(before, after, upserts);
      var blocked := set h | h in upserts && h in revoked;
      assert blocked == upserts * revoked.Keys;
      assert upserts - blocked == upserts - revoked.Keys;
      var written := WriteRows(Keep(after, upserts - blocked));
      if written.None? {
        table, revoked := table0, revoked0;
        return None;
      }
      return Some(blocked);
    }

    /** The insert statement of both syncs: a key the table does not have and that was never
        revoked. Returns the number of rows it inserted. */
    method InsertNew(hash: Hash, row: Row) returns (added: nat)
      modifies this`table
      ensures Now() == Insert(old(Now()), hash, row)
      ensures |table| == |old(table)| + added
    {
      if hash in revoked || hash in table {
        return 0;
      }
      assert table[hash := row].Keys == table.Keys + {hash};
      table := table[hash := row];
      return 1;
    }

    /** upsert_keys and the deploy-time sync: one insert statement a key, each committed on its
        own, so a value that does not encode stops the loop and leaves the earlier inserts. */
    method UpsertKeys(store: Store) returns (inserted: Option<nat>, ghost done: set<Hash>)
      modifies this`table
      ensures inserted.Some? <==> Encodes(store)
      ensures inserted.Some? ==> done == store.Keys && inserted == Some(|table| - |old(table)|)
      ensures done <= store.Keys && Encodes(Keep(store, done))
      ensures Now() == Synced(old(Now()), Keep(store, done))
    {
      hide RowArgs;
      hide Encodes;
      hide Keep;
      hide Synced;
      hide Insert;
      ghost var db := Now();
      done := {};
      var count := 0;
      var rest := store.Keys;
      SyncedNothing(db, store);
      while rest != {}
        invariant rest <= store.Keys && done == store.Keys - rest
        invariant Encodes(Keep(store, done)) && Now() == Synced(db, Keep(store, done))
        invariant |table| == |db.table| + count
      {
        var h :| h in rest;
        var row := RowArgs(store[h]);
        if row.None? {
          NotEncodable(store, h);
          return None, done;
        }
        SyncedOneMore(db, store, done, h);
        OneLess(store.Keys, rest, h);
        var added := InsertNew(h, row.value);
        count := count + added;
        done, rest := done + {h}, rest - {h};
      }
      assert done == store.Keys;
      KeepAll(store);
      return Some(count), done;
    }
  }

  lemma OneLess(all: set<Hash>, rest: set<Hash>, h: Hash)
    requires rest <= all && h in rest
    ensures all - (rest - {h}) == (all - rest) + {h} && rest - {h} < rest && rest - {h} <= all
  {
  }

  lemma KeepAll(store: Store)
    ensures Keep(store, store.Keys) == store
  {
  }

  lemma SyncedNothing(db: Db, store: Store)
    ensures Encodes(Keep(store, {})) && Synced(db, Keep(store, {})) == db
  {
    assert Synced(db, Keep(store, {})).table == db.table;
  }

  /** Inserting one more entry of a sync. */
  lemma SyncedOneMore(db: Db, store: Store, done: set<Hash>, hash: Hash)
    requires Encodes(Keep(store, done)) && hash in store && RowArgs(store[hash]).Some?
    ensures Encodes(Keep(store, done + {hash}))
    ensures Synced(db, Keep(store, done + {hash}))
         == Insert(Synced(db, Keep(store, done)), hash, RowArgs(store[hash]).value)
  {
    hide RowArgs;
    var small, big := Keep(store, done), Keep(store, done + {hash});
    assert big == small[hash := store[hash]];
    assert Synced(db, big).table == Insert(Synced(db, small), hash, RowArgs(store[hash]).value).table;
  }

  // ------------------------------------------------------------------ the diff write is the whole-store write

  /** What a diff write buries, and the hashes it writes. */
  function Dead(db: Db, after: Store): map<Hash, Tenant> {
    Bury(db, db.table.Keys - after.Keys).revoked
  }

  function Written(db: Db, after: Store): set<Hash> {
    Upserts(View(db), after) - Dead(db, after).Keys
  }

  lemma ViewKeys(db: Db)
    ensures View(db).Keys == db.table.Keys
  {
  }

  /** The diff write in terms of those. */
  lemma DiffedIs(db: Db, after: Store)
    ensures Keep(after, Written(db, after)).Keys == Written(db, after)
    ensures Encodes(Keep(after, Written(db, after))) <==> forall h | h in Written(db, after) :: RowArgs(after[h]).Some?
    ensures Diffed(db, after) ==
              if Encodes(Keep(after, Written(db, after)))
              then Some(Db(Bury(db, db.table.Keys - after.Keys).table + Rows(Keep(after, Written(db, after))), Dead(db, after)))
              else None
  {
    hide RowArgs;
    hide Bury;
    hide View;
    ViewKeys(db);
  }

  lemma KeptRows(db: Db, after: Store, h: Hash)
    requires Valid(db) && h in after && h !in Upserts(View(db), after)
    ensures h in db.table && Record(RowToMeta(db.table[h])) == after[h]
    ensures h !in Dead(db, after) && h in Bury(db, db.table.Keys - after.Keys).table
  {
    hide RowToMeta;
  }

  /** The rows a diff write leaves: every hash of after it may write, new or changed ones
      encoded and the others as they were. It rolls back when one of the former does not encode. */
  lemma DiffedRows(db: Db, after: Store)
    requires Valid(db)
    ensures var dead := Bury(db, db.table.Keys - after.Keys).revoked;
            var wrote := Upserts(View(db), after) - dead.Keys;
            && (Diffed(db, after).Some? <==> forall h | h in wrote :: RowArgs(after[h]).Some?)
            && (Diffed(db, after).Some? ==>
                  var d := Diffed(db, after).value;
                  && d.revoked == dead
                  && d.table.Keys == after.Keys - dead.Keys
                  && forall h | h in d.table ::
                       if h in wrote then Some(d.table[h]) == RowArgs(after[h])
                       else h in db.table && d.table[h] == db.table[h] && Record(RowToMeta(db.table[h])) == after[h])
  {
    DiffedIs(db, after);
    DeadIs(db, after);
    hide *;
    var dead, kept, sent := Dead(db, after), Bury(db, db.table.Keys - after.Keys).table, Keep(after, Written(db, after));
    UpsertsWithin(View(db), after);
    forall h | h in after && h !in Upserts(View(db), after)
      ensures h in db.table && Record(RowToMeta(db.table[h])) == after[h] && h !in dead && h in kept
    {
      KeptRows(db, after, h);
    }
    forall h | h in kept ensures h in db.table && h in after && h !in dead && kept[h] == db.table[h] {
      BuryKeeps(db, after, h);
    }
    if Encodes(sent) {
      forall h
        ensures h in kept + Rows(sent) <==> h in kept || h in sent
        ensures h in sent ==> Some((kept + Rows(sent))[h]) == RowArgs(sent[h]) && sent[h] == after[h]
        ensures h in kept && h !in sent ==> (kept + Rows(sent))[h] == kept[h]
      {
        Overlaid(kept, sent, h);
        KeepAt(after, Written(db, after), h);
      }
    }
  }

  lemma DeadIs(db: Db, after: Store)
    ensures Dead(db, after) == Bury(db, db.table.Keys - after.Keys).revoked
    ensures Written(db, after) == Upserts(View(db), after) - Dead(db, after).Keys
  {
  }

  lemma BuryKeeps(db: Db, after: Store, h: Hash)
    requires Valid(db) && h in Bury(db, db.table.Keys - after.Keys).table
    ensures h in db.table && h in after && h !in Dead(db, after)
    ensures Bury(db, db.table.Keys - after.Keys).table[h] == db.table[h]
  {
  }

  lemma Overlaid(kept: map<Hash, Row>, sent: Store, h: Hash)
    requires Encodes(sent)
    ensures h in kept + Rows(sent) <==> h in kept || h in sent
    ensures h in sent ==> Some((kept + Rows(sent))[h]) == RowArgs(sent[h])
    ensures h in kept && h !in sent ==> (kept + Rows(sent))[h] == kept[h]
  {
    hide RowArgs;
  }

  lemma KeepAt(store: Store, hashes: set<Hash>, h: Hash)
    ensures h in Keep(store, hashes) ==> h in store && Keep(store, hashes)[h] == store[h]
  {
  }

  lemma ReplacedRows(db: Db, store: Store)
    ensures var dead := Bury(db, db.table.Keys - store.Keys).revoked;
            && (Replaced(db, store).Some? <==> forall h | h in store.Keys - dead.Keys :: RowArgs(store[h]).Some?)
            && (Replaced(db, store).Some? ==>
                  var r := Replaced(db, store).value;
                  && r.revoked == dead
                  && r.table.Keys == store.Keys - dead.Keys
                  && forall h | h in r.table :: Some(r.table[h]) == RowArgs(store[h]))
  {
    hide RowArgs;
    hide Bury;
  }

  lemma UnchangedRow(db: Db, after: Store, hash: Hash)
    requires Valid(db) && hash in after && hash !in Upserts(View(db), after)
    ensures hash in db.table && RowArgs(after[hash]) == Some(Canon(db.table[hash]))
    ensures RowToMeta(Canon(db.table[hash])) == RowToMeta(db.table[hash])
  {
    RewriteCanon(db.table[hash]);
  }

  lemma SameView(d: Db, r: Db)
    requires d.table.Keys == r.table.Keys
    requires forall h | h in d.table :: RowToMeta(d.table[h]) == RowToMeta(r.table[h])
    ensures View(d) == View(r)
  {
    hide RowToMeta;
  }

  /** From a valid table, a diff write and a whole-store write of the same store fail together,
      record the same revocations, show readers the same keys and hold the same rows up to a
      blank tier, which only the whole-store write rewrites as "free". */
  lemma DiffRefinesReplace(db: Db, after: Store)
    requires Valid(db)
    ensures Diffed(db, after).Some? <==> Replaced(db, after).Some?
    ensures Diffed(db, after).Some? ==>
              var d, r := Diffed(db, after).value, Replaced(db, after).value;
              && d.revoked == r.revoked
              && View(d) == View(r)
              && d.table.Keys == r.table.Keys
              && forall h | h in d.table ::
                   d.table[h] == r.table[h] || (h in db.table && d.table[h] == db.table[h]
                                                && db.table[h].tier == "" && r.table[h] == Canon(db.table[h]))
  {
    hide RowArgs;
    hide RowToMeta;
    hide Upserts;
    hide Bury;
    hide View;
    hide Diffed;
    hide Replaced;
    DiffedRows(db, after);
    ReplacedRows(db, after);
    forall h | h in after && h !in Upserts(View(db), after)
      ensures h in db.table && RowArgs(after[h]) == Some(Canon(db.table[h]))
      ensures RowToMeta(Canon(db.table[h])) == RowToMeta(db.table[h])
    {
      UnchangedRow(db, after, h);
    }
    UpsertsWithin(View(db), after);
    if Diffed(db, after).Some? {
      SameView(Diffed(db, after).value, Replaced(db, after).value);
    }
  }

  lemma UpsertsWithin(before: Store, after: Store)
    ensures Upserts(before, after) <= after.Keys
  {
  }

  lemma CachedRows<R>(db: Db, m: Mutated<R>)
    requires Valid(db) && m.Done? && m.changed && Transacted(db, m).Some?
    ensures var (db', cached) := Transacted(db, m).value;
            && cached.Keys == db'.table.Keys && Written(db, m.store) <= cached.Keys && cached.Keys <= m.store.Keys
            && (forall h | h in cached :: cached[h] == m.store[h])
            && (forall h | h in Written(db, m.store) :: Some(db'.table[h]) == RowArgs(m.store[h]))
            && (forall h | h in cached && h !in Written(db, m.store) :: Record(RowToMeta(db'.table[h])) == cached[h])
  {
    hide RowArgs;
    hide RowToMeta;
    var after := m.store;
    DiffedRows(db, after);
    assert View(db).Keys == db.table.Keys;
    var dead := Bury(db, db.table.Keys - after.Keys).revoked;
    hide Bury;
    assert Written(db, after) == Upserts(View(db), after) - dead.Keys;
    assert forall h | h in after && h in dead :: h in Upserts(View(db), after);
    UpsertsWithin(View(db), after);
  }

  /** The store a changing transaction returns for caching is the table as readers see it after
      the commit, exactly when every entry it wrote was in normal form. */
  lemma CachedIsTableIff<R>(db: Db, m: Mutated<R>)
    requires Valid(db) && m.Done? && m.changed
    requires Transacted(db, m).Some?
    ensures var (db', cached) := Transacted(db, m).value;
            && cached.Keys == db'.table.Keys
            && (cached == View(db') <==> forall h | h in Written(db, m.store) :: Normal(m.store[h]))
  {
    CachedRows(db, m);
    hide *;
    var (db', cached) := Transacted(db, m).value;
    ViewIff(db', cached, Written(db, m.store));
    assert forall h | h in Written(db, m.store) :: cached[h] == m.store[h];
  }

  lemma ViewIff(db: Db, store: Store, wrote: set<Hash>)
    requires store.Keys == db.table.Keys && wrote <= store.Keys
    requires forall h | h in wrote :: Some(db.table[h]) == RowArgs(store[h])
    requires forall h | h in store && h !in wrote :: Record(RowToMeta(db.table[h])) == store[h]
    ensures store == View(db) <==> forall h | h in wrote :: Normal(store[h])
  {
    hide RowArgs;
    hide RowToMeta;
    hide Normal;
    forall h | h in wrote ensures store[h] == Record(RowToMeta(db.table[h])) <==> Normal(store[h]) {
      RoundTripIffNormal(store[h]);
    }
    if h :| h in wrote && !Normal(store[h]) {
      assert store[h] != View(db)[h];
    } else {
      assert forall h | h in store :: store[h] == View(db)[h];
    }
  }

  /** Why the condition is needed: create_key stores a blank tier when it is asked for one of
      only spaces, and readers of its row see "free". */
  lemma BlankTierDrifts(db: Db, hash: Hash, entry: Entry)
    requires Valid(db) && hash !in db.table && hash !in db.revoked
    requires RowArgs(entry).Some? && entry.Record? && Get(entry.fields, Tier) == Str("")
    ensures var m := Done(true, (), View(db)[hash := entry]);
            && Transacted(db, m).Some?
            && Transacted(db, m).value.1 != View(Transacted(db, m).value.0)
  {
    var before, after := View(db), View(db)[hash := entry];
    assert !Normal(entry);
    assert before.Keys - after.Keys == {};
    OneNewEntry(db, hash, entry);
    hide *;
    CachedIsTableIff(db, Done(true, (), after));
  }

  lemma OneNewEntry(db: Db, hash: Hash, entry: Entry)
    requires Valid(db) && hash !in db.table && hash !in db.revoked && RowArgs(entry).Some?
    ensures var after := View(db)[hash := entry];
            Written(db, after) == {hash} && Diffed(db, after).Some?
  {
    hide RowArgs;
    hide RowToMeta;
    var after := View(db)[hash := entry];
    assert View(db).Keys - after.Keys == {};
    assert Upserts(View(db), after) == {hash};
  }

  // ------------------------------------------------------------------ runs

  /** Whoever writes a legacy entry, the whole store, the import or an insert, its row is read back as
      its user's key, of tier "legacy". */
  lemma LegacyKeyIsItsUsers(db: Db, store: Store, hash: Hash)
    requires hash in store && store[hash].Legacy? && hash !in db.revoked
    ensures Replaced(db, store).Some? ==> ReadsAs(Replaced(db, store).value, hash, store[hash].user)
    ensures Encodes(store) && hash !in db.table ==> ReadsAs(Synced(db, store), hash, store[hash].user)
    ensures hash !in db.table ==> ReadsAs(Insert(db, hash, RowArgs(store[hash]).value), hash, store[hash].user)
  {
    hide RowArgs;
    hide RowToMeta;
    LegacyRoundTrip(store[hash].user);
  }

  predicate ReadsAs(db: Db, hash: Hash, user: string) {
    && hash in View(db) && OwnedBy(View(db)[hash], user)
    && Get(View(db)[hash].fields, Tier) == Str("legacy")
  }

  /** One committed write. Transact is a transaction whose mutation left after; Replace is a
      whole-store write, the one-time import included, of whatever store its caller holds;
      Sync is one insert statement of upsert_keys or of the deploy job. */
  datatype Step =
    | Transact(after: Store)
    | Replace(store: Store)
    | Sync(hash: Hash, entry: Entry)

  /** The table after a step; a write that rolls back changes nothing. */
  function Apply(db: Db, step: Step): Db {
    match step
    case Transact(after) => if Diffed(db, after).Some? then Diffed(db, after).value else db
    case Replace(store) => if Replaced(db, store).Some? then Replaced(db, store).value else db
    case Sync(hash, entry) => if RowArgs(entry).Some? then Insert(db, hash, RowArgs(entry).value) else db
  }

  function Run(db: Db, steps: seq<Step>): Db
    decreases |steps|
  {
    if steps == [] then db else Run(Apply(db, steps[0]), steps[1..])
  }

  /** Tombstones are only added, and keep the tenant they were recorded with. */
  predicate Grows(db: Db, db': Db) {
    forall h | h in db.revoked :: h in db'.revoked && db'.revoked[h] == db.revoked[h]
  }

  /** What a writer takes out of the table it records as revoked. */
  predicate RemovalsRecorded(db: Db, db': Db) {
    forall h | h in db.table && h !in db'.table :: h in db'.revoked
  }

  lemma ApplyKeeps(db: Db, step: Step)
    requires Valid(db)
    ensures Valid(Apply(db, step)) && Grows(db, Apply(db, step)) && RemovalsRecorded(db, Apply(db, step))
  {
    hide RowArgs;
    hide RowToMeta;
    match step
    case Transact(after) =>
      if Diffed(db, after).Some? {
        DiffKeeps(db, after);
      }
    case Replace(store) =>
      if Replaced(db, store).Some? {
        var buried := Bury(db, db.table.Keys - store.Keys);
        var kept := store - buried.revoked.Keys;
        forall h | h in kept ensures Clean(Rows(kept)[h]) { RowArgsClean(kept[h]); }
      }
    case Sync(hash, entry) =>
      if RowArgs(entry).Some? {
        RowArgsClean(entry);
      }
  }

  lemma DiffKeeps(db: Db, after: Store)
    requires Valid(db) && Diffed(db, after).Some?
    ensures var db' := Diffed(db, after).value;
            Valid(db') && Grows(db, db') && RemovalsRecorded(db, db')
  {
    hide RowArgs;
    hide RowToMeta;
    DiffedRows(db, after);
    forall h | h in Diffed(db, after).value.table ensures Clean(Diffed(db, after).value.table[h]) {
      if RowArgs(after[h]).Some? {
        RowArgsClean(after[h]);
      }
    }
  }

  /** Over every run of the four writers, live and revoked keys stay apart and tombstones only grow. */
  lemma {:induction false} RunKeeps(db: Db, steps: seq<Step>)
    requires Valid(db)
    decreases |steps|
    ensures Valid(Run(db, steps)) && Grows(db, Run(db, steps)) && RemovalsRecorded(db, Run(db, steps))
  {
    if steps == [] {
    } else {
      ApplyKeeps(db, steps[0]);
      RunKeeps(Apply(db, steps[0]), steps[1..]);
    }
  }

  lemma {:induction false} RunConcat(db: Db, first: seq<Step>, second: seq<Step>)
    decreases |first|
    ensures Run(db, first + second) == Run(Run(db, first), second)
  {
    if first == [] {
      assert first + second == second;
    } else {
      assert (first + second)[1..] == first[1..] + second;
      RunConcat(Apply(db, first[0]), first[1..], second);
    }
  }

  /** Revocation is permanent: a key live at one point of a run and gone at a later one is never
      live again, whatever stores the later writers hold. */
  lemma RevocationIsPermanent(db: Db, first: seq<Step>, second: seq<Step>, third: seq<Step>, hash: Hash)
    requires Valid(db)
    requires hash in Run(db, first).table && hash !in Run(db, first + second).table
    ensures hash !in Run(db, first + second + third).table
  {
    RunKeeps(db, first);
    RunConcat(db, first, second);
    RunKeeps(Run(db, first), second);
    RunConcat(db, first + second, third);
    RunKeeps(Run(db, first + second), third);
  }

  /** The insert statements of one sync, in any order. */
  function Inserts(store: Store, order: seq<Hash>): seq<Step>
    requires forall h | h in order :: h in store
  {
    seq(|order|, i requires 0 <= i < |order| => Sync(order[i], store[order[i]]))
  }

  /** They add up to one insert-only write, whatever the order: no existing row is touched and
      no revoked key comes back. */
  lemma {:induction false} SyncRunIsSynced(db: Db, store: Store, order: seq<Hash>)
    requires Encodes(store) && (forall h | h in order :: h in store)
    ensures Encodes(Keep(store, set h | h in order))
    ensures Run(db, Inserts(store, order)) == Synced(db, Keep(store, set h | h in order))
    decreases |order|
  {
    hide RowArgs;
    hide Encodes;
    hide Synced;
    hide Keep;
    hide Insert;
    if order == [] {
      assert (set h | h in order) == {};
      SyncedNothing(db, store);
    } else {
      var n := |order| - 1;
      var done := set h | h in order[..n];
      var last := Sync(order[n], store[order[n]]);
      SyncRunIsSynced(db, store, order[..n]);
      assert (set h | h in order) == done + {order[n]} by {
        assert order == order[..n] + [order[n]];
      }
      assert Inserts(store, order) == Inserts(store, order[..n]) + [last];
      RunConcat(db, Inserts(store, order[..n]), [last]);
      EncodesAt(store, order[n]);
      SyncedOneMore(db, store, done, order[n]);
      var mid := Synced(db, Keep(store, done));
      assert Run(mid, [last]) == Run(Apply(mid, last), []);
    }
  }

  lemma EncodesAt(store: Store, hash: Hash)
    requires Encodes(store) && hash in store
    ensures RowArgs(store[hash]).Some?
  {
  }

  /** import_blob_store_once reads the count in one transaction and writes in another. Any key
      committed in between is revoked for good: an import is safe only while the table is
      still empty at its write, and then nothing is revoked. */
  lemma ImportRevokesWhatItFinds(db: Db, blob: Store)
    requires Valid(db) && Replaced(db, blob).Some?
    ensures var db' := Replaced(db, blob).value;
            db'.revoked == db.revoked <==> forall h | h in db.table :: h in blob
  {
    var db' := Replaced(db, blob).value;
    if h :| h in db.table && h !in blob {
      assert h in db'.revoked && h !in db.revoked;
    }
  }

  /** Such a run: the table is empty when the import counts, a new key is committed, and the import
      writes the blob it read. The new key is revoked and stays out whatever is written later. */
  lemma LateKeyIsRevoked(hash: Hash, entry: Entry, blob: Store, later: seq<Step>)
    requires RowArgs(entry).Some? && Encodes(blob) && hash !in blob
    ensures var db := Db(map[], map[]);
            var commit, write := Transact(map[hash := entry]), Replace(blob);
            && hash in Run(db, [commit]).table
            && Run(db, [commit, write]).table.Keys == blob.Keys
            && hash in Run(db, [commit, write]).revoked
            && hash !in Run(db, [commit, write] + later).table
  {
    var db := Db(map[], map[]);
    var commit, write := Transact(map[hash := entry]), Replace(blob);
    assert View(db)[hash := entry] == map[hash := entry];
    OneNewEntry(db, hash, entry);
    var one := Apply(db, commit);
    LateCommit(hash, entry);
    LateWrite(one, hash, blob);
    var two := Apply(one, write);
    RunOfTwo(db, commit, write);
    hide *;
    assert [commit] + [write] == [commit, write];
    RevocationIsPermanent(db, [commit], [write], later, hash);
  }

  lemma RunOfTwo(db: Db, a: Step, b: Step)
    ensures Valid(Db(map[], map[]))
    ensures Run(db, [a]) == Apply(db, a) && Run(db, [a, b]) == Apply(Apply(db, a), b)
  {
    hide Apply;
    var one := Apply(db, a);
    assert [a][1..] == [] && [a, b][1..] == [b] && [b][1..] == [];
    assert Run(one, [b]) == Run(Apply(one, b), []);
  }

  lemma LateCommit(hash: Hash, entry: Entry)
    requires RowArgs(entry).Some?
    ensures Apply(Db(map[], map[]), Transact(map[hash := entry])) == Db(map[hash := RowArgs(entry).value], map[])
  {
    hide RowArgs;
    hide RowToMeta;
    var db, after := Db(map[], map[]), map[hash := entry];
    assert View(db) == map[];
    assert Upserts(View(db), after) == {hash};
    assert Keep(after, {hash}) == after;
    assert View(db).Keys - after.Keys == {};
  }

  lemma LateWrite(db: Db, hash: Hash, blob: Store)
    requires db.table.Keys == {hash} && db.revoked == map[] && Encodes(blob) && hash !in blob
    ensures var after := Apply(db, Replace(blob)); after.table.Keys == blob.Keys && hash in after.revoked
  {
    hide RowArgs;
    var buried := Bury(db, db.table.Keys - blob.Keys);
    assert buried.revoked.Keys == {hash};
    assert blob - buried.revoked.Keys == blob;
  }
}
