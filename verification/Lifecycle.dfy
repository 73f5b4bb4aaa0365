/** The lifecycle writes on the key store (src/proxy/auth/api_key_manager.py): create, suspend,
    contract, allowlist, delete and rotate. A store is a dict, so its keys have an order. */
module Lifecycle {
  import opened KeyEntry
  import opened Options
  import opened KeyTable
  import opened Seqs

  // ------------------------------------------------------------------ string order and max()

  /** Code point order, as Python compares strings. */
  predicate AtMost(a: string, b: string) {
    a == [] || (b != [] && (a[0] < b[0] || (a[0] == b[0] && AtMost(a[1..], b[1..]))))
  }

  lemma {:induction false} AtMostTotal(a: string, b: string)
    ensures AtMost(a, b) || AtMost(b, a)
    ensures AtMost(a, b) && AtMost(b, a) ==> a == b
  {
    if a == [] || b == [] || a[0] != b[0] {
    } else {
      AtMostTotal(a[1..], b[1..]);
    }
  }

  lemma {:induction false} AtMostTrans(a: string, b: string, c: string)
    requires AtMost(a, b) && AtMost(b, c)
    ensures AtMost(a, c)
  {
    if a == [] || a[0] != b[0] || b[0] != c[0] {
    } else {
      AtMostTrans(a[1..], b[1..], c[1..]);
    }
  }

  /** a comes before b: it is a proper prefix of b, or has the smaller character where they first
      differ. */
  predicate Earlier(a: string, b: string) {
    a < b || exists i | 0 <= i < |a| && i < |b| :: a[..i] == b[..i] && a[i] < b[i]
  }

  lemma {:induction false} AtMostIsEarlier(a: string, b: string)
    ensures AtMost(a, b) <==> a == b || Earlier(a, b)
  {
    if a == [] || b == [] {
    } else {
      AtMostIsEarlier(a[1..], b[1..]);
      assert a == [a[0]] + a[1..] && b == [b[0]] + b[1..];
      if i :| 0 <= i < |a| && i < |b| && a[..i] == b[..i] && a[i] < b[i] {
        if i > 0 {
          assert a[0] == a[..i][0] && b[0] == b[..i][0];
          assert a[1..][..i - 1] == a[..i][1..] && b[1..][..i - 1] == b[..i][1..];
        }
      }
      if a[0] == b[0] {
        if i :| 0 <= i < |a[1..]| && i < |b[1..]| && a[1..][..i] == b[1..][..i] && a[1..][i] < b[1..][i] {
          assert a[..i + 1] == [a[0]] + a[1..][..i] && b[..i + 1] == [b[0]] + b[1..][..i];
        }
      } else if a[0] < b[0] {
        assert a[..0] == b[..0];
      }
    }
  }

  type Dated = (string, seq<string>)

  /** Python's max by date: the first of the largest. */
  function FirstMax<T>(xs: seq<(string, T)>): (string, T)
    requires xs != []
  {
    var n := |xs| - 1;
    if n == 0 then xs[0] else
      var best := FirstMax(xs[..n]);
      if AtMost(xs[n].0, best.0) then best else xs[n]
  }

  /** The last of the largest. */
  function LastMax<T>(xs: seq<(string, T)>): (string, T)
    requires xs != []
  {
    var n := |xs| - 1;
    if n == 0 then xs[0] else
      var best := LastMax(xs[..n]);
      if AtMost(best.0, xs[n].0) then xs[n] else best
  }

  lemma {:induction false} MaxIsLargest<T>(xs: seq<(string, T)>)
    requires xs != []
    ensures FirstMax(xs) in xs && LastMax(xs) in xs && FirstMax(xs).0 == LastMax(xs).0
    ensures forall x | x in xs :: AtMost(x.0, FirstMax(xs).0)
  {
    var n := |xs| - 1;
    AtMostTotal(xs[n].0, xs[n].0);
    if n == 0 {
    } else {
      var best := FirstMax(xs[..n]);
      MaxIsLargest(xs[..n]);
      AtMostTotal(xs[n].0, best.0);
      hide AtMost;
      forall x | x in xs ensures AtMost(x.0, FirstMax(xs).0) {
        var i :| 0 <= i < |xs| && xs[i] == x;
        if i < n {
          assert xs[..n][i] == x;
          if FirstMax(xs) == xs[n] {
            AtMostTotal(xs[n].0, best.0);
            AtMostTrans(x.0, best.0, xs[n].0);
          }
        }
      }
    }
  }

  // ------------------------------------------------------------------ reading the store

  function CreatedAtOrBlank(f: Fields): string {
    if Get(f, CreatedAt).Str? then Get(f, CreatedAt).s else ""
  }

  /** order is a dict order of store. */
  predicate Orders(order: seq<Hash>, store: Store) {
    && NoDuplicates(order)
    && (forall h | h in order :: h in store) && (forall h | h in store :: h in order)
  }

  /** The list an allowlist is enforced and shown as: of its elements as text. Any other value
      restricts nothing. */
  function ListOf(value: Json): seq<string> {
    match value
    case Strs(items) => items
    case Mixed(shown, _) => shown
    case _ => []
  }

  predicate Restricts(store: Store, h: Hash, tenant: Tenant) {
    h in store && OwnedBy(store[h], tenant)
    && ListOf(Get(store[h].fields, IpAllowlist)) != []
  }

  /** The tenant's non-empty allowlists with the dates of the keys carrying them, in dict order. */
  function Allowlists(store: Store, order: seq<Hash>, tenant: Tenant): seq<Dated> {
    if order == [] then [] else
      var n := |order| - 1;
      var h := order[n];
      Allowlists(store, order[..n], tenant)
      + if Restricts(store, h, tenant)
        then [(CreatedAtOrBlank(store[h].fields), ListOf(Get(store[h].fields, IpAllowlist)))] else []
  }

  /** _tenant_allowlist: the newest non-empty list among the tenant's keys, which is enforced. */
  function TenantAllowlist(store: Store, order: seq<Hash>, tenant: Tenant): seq<string> {
    var lists := Allowlists(store, order, tenant);
    if lists == [] then [] else FirstMax(lists).1
  }

  /** The tenant list_tenants counts a key under: "default" if the key names none. */
  predicate ShownUnder(entry: Entry, tenant: Tenant) {
    entry.Record? && (if TenantId in entry.fields then entry.fields[TenantId] else Str("default")) == Str(tenant)
  }

  function Named(entry: Entry): Entry {
    if entry.Record? && TenantId !in entry.fields then Record(entry.fields[TenantId := Str("default")]) else entry
  }

  /** The store as list_tenants groups it: a key that names no tenant is one of "default". */
  function Grouped(store: Store): Store {
    map h | h in store :: Named(store[h])
  }

  /** The list list_tenants shows: its loop keeps the last of the newest. */
  function ListedAllowlist(store: Store, order: seq<Hash>, tenant: Tenant): seq<string> {
    var lists := Allowlists(Grouped(store), order, tenant);
    if lists == [] then [] else LastMax(lists).1
  }

  lemma GroupedIs(store: Store, h: Hash, tenant: Tenant)
    requires h in store
    ensures h in Grouped(store) && (OwnedBy(Grouped(store)[h], tenant) <==> ShownUnder(store[h], tenant))
    ensures store[h].Record? ==>
              var f, g := store[h].fields, Grouped(store)[h].fields;
              && Get(g, IpAllowlist) == Get(f, IpAllowlist) && CreatedAtOrBlank(g) == CreatedAtOrBlank(f)
    ensures OwnedBy(store[h], tenant) ==> Grouped(store)[h] == store[h]
  {
  }

  /** The tenant's keys with their dates, in dict order. */
  function Owned(store: Store, order: seq<Hash>, tenant: Tenant): seq<(string, Fields)> {
    if order == [] then [] else
      var n := |order| - 1;
      var h := order[n];
      Owned(store, order[..n], tenant)
      + if h in store && OwnedBy(store[h], tenant) then [(CreatedAtOrBlank(store[h].fields), store[h].fields)] else []
  }

  function KeysOf(store: Store, tenant: Tenant): set<Hash> {
    set h | h in store && OwnedBy(store[h], tenant)
  }

  // ------------------------------------------------------------------ the writes

  /** set_suspended, set_contract_active (Deactivate is its inactive flag) and set_ip_allowlist. */
  datatype Edit = Suspend(on: bool) | Deactivate(on: bool) | Allow(cidrs: seq<string>)

  /** list(value or []), where that is a list of strings: of a string its characters, of an object
      its names. */
  function AsList(value: Json): Option<seq<string>> {
    match value
    case Strs(items) => Some(items)
    case Str(s) => Some(seq(|s|, i requires 0 <= i < |s| => [s[i]]))
    case Object(names, _) => Some(names)
    case _ => if value.Truthy() then None else Some([])
  }

  /** list(value or []) raises: there is no list of a number or of true. */
  predicate Unlistable(value: Json) {
    (value.Bool? || value.Number?) && value.Truthy()
  }

  lemma UnlistableIff(value: Json)
    ensures Unlistable(value) <==> value == Bool(true) || (value.Number? && !value.zero)
  {
  }

  /** The edit of this key raises. */
  predicate Balks(entry: Entry, tenant: Tenant, edit: Edit) {
    OwnedBy(entry, tenant) && edit.Allow? && Unlistable(Get(entry.fields, IpAllowlist))
  }

  predicate Balked(store: Store, tenant: Tenant, edit: Edit) {
    exists h | h in store :: Balks(store[h], tenant, edit)
  }

  predicate Changes(f: Fields, edit: Edit) {
    match edit
    case Suspend(on) => Get(f, Suspended).Truthy() != on
    case Deactivate(on) => Get(f, ContractInactive).Truthy() != on
    case Allow(cidrs) => AsList(Get(f, IpAllowlist)) != Some(cidrs)
  }

  function SetOrPop(f: Fields, name: Name, present: bool, value: Json): Fields {
    if present then f[name := value] else f - {name}
  }

  function Edited(f: Fields, edit: Edit): Fields {
    match edit
    case Suspend(on) => SetOrPop(f, Suspended, on, Bool(true))
    case Deactivate(on) => SetOrPop(f, ContractInactive, on, Bool(true))
    case Allow(cidrs) => SetOrPop(f, IpAllowlist, cidrs != [], Strs(cidrs))
  }

  predicate ToChange(entry: Entry, tenant: Tenant, edit: Edit) {
    OwnedBy(entry, tenant) && Changes(entry.fields, edit)
  }

  function StampedEntry(entry: Entry, tenant: Tenant, edit: Edit): Entry {
    if ToChange(entry, tenant, edit) then Record(Edited(entry.fields, edit)) else entry
  }

  function Stamped(store: Store, tenant: Tenant, edit: Edit): Store {
    map h | h in store :: StampedEntry(store[h], tenant, edit)
  }

  function StampChanges(store: Store, tenant: Tenant, edit: Edit): set<Hash> {
    set h | h in store && ToChange(store[h], tenant, edit)
  }

  /** The store when the loop has visited the keys of done. */
  function StampedOn(store: Store, tenant: Tenant, edit: Edit, done: set<Hash>): Store {
    map h | h in store :: if h in done then StampedEntry(store[h], tenant, edit) else store[h]
  }

  function ChangedOn(store: Store, tenant: Tenant, edit: Edit, done: set<Hash>): set<Hash> {
    set h | h in store && h in done && ToChange(store[h], tenant, edit)
  }

  lemma StampedOnAll(store: Store, tenant: Tenant, edit: Edit)
    ensures StampedOn(store, tenant, edit, {}) == store && ChangedOn(store, tenant, edit, {}) == {}
    ensures StampedOn(store, tenant, edit, store.Keys) == Stamped(store, tenant, edit)
    ensures ChangedOn(store, tenant, edit, store.Keys) == StampChanges(store, tenant, edit)
  {
    hide ToChange;
    hide StampedEntry;
  }

  lemma StampedOnOneMore(store: Store, tenant: Tenant, edit: Edit, done: set<Hash>, h: Hash)
    requires h in store && h !in done
    ensures var part := StampedOn(store, tenant, edit, done);
            && part.Keys == store.Keys && part[h] == store[h]
            && StampedOn(store, tenant, edit, done + {h}) == part[h := StampedEntry(store[h], tenant, edit)]
    ensures |ChangedOn(store, tenant, edit, done + {h})|
         == |ChangedOn(store, tenant, edit, done)| + if ToChange(store[h], tenant, edit) then 1 else 0
  {
    hide ToChange;
    hide StampedEntry;
    assert ChangedOn(store, tenant, edit, done + {h})
        == ChangedOn(store, tenant, edit, done) + if ToChange(store[h], tenant, edit) then {h} else {};
  }

  /** A new key's metadata. Every name the store uses itself is reserved, so extra only adds others. */
  function NewFields(tenant: Tenant, tier: string, admin: bool, gateway: bool, extra: Fields,
                     now: string, cidrs: seq<string>): Fields {
    (map k | k in extra && k.Extra? :: extra[k])
    + map[TenantId := Str(tenant), Tier := Str(tier), CreatedAt := Str(now)]
    + Flag(Admin, admin) + Flag(Gateway, gateway)
    + if cidrs == [] then map[] else map[IpAllowlist := Strs(cidrs)]
  }

  /** The metadata of the key a rotation issues, from the newest key it replaces. */
  function RotatedFields(newest: Fields, tenant: Tenant, suspended: bool, now: string, cidrs: seq<string>): Fields {
    (map k | k in newest && k !in {TenantId, Tier, CreatedAt, Admin, Suspended, Gateway, IpAllowlist} :: newest[k])
    + map[TenantId := Str(tenant), Tier := if Get(newest, Tier).Truthy() then Get(newest, Tier) else Str("free"),
          CreatedAt := Str(now)]
    + Flag(Admin, Get(newest, Admin).Truthy()) + Flag(Gateway, Get(newest, Gateway) == Bool(true))
    + Flag(Suspended, suspended)
    + if cidrs == [] then map[] else map[IpAllowlist := Strs(cidrs)]
  }

  /** What the store reads of a new key. */
  lemma NewFieldsGets(tenant: Tenant, tier: string, admin: bool, gateway: bool, extra: Fields,
                      now: string, cidrs: seq<string>)
    ensures var f := NewFields(tenant, tier, admin, gateway, extra, now, cidrs);
            && Get(f, TenantId) == Str(tenant)
            && Get(f, IpAllowlist) == (if cidrs == [] then Null else Strs(cidrs))
  {
  }

  lemma NewFieldsNormal(tenant: Tenant, tier: string, admin: bool, gateway: bool, extra: Fields,
                        now: string, cidrs: seq<string>)
    requires tier != ""
    ensures Normal(Record(NewFields(tenant, tier, admin, gateway, extra, now, cidrs)))
  {
  }

  /** What the store reads of a rotated key. */
  lemma RotatedFieldsGets(newest: Fields, tenant: Tenant, suspended: bool, now: string, cidrs: seq<string>)
    ensures var f := RotatedFields(newest, tenant, suspended, now, cidrs);
            && Get(f, TenantId) == Str(tenant)
            && Get(f, IpAllowlist) == (if cidrs == [] then Null else Strs(cidrs))
  {
  }

  lemma RotatedContract(newest: Fields, tenant: Tenant, suspended: bool, now: string, cidrs: seq<string>)
    ensures Get(RotatedFields(newest, tenant, suspended, now, cidrs), ContractInactive) == Get(newest, ContractInactive)
  {
  }

  lemma RotatedFlags(newest: Fields, tenant: Tenant, suspended: bool, now: string, cidrs: seq<string>)
    ensures var f := RotatedFields(newest, tenant, suspended, now, cidrs);
            && Get(f, Suspended).Truthy() == suspended
            && Get(f, Admin).Truthy() == Get(newest, Admin).Truthy()
            && (Get(f, Gateway) == Bool(true) <==> Get(newest, Gateway) == Bool(true))
  {
  }

  lemma RotatedNormal(newest: Fields, tenant: Tenant, suspended: bool, now: string, cidrs: seq<string>)
    requires Normal(Record(newest))
    ensures Normal(Record(RotatedFields(newest, tenant, suspended, now, cidrs)))
  {
    RotatedColumns(newest, tenant, suspended, now, cidrs);
    RotatedTrust(newest, tenant, suspended, now, cidrs);
    hide RotatedFields;
  }

  lemma RotatedColumns(newest: Fields, tenant: Tenant, suspended: bool, now: string, cidrs: seq<string>)
    requires Get(newest, Tier).Str?
    ensures var f := RotatedFields(newest, tenant, suspended, now, cidrs);
            && TenantId in f && f[TenantId].Str? && CreatedAt in f && f[CreatedAt].Str?
            && Tier in f && f[Tier].Str? && f[Tier].s != ""
  {
  }

  lemma RotatedTrust(newest: Fields, tenant: Tenant, suspended: bool, now: string, cidrs: seq<string>)
    ensures var f := RotatedFields(newest, tenant, suspended, now, cidrs);
            && (Admin in f ==> f[Admin] == Bool(true)) && (Suspended in f ==> f[Suspended] == Bool(true))
  {
  }

  function RotatedEntry(store: Store, order: seq<Hash>, tenant: Tenant, now: string): Entry
    requires Owned(store, order, tenant) != []
  {
    Record(RotatedFields(FirstMax(Owned(store, order, tenant)).1, tenant,
                         exists h | h in KeysOf(store, tenant) :: Get(store[h].fields, Suspended).Truthy(),
                         now, TenantAllowlist(store, order, tenant)))
  }

  /** One lifecycle call. tier is stripped and lower-cased already; hash is the new key's. */
  datatype Op =
    | Create(tenant: Tenant, tier: string, admin: bool, gateway: bool, extra: Fields, hash: Hash, now: string)
    | Stamp(tenant: Tenant, edit: Edit)
    | Delete(tenant: Tenant)
    | Rotate(tenant: Tenant, hash: Hash, now: string)

  /** What the call's mutation does to the store it is handed, and the count it returns. */
  function Mutate(store: Store, order: seq<Hash>, op: Op): Mutated<nat> {
    match op
    case Create(tenant, tier, admin, gateway, extra, hash, now) =>
      if tenant == "" || hash in store then Raised else
        Done(true, 1, store[hash := Record(NewFields(tenant, tier, admin, gateway, extra, now,
                                                     TenantAllowlist(store, order, tenant)))])
    case Stamp(tenant, edit) =>
      if Balked(store, tenant, edit) then Raised else
        var changed := |StampChanges(store, tenant, edit)|;
        Done(changed > 0, changed, Stamped(store, tenant, edit))
    case Delete(tenant) =>
      var gone := KeysOf(store, tenant);
      Done(gone != {}, |gone|, store - gone)
    case Rotate(tenant, hash, now) =>
      if tenant == "" || Owned(store, order, tenant) == [] then Raised else
        var gone := KeysOf(store, tenant);
        Done(true, |gone|, (store - gone)[hash := RotatedEntry(store, order, tenant, now)])
  }

  /** The dict order afterwards: deleted keys drop out, a new one comes last. */
  function NextOrder(store: Store, order: seq<Hash>, op: Op): seq<Hash> {
    match op
    case Create(_, _, _, _, _, hash, _) => order + [hash]
    case Stamp(_, _) => order
    case Delete(tenant) => Without(order, KeysOf(store, tenant))
    case Rotate(tenant, hash, _) => Without(order, KeysOf(store, tenant)) + [hash]
  }

  function Without(order: seq<Hash>, gone: set<Hash>): seq<Hash> {
    if order == [] then [] else
      var n := |order| - 1;
      Without(order[..n], gone) + if order[n] in gone then [] else [order[n]]
  }

  /** A new key is random: no key of the store has its hash. */
  predicate IssuesNewKey(store: Store, op: Op) {
    op.Rotate? ==> op.hash !in store
  }

  // ------------------------------------------------------------------ the store dict, edited in place

  /** Of the keys in dict order the one at i is the first whose edit raises. */
  ghost predicate FirstBalk(store: Store, order: seq<Hash>, tenant: Tenant, edit: Edit, i: int) {
    && 0 <= i < |order| && (forall h | h in order :: h in store)
    && Balks(store[order[i]], tenant, edit)
    && forall j: nat | j < i :: !Balks(store[order[j]], tenant, edit)
  }

  class StoreDict {
    var order: seq<Hash>
    var entries: Store

    ghost predicate Valid()
      reads this
    {
      Orders(order, entries)
    }

    /** The loop set_suspended, set_contract_active and set_ip_allowlist share. It stops at the
        first key whose edit raises; the caller then drops the dict. */
    method StampAll(tenant: Tenant, edit: Edit) returns (changed: Option<nat>)
      requires Valid()
      modifies this`entries
      ensures Valid()
      ensures changed.None? <==> Balked(old(entries), tenant, edit)
      ensures changed.Some? ==> entries == Stamped(old(entries), tenant, edit)
      ensures changed.Some? ==> changed.value == |StampChanges(old(entries), tenant, edit)|
      ensures changed.None? ==>
                exists i :: FirstBalk(old(entries), order, tenant, edit, i)
                         && entries == StampedOn(old(entries), tenant, edit, set h | h in order[..i])
    {
      hide StampedOn;
      hide ChangedOn;
      hide Edited;
      hide Changes;
      hide Stamped;
      hide StampChanges;
      hide Balks;
      var n := 0;
      ghost var store, done := entries, {};
      StampedOnAll(store, tenant, edit);
      for i := 0 to |order|
        invariant done == set h | h in order[..i]
        invariant entries == StampedOn(store, tenant, edit, done)
        invariant n == |ChangedOn(store, tenant, edit, done)|
        invariant entries.Keys == store.Keys
        invariant forall j: nat | j < i :: !Balks(store[order[j]], tenant, edit)
      {
        var h := order[i];
        assert order[..i + 1] == order[..i] + [h];
        assert h !in done;
        assert entries[h := entries[h]] == entries;
        StampedOnOneMore(store, tenant, edit, done, h);
        if Balks(entries[h], tenant, edit) {
          assert FirstBalk(store, order, tenant, edit, i);
          return None;
        }
        if OwnedBy(entries[h], tenant) && Changes(entries[h].fields, edit) {
          entries := entries[h := Record(Edited(entries[h].fields, edit))];
          n := n + 1;
        }
        done := done + {h};
      }
      assert order[..|order|] == order;
      assert done == store.Keys;
      return Some(n);
    }

    /** The deletions of delete_tenant_keys and of a rotation. */
    method RemoveAll(tenant: Tenant) returns (removed: nat)
      requires Valid()
      modifies this
      ensures Valid()
      ensures entries == old(entries) - KeysOf(old(entries), tenant)
      ensures order == Without(old(order), KeysOf(old(entries), tenant))
      ensures removed == |KeysOf(old(entries), tenant)|
    {
      var gone := set h | h in entries && OwnedBy(entries[h], tenant);
      assert gone == KeysOf(entries, tenant);
      var kept, i := [], 0;
      while i < |order|
        invariant i <= |order| && kept == Without(order[..i], gone)
      {
        assert order[..i + 1][..i] == order[..i];
        if order[i] !in gone {
          kept := kept + [order[i]];
        }
        i := i + 1;
      }
      assert order[..i] == order;
      WithoutOrders(order, gone);
      order, entries := kept, entries - gone;
      return |gone|;
    }

    /** _tenant_allowlist, one pass keeping the newest list seen. */
    method EffectiveAllowlist(tenant: Tenant) returns (cidrs: seq<string>)
      ensures cidrs == TenantAllowlist(entries, order, tenant)
    {
      var at := "";
      cidrs := [];
      ghost var lists := [];
      for i := 0 to |order|
        invariant lists == Allowlists(entries, order[..i], tenant)
        invariant if lists == [] then cidrs == [] else (at, cidrs) == FirstMax(lists) && cidrs != []
      {
        var h := order[i];
        assert order[..i + 1][..i] == order[..i];
        if Restricts(entries, h, tenant) {
          var f := entries[h].fields;
          ghost var longer := lists + [(CreatedAtOrBlank(f), ListOf(Get(f, IpAllowlist)))];
          assert longer[..|lists|] == lists;
          if cidrs == [] || !AtMost(CreatedAtOrBlank(f), at) {
            at, cidrs := CreatedAtOrBlank(f), ListOf(Get(f, IpAllowlist));
          }
          lists := longer;
        }
      }
      assert order[..|order|] == order;
    }

    /** What list_tenants shows: its pass over the keys keeps a list of a date at least the last kept. */
    method ShownAllowlist(tenant: Tenant) returns (cidrs: seq<string>)
      requires Valid()
      ensures cidrs == ListedAllowlist(entries, order, tenant)
    {
      hide Grouped;
      var at := "";
      cidrs := [];
      ghost var lists := [];
      for i := 0 to |order|
        invariant lists == Allowlists(Grouped(entries), order[..i], tenant)
        invariant if lists == [] then cidrs == [] && at == "" else (at, cidrs) == LastMax(lists)
      {
        var h := order[i];
        assert order[..i + 1][..i] == order[..i];
        GroupedIs(entries, h, tenant);
        if ShownUnder(entries[h], tenant) && ListOf(Get(entries[h].fields, IpAllowlist)) != [] {
          var f := entries[h].fields;
          ghost var longer := lists + [(CreatedAtOrBlank(f), ListOf(Get(f, IpAllowlist)))];
          assert longer[..|lists|] == lists;
          if AtMost(at, CreatedAtOrBlank(f)) {
            at, cidrs := CreatedAtOrBlank(f), ListOf(Get(f, IpAllowlist));
          }
          lists := longer;
        }
      }
      assert order[..|order|] == order;
    }

    /** create_key's add(). */
    method Create(op: Op) returns (ok: bool)
      requires Valid() && op.Create?
      modifies this
      ensures Valid()
      ensures ok <==> Mutate(old(entries), old(order), op).Done?
      ensures !ok ==> entries == old(entries) && order == old(order)
      ensures ok ==> entries == Mutate(old(entries), old(order), op).store
      ensures ok ==> order == NextOrder(old(entries), old(order), op)
    {
      if op.tenant == "" || op.hash in entries {
        return false;
      }
      var cidrs := EffectiveAllowlist(op.tenant);
      entries := entries[op.hash := Record(NewFields(op.tenant, op.tier, op.admin, op.gateway, op.extra, op.now, cidrs))];
      order := order + [op.hash];
      return true;
    }

    /** rotate_tenant_keys's rotate(): read the newest key and the allowlist, then swap the
        tenant's keys for the one it issues. Returns how many it revoked. */
    method Rotate(op: Op) returns (revoked: Option<nat>)
      requires Valid() && op.Rotate? && IssuesNewKey(entries, op)
      modifies this
      ensures Valid()
      ensures revoked.Some? <==> Mutate(old(entries), old(order), op).Done?
      ensures revoked.None? ==> entries == old(entries) && order == old(order)
      ensures revoked.Some? ==> var m := Mutate(old(entries), old(order), op);
                                entries == m.store && revoked == Some(m.result)
      ensures revoked.Some? ==> order == NextOrder(old(entries), old(order), op)
    {
      hide RotatedFields;
      var owned := Owned(entries, order, op.tenant);
      if op.tenant == "" || owned == [] {
        return None;
      }
      var cidrs := EffectiveAllowlist(op.tenant);
      var suspended := exists h | h in KeysOf(entries, op.tenant) :: Get(entries[h].fields, Suspended).Truthy();
      var issued := Record(RotatedFields(FirstMax(owned).1, op.tenant, suspended, op.now, cidrs));
      assert issued == RotatedEntry(entries, order, op.tenant, op.now);
      var gone := RemoveAll(op.tenant);
      assert op.hash !in order;
      entries := entries[op.hash := issued];
      order := order + [op.hash];
      return Some(gone);
    }
  }

  lemma {:induction false} WithoutOrders(order: seq<Hash>, gone: set<Hash>)
    requires NoDuplicates(order)
    ensures forall h :: h in Without(order, gone) <==> h in order && h !in gone
    ensures NoDuplicates(Without(order, gone))
    decreases |order|
  {
    if order == [] {
    } else {
      var n := |order| - 1;
      assert NoDuplicates(order[..n]);
      WithoutOrders(order[..n], gone);
      assert order == order[..n] + [order[n]];
      assert order[n] !in order[..n];
    }
  }

  /** After every call the dict order is one of the store the call left. */
  lemma CallKeepsOrder(store: Store, order: seq<Hash>, op: Op)
    requires Orders(order, store) && IssuesNewKey(store, op) && Mutate(store, order, op).Done?
    ensures Orders(NextOrder(store, order, op), Mutate(store, order, op).store)
  {
    hide RotatedEntry;
    hide NewFields;
    hide TenantAllowlist;
    hide Owned;
    hide Edited;
    hide Changes;
    match op
    case Create(_, _, _, _, _, hash, _) =>
      OrdersMore(order, store, hash, Mutate(store, order, op).store[hash]);
    case Stamp(_, _) =>
    case Delete(tenant) =>
      OrdersLess(order, store, KeysOf(store, tenant));
    case Rotate(tenant, hash, _) =>
      var gone := KeysOf(store, tenant);
      OrdersLess(order, store, gone);
      OrdersMore(Without(order, gone), store - gone, hash, Mutate(store, order, op).store[hash]);
  }

  lemma OrdersMore(order: seq<Hash>, store: Store, h: Hash, e: Entry)
    requires Orders(order, store) && h !in store
    ensures Orders(order + [h], store[h := e])
  {
  }

  lemma OrdersLess(order: seq<Hash>, store: Store, gone: set<Hash>)
    requires Orders(order, store)
    ensures Orders(Without(order, gone), store - gone)
  {
    WithoutOrders(order, gone);
  }

  // ------------------------------------------------------------------ what one call changes

  /** A call for one tenant changes no entry of another tenant and no legacy entry, adds none
      and removes none. */
  lemma CallIsConfined(store: Store, order: seq<Hash>, op: Op)
    requires Mutate(store, order, op).Done? && IssuesNewKey(store, op)
    ensures var after := Mutate(store, order, op).store;
            && (forall h | h in store && !OwnedBy(store[h], op.tenant) :: h in after && after[h] == store[h])
            && (forall h | h in after && !OwnedBy(after[h], op.tenant) :: h in store && after[h] == store[h])
  {
    hide NewFields;
    hide RotatedFields;
    match op
    case Create(tenant, tier, admin, gateway, extra, hash, now) =>
      NewFieldsGets(tenant, tier, admin, gateway, extra, now, TenantAllowlist(store, order, tenant));
    case Rotate(_, _, _) =>
      RotatedGets(store, order, op);
    case _ =>
  }

  /** A call that reports no change left the store alone. */
  lemma UnchangedIsUntouched(store: Store, order: seq<Hash>, op: Op)
    requires Mutate(store, order, op).Done? && !Mutate(store, order, op).changed
    ensures Mutate(store, order, op).store == store
  {
    match op
    case Stamp(tenant, edit) =>
      assert StampChanges(store, tenant, edit) == {};
      assert forall h | h in store :: h !in StampChanges(store, tenant, edit);
    case Delete(tenant) =>
      assert store - {} == store;
    case _ =>
  }

  // ------------------------------------------------------------------ what each call is for

  function FieldOf(edit: Edit): Name {
    match edit
    case Suspend(_) => Suspended
    case Deactivate(_) => ContractInactive
    case Allow(_) => IpAllowlist
  }

  /** What readers of the key see is what the edit asked for. */
  predicate Says(f: Fields, edit: Edit) {
    match edit
    case Suspend(on) => Get(f, Suspended).Truthy() == on
    case Deactivate(on) => Get(f, ContractInactive).Truthy() == on
    case Allow(cidrs) => AsList(Get(f, IpAllowlist)) == Some(cidrs)
  }

  lemma EditSays(f: Fields, edit: Edit)
    ensures Says(Edited(f, edit), edit) && (Changes(f, edit) <==> !Says(f, edit))
    ensures forall k | k != FieldOf(edit) :: (k in Edited(f, edit) <==> k in f) && Get(Edited(f, edit), k) == Get(f, k)
  {
  }

  lemma SaidNotBalking(entry: Entry, tenant: Tenant, edit: Edit)
    requires entry.Record? && Says(entry.fields, edit)
    ensures !Balks(entry, tenant, edit)
  {
  }

  /** A suspend, contract or allowlist call raises exactly when an allowlist is set over a number or
      true. After one that does not, every key of the tenant says what was asked and is otherwise as
      it was; the same keys are the tenant's, and calling again changes nothing. */
  lemma StampTakesEffect(store: Store, order: seq<Hash>, tenant: Tenant, edit: Edit)
    ensures var m := Mutate(store, order, Stamp(tenant, edit));
            && (m.Raised? <==> edit.Allow? && exists h :: h in KeysOf(store, tenant)
                                                       && Unlistable(Get(store[h].fields, IpAllowlist)))
            && (m.Done? ==>
                  && m.store.Keys == store.Keys && KeysOf(m.store, tenant) == KeysOf(store, tenant)
                  && (forall h | h in KeysOf(store, tenant) :: Says(m.store[h].fields, edit))
                  && (forall h, k | h in KeysOf(store, tenant) && k != FieldOf(edit) ::
                        Get(m.store[h].fields, k) == Get(store[h].fields, k))
                  && Mutate(m.store, order, Stamp(tenant, edit)) == Done(false, 0, m.store))
  {
    hide Unlistable;
    assert Balked(store, tenant, edit) <==>
             edit.Allow? && exists h :: h in KeysOf(store, tenant) && Unlistable(Get(store[h].fields, IpAllowlist)) by {
      if h :| h in store && Balks(store[h], tenant, edit) {
        assert h in KeysOf(store, tenant);
      }
    }
    StampedSays(store, tenant, edit);
    hide Stamped;
    hide StampChanges;
    hide Says;
    hide Balked;
    var after := Stamped(store, tenant, edit);
    if !Balked(store, tenant, edit) {
      UnchangedIsUntouched(after, order, Stamp(tenant, edit));
    }
  }

  lemma StampedSays(store: Store, tenant: Tenant, edit: Edit)
    ensures var after := Stamped(store, tenant, edit);
            && after.Keys == store.Keys && KeysOf(after, tenant) == KeysOf(store, tenant)
            && (forall h | h in KeysOf(store, tenant) :: Says(after[h].fields, edit))
            && (forall h, k | h in KeysOf(store, tenant) && k != FieldOf(edit) ::
                  Get(after[h].fields, k) == Get(store[h].fields, k))
            && StampChanges(after, tenant, edit) == {} && !Balked(after, tenant, edit)
  {
    hide Edited;
    hide Changes;
    hide Says;
    hide Balks;
    var after := Stamped(store, tenant, edit);
    forall h | h in store
      ensures OwnedBy(after[h], tenant) <==> OwnedBy(store[h], tenant)
      ensures OwnedBy(store[h], tenant) ==> Says(after[h].fields, edit) && !Changes(after[h].fields, edit)
      ensures OwnedBy(store[h], tenant) ==>
                forall k | k != FieldOf(edit) :: Get(after[h].fields, k) == Get(store[h].fields, k)
      ensures !Balks(after[h], tenant, edit)
    {
      if OwnedBy(store[h], tenant) {
        EditSays(store[h].fields, edit);
        EditSays(Edited(store[h].fields, edit), edit);
        SaidNotBalking(after[h], tenant, edit);
      } else {
        OthersDoNotBalk(store[h], tenant, edit);
      }
    }
  }

  lemma OthersDoNotBalk(entry: Entry, tenant: Tenant, edit: Edit)
    requires !OwnedBy(entry, tenant)
    ensures !Balks(entry, tenant, edit)
  {
  }

  function Undo(edit: Edit): Edit {
    match edit
    case Suspend(_) => Suspend(false)
    case Deactivate(_) => Deactivate(false)
    case Allow(_) => Allow([])
  }

  lemma UndoneFields(f: Fields, edit: Edit)
    requires FieldOf(edit) !in f
    ensures Changes(f, edit) ==> Changes(Edited(f, edit), Undo(edit)) && Edited(Edited(f, edit), Undo(edit)) == f
    ensures !Changes(f, Undo(edit))
  {
  }

  lemma UndoBalks(store: Store, tenant: Tenant, edit: Edit)
    ensures Balked(store, tenant, Undo(edit)) == Balked(store, tenant, edit)
  {
    assert forall h | h in store :: Balks(store[h], tenant, Undo(edit)) == Balks(store[h], tenant, edit);
  }

  /** Lifting a suspension, a contract block or an allowlist gives back the store as it was before
      it was set, for a tenant none of whose keys carried one. */
  lemma UndoRestores(store: Store, order: seq<Hash>, tenant: Tenant, edit: Edit)
    requires forall h | h in KeysOf(store, tenant) :: FieldOf(edit) !in store[h].fields
    ensures var stamped := Mutate(store, order, Stamp(tenant, edit));
            && stamped.Done?
            && var lifted := Mutate(stamped.store, order, Stamp(tenant, Undo(edit)));
            && lifted.Done? && lifted.store == store
  {
    StampTakesEffect(store, order, tenant, edit);
    var once := Stamped(store, tenant, edit);
    StampTakesEffect(once, order, tenant, Undo(edit));
    StampedSays(store, tenant, edit);
    UndoBalks(once, tenant, edit);
    hide Edited;
    hide Changes;
    hide FieldOf;
    hide Says;
    hide Balked;
    forall h | h in store ensures StampedEntry(once[h], tenant, Undo(edit)) == store[h] {
      if h in KeysOf(store, tenant) {
        UndoneFields(store[h].fields, edit);
        assert h in KeysOf(once, tenant);
      }
    }
  }

  /** A created key is its tenant's, with the tier, rights and date asked for and the tenant's
      allowlist, neither suspended nor blocked; of extra it takes every name the store does not use. */
  lemma CreateGives(store: Store, order: seq<Hash>, op: Op)
    requires op.Create? && Mutate(store, order, op).Done?
    ensures op.hash !in store && op.hash in Mutate(store, order, op).store
    ensures var e := Mutate(store, order, op).store[op.hash];
            && OwnedBy(e, op.tenant)
            && Get(e.fields, Tier) == Str(op.tier) && Get(e.fields, CreatedAt) == Str(op.now)
            && Get(e.fields, Admin).Truthy() == op.admin && (Get(e.fields, Gateway) == Bool(true) <==> op.gateway)
            && Suspended !in e.fields && ContractInactive !in e.fields
            && AsList(Get(e.fields, IpAllowlist)) == Some(TenantAllowlist(store, order, op.tenant))
            && forall k: Name | k.Extra? :: Get(e.fields, k) == Get(op.extra, k)
  {
    hide NewFields;
    hide TenantAllowlist;
    var cidrs := TenantAllowlist(store, order, op.tenant);
    NewFieldsGets(op.tenant, op.tier, op.admin, op.gateway, op.extra, op.now, cidrs);
    NewFieldsCore(op.tenant, op.tier, op.admin, op.gateway, op.extra, op.now, cidrs);
    NewFieldsFlags(op.tenant, op.tier, op.admin, op.gateway, op.extra, op.now, cidrs);
    NewFieldsExtra(op.tenant, op.tier, op.admin, op.gateway, op.extra, op.now, cidrs);
  }

  lemma NewFieldsCore(tenant: Tenant, tier: string, admin: bool, gateway: bool, extra: Fields,
                      now: string, cidrs: seq<string>)
    ensures var f := NewFields(tenant, tier, admin, gateway, extra, now, cidrs);
            Get(f, Tier) == Str(tier) && Get(f, CreatedAt) == Str(now)
  {
  }

  lemma NewFieldsFlags(tenant: Tenant, tier: string, admin: bool, gateway: bool, extra: Fields,
                       now: string, cidrs: seq<string>)
    ensures var f := NewFields(tenant, tier, admin, gateway, extra, now, cidrs);
            && Get(f, Admin).Truthy() == admin && (Get(f, Gateway) == Bool(true) <==> gateway)
            && Suspended !in f && ContractInactive !in f
  {
  }

  lemma NewFieldsExtra(tenant: Tenant, tier: string, admin: bool, gateway: bool, extra: Fields,
                       now: string, cidrs: seq<string>)
    ensures forall k: Name | k.Extra? ::
              Get(NewFields(tenant, tier, admin, gateway, extra, now, cidrs), k) == Get(extra, k)
  {
  }

  /** A delete leaves the tenant no key. */
  lemma DeleteLeavesNone(store: Store, order: seq<Hash>, tenant: Tenant)
    ensures var m := Mutate(store, order, Delete(tenant)); m.Done? && KeysOf(m.store, tenant) == {}
  {
  }

  predicate AllNormal(store: Store) {
    forall h | h in store :: Normal(store[h])
  }

  /** Every call keeps a store of normal entries normal, unless it creates a key with a blank tier. */
  lemma CallKeepsNormal(store: Store, order: seq<Hash>, op: Op)
    requires AllNormal(store) && Mutate(store, order, op).Done?
    requires op.Create? ==> op.tier != ""
    ensures AllNormal(Mutate(store, order, op).store)
  {
    hide NewFields;
    hide Edited;
    match op
    case Create(tenant, tier, admin, gateway, extra, hash, now) =>
      NewFieldsNormal(tenant, tier, admin, gateway, extra, now, TenantAllowlist(store, order, tenant));
    case Stamp(tenant, edit) =>
      forall h | h in store ensures Normal(Stamped(store, tenant, edit)[h]) {
        EditKeepsNormal(store[h].fields, edit);
      }
    case Delete(_) =>
    case Rotate(tenant, hash, now) =>
      hide Normal;
      hide RotatedFields;
      OwnedAreNormal(store, order, tenant);
      MaxIsLargest(Owned(store, order, tenant));
      var newest := FirstMax(Owned(store, order, tenant)).1;
      var suspended := exists h | h in KeysOf(store, tenant) :: Get(store[h].fields, Suspended).Truthy();
      RotatedNormal(newest, tenant, suspended, now, TenantAllowlist(store, order, tenant));
  }

  lemma EditKeepsNormal(f: Fields, edit: Edit)
    requires Normal(Record(f))
    ensures Normal(Record(Edited(f, edit)))
  {
  }

  lemma {:induction false} OwnedAreNormal(store: Store, order: seq<Hash>, tenant: Tenant)
    requires AllNormal(store)
    ensures forall x | x in Owned(store, order, tenant) :: Normal(Record(x.1))
    decreases |order|
  {
    if order == [] {
    } else {
      OwnedAreNormal(store, order[..|order| - 1], tenant);
    }
  }

  // ------------------------------------------------------------------ the allowlist survives

  lemma {:induction false} SameAllowlists(a: Store, b: Store, order: seq<Hash>, tenant: Tenant)
    requires forall h | h in order :: Restricts(a, h, tenant) == Restricts(b, h, tenant)
    requires forall h | h in order && Restricts(a, h, tenant) && Restricts(b, h, tenant) :: a[h] == b[h]
    ensures Allowlists(a, order, tenant) == Allowlists(b, order, tenant)
    decreases |order|
  {
    if order == [] {
    } else {
      SameAllowlists(a, b, order[..|order| - 1], tenant);
    }
  }

  lemma {:induction false} SameWithout(store: Store, order: seq<Hash>, gone: set<Hash>, tenant: Tenant)
    requires forall h | h in gone :: !Restricts(store, h, tenant)
    ensures Allowlists(store, Without(order, gone), tenant) == Allowlists(store, order, tenant)
    decreases |order|
  {
    if order == [] {
    } else {
      var n := |order| - 1;
      SameWithout(store, order[..n], gone, tenant);
      var w := Without(order[..n], gone);
      AppendedAllowlist(store, w, order[n], tenant);
      assert w + [] == w;
    }
  }

  lemma {:induction false} NoneRestricted(store: Store, order: seq<Hash>, tenant: Tenant)
    requires forall h | h in order :: !Restricts(store, h, tenant)
    ensures Allowlists(store, order, tenant) == []
    decreases |order|
  {
    if order == [] {
    } else {
      NoneRestricted(store, order[..|order| - 1], tenant);
    }
  }

  lemma AppendedAllowlist(store: Store, order: seq<Hash>, h: Hash, tenant: Tenant)
    ensures Allowlists(store, order + [h], tenant)
         == Allowlists(store, order, tenant)
            + if Restricts(store, h, tenant)
              then [(CreatedAtOrBlank(store[h].fields), ListOf(Get(store[h].fields, IpAllowlist)))] else []
  {
    assert (order + [h])[..|order|] == order;
  }

  /** create_key and rotate_tenant_keys leave the allowlist of every tenant as it was enforced,
      whatever date the clock gives the new key. */
  lemma AllowlistSurvives(store: Store, order: seq<Hash>, op: Op, tenant: Tenant)
    requires Orders(order, store) && IssuesNewKey(store, op)
    requires op.Create? || op.Rotate?
    requires Mutate(store, order, op).Done?
    ensures TenantAllowlist(Mutate(store, order, op).store, NextOrder(store, order, op), tenant)
         == TenantAllowlist(store, order, tenant)
  {
    hide NewFields;
    hide RotatedFields;
    hide Allowlists;
    hide TenantAllowlist;
    var after := Mutate(store, order, op).store;
    if op.Create? {
      NewFieldsGets(op.tenant, op.tier, op.admin, op.gateway, op.extra, op.now, TenantAllowlist(store, order, op.tenant));
      SameAllowlists(store, after, order, tenant);
      AppendedSurvives(store, after, order, order, op.hash, tenant);
    } else {
      var gone := KeysOf(store, op.tenant);
      WithoutOrders(order, gone);
      RotatedGets(store, order, op);
      var kept := Without(order, gone);
      if tenant == op.tenant {
        RotatedOwn(store, order, after, kept, op.hash, tenant);
      } else {
        SameAllowlists(store, after, kept, tenant);
        SameWithout(store, order, gone, tenant);
        AppendedSurvives(store, after, order, kept, op.hash, tenant);
      }
    }
  }

  lemma RotatedOwn(store: Store, order: seq<Hash>, after: Store, kept: seq<Hash>, h: Hash, tenant: Tenant)
    requires forall k | k in kept :: !Restricts(after, k, tenant)
    requires h in after && OwnedBy(after[h], tenant)
    requires var cidrs := TenantAllowlist(store, order, tenant);
             Get(after[h].fields, IpAllowlist) == if cidrs == [] then Null else Strs(cidrs)
    ensures TenantAllowlist(after, kept + [h], tenant) == TenantAllowlist(store, order, tenant)
  {
    NoneRestricted(after, kept, tenant);
    AppendedAllowlist(after, kept, h, tenant);
  }

  lemma RotatedGets(store: Store, order: seq<Hash>, op: Op)
    requires op.Rotate? && Mutate(store, order, op).Done?
    ensures var f := Mutate(store, order, op).store[op.hash].fields;
            var newest := FirstMax(Owned(store, order, op.tenant)).1;
            var cidrs := TenantAllowlist(store, order, op.tenant);
            && Get(f, TenantId) == Str(op.tenant)
            && Get(f, IpAllowlist) == (if cidrs == [] then Null else Strs(cidrs))
            && Get(f, Suspended).Truthy() == (exists h | h in KeysOf(store, op.tenant) :: Get(store[h].fields, Suspended).Truthy())
            && Get(f, Admin).Truthy() == Get(newest, Admin).Truthy()
            && (Get(f, Gateway) == Bool(true) <==> Get(newest, Gateway) == Bool(true))
            && Get(f, ContractInactive) == Get(newest, ContractInactive)
  {
    hide RotatedFields;
    var suspended := exists h | h in KeysOf(store, op.tenant) :: Get(store[h].fields, Suspended).Truthy();
    var newest := FirstMax(Owned(store, order, op.tenant)).1;
    var cidrs := TenantAllowlist(store, order, op.tenant);
    RotatedFieldsGets(newest, op.tenant, suspended, op.now, cidrs);
    RotatedContract(newest, op.tenant, suspended, op.now, cidrs);
    RotatedFlags(newest, op.tenant, suspended, op.now, cidrs);
  }

  /** One more key, which carries the list enforced so far or belongs to another tenant. */
  lemma AppendedSurvives(store: Store, after: Store, order: seq<Hash>, kept: seq<Hash>, h: Hash, tenant: Tenant)
    requires Allowlists(after, kept, tenant) == Allowlists(store, order, tenant)
    requires Restricts(after, h, tenant) ==>
               Get(after[h].fields, IpAllowlist) == Strs(TenantAllowlist(store, order, tenant))
    ensures TenantAllowlist(after, kept + [h], tenant) == TenantAllowlist(store, order, tenant)
  {
    AppendedAllowlist(after, kept, h, tenant);
    var lists, longer := Allowlists(after, kept, tenant), Allowlists(after, kept + [h], tenant);
    if longer != lists && lists != [] {
      assert longer[..|lists|] == lists;
    }
  }

  /** The key's allowlist is no list but gives the list asked for, as the characters of a string or
      the names of an object: set_ip_allowlist takes it for the list itself. */
  predicate Spells(f: Fields, cidrs: seq<string>) {
    var value := Get(f, IpAllowlist);
    (value.Str? || value.Object?) && AsList(value) == Some(cidrs)
  }

  lemma AllowedEntry(store: Store, tenant: Tenant, cidrs: seq<string>, h: Hash)
    requires h in store
    ensures var after := Stamped(store, tenant, Allow(cidrs));
            && (Restricts(after, h, tenant) <==>
                  cidrs != [] && h in KeysOf(store, tenant) && !Spells(store[h].fields, cidrs))
            && (Restricts(after, h, tenant) ==> ListOf(Get(after[h].fields, IpAllowlist)) == cidrs)
  {
  }

  /** set_ip_allowlist returns, and what it set is what is enforced, exactly when no key of the
      tenant has a number or true as its allowlist, and the list is empty or some key of the tenant
      does not already spell it. */
  lemma SetAllowlistIsEnforcedIff(store: Store, order: seq<Hash>, tenant: Tenant, cidrs: seq<string>)
    requires Orders(order, store)
    ensures var m := Mutate(store, order, Stamp(tenant, Allow(cidrs)));
            (m.Done? && TenantAllowlist(m.store, order, tenant) == cidrs
             <==> && (forall h :: h in KeysOf(store, tenant) ==> !Unlistable(Get(store[h].fields, IpAllowlist)))
                  && (cidrs == [] || exists h :: h in KeysOf(store, tenant) && !Spells(store[h].fields, cidrs)))
  {
    StampTakesEffect(store, order, tenant, Allow(cidrs));
    hide Stamped;
    hide Spells;
    hide AtMost;
    hide Unlistable;
    var after := Stamped(store, tenant, Allow(cidrs));
    forall h | h in order
      ensures Restricts(after, h, tenant) <==>
                cidrs != [] && h in KeysOf(store, tenant) && !Spells(store[h].fields, cidrs)
      ensures Restricts(after, h, tenant) ==> ListOf(Get(after[h].fields, IpAllowlist)) == cidrs
    {
      AllowedEntry(store, tenant, cidrs, h);
    }
    hide Restricts;
    hide Balked;
    if h :| h in order && Restricts(after, h, tenant) {
      OneList(after, order, tenant, cidrs);
      MaxIsLargest(Allowlists(after, order, tenant));
    } else {
      NoneRestricted(after, order, tenant);
    }
  }

  /** Such keys: one whose allowlist is a word, when the list set is that word letter by letter, and
      one whose allowlist is an object, when the list set is its names. */
  lemma SpelledListIsNotEnforced(h: Hash, tenant: Tenant, value: Json)
    requires value.Truthy() && (value.Str? || value.Object?)
    ensures AsList(value).Some?
    ensures var store, cidrs := map[h := Record(map[TenantId := Str(tenant), IpAllowlist := value])], AsList(value).value;
            var m := Mutate(store, [h], Stamp(tenant, Allow(cidrs)));
            m == Done(false, 0, store) && cidrs != [] && TenantAllowlist(store, [h], tenant) == []
  {
    var store: Store := map[h := Record(map[TenantId := Str(tenant), IpAllowlist := value])];
    var edit := Allow(AsList(value).value);
    assert StampChanges(store, tenant, edit) == {};
    assert !Balked(store, tenant, edit);
    UnchangedIsUntouched(store, [h], Stamp(tenant, edit));
    NoneRestricted(store, [h], tenant);
  }

  lemma {:induction false} OneList(store: Store, order: seq<Hash>, tenant: Tenant, cidrs: seq<string>)
    requires forall h | h in order && Restricts(store, h, tenant) :: ListOf(Get(store[h].fields, IpAllowlist)) == cidrs
    ensures forall x | x in Allowlists(store, order, tenant) :: x.1 == cidrs
    ensures (exists h :: h in order && Restricts(store, h, tenant)) ==> Allowlists(store, order, tenant) != []
    decreases |order|
  {
    if order == [] {
    } else {
      OneList(store, order[..|order| - 1], tenant, cidrs);
      assert order == order[..|order| - 1] + [order[|order| - 1]];
    }
  }

  // ------------------------------------------------------------------ the list shown and the list enforced

  /** The key at k carries a list. */
  predicate Carries(store: Store, order: seq<Hash>, tenant: Tenant, k: nat) {
    k < |order| && Restricts(store, order[k], tenant)
  }

  function DateAt(store: Store, order: seq<Hash>, tenant: Tenant, k: nat): string
    requires Carries(store, order, tenant, k)
  {
    CreatedAtOrBlank(store[order[k]].fields)
  }

  function ListAt(store: Store, order: seq<Hash>, tenant: Tenant, k: nat): seq<string>
    requires Carries(store, order, tenant, k)
  {
    ListOf(Get(store[order[k]].fields, IpAllowlist))
  }

  /** No key that carries a list is newer than the one at k, which does. */
  predicate Newest(store: Store, order: seq<Hash>, tenant: Tenant, k: nat) {
    && Carries(store, order, tenant, k)
    && forall j: nat | j < |order| && Carries(store, order, tenant, j) ::
         AtMost(DateAt(store, order, tenant, j), DateAt(store, order, tenant, k))
  }

  predicate FirstNewest(store: Store, order: seq<Hash>, tenant: Tenant, k: nat) {
    Newest(store, order, tenant, k) && forall j: nat | j < k :: !Newest(store, order, tenant, j)
  }

  predicate LastNewest(store: Store, order: seq<Hash>, tenant: Tenant, k: nat) {
    Newest(store, order, tenant, k) && forall j: nat | k < j < |order| :: !Newest(store, order, tenant, j)
  }

  /** One more key in the dict order. */
  lemma NewestMore(store: Store, order: seq<Hash>, tenant: Tenant, k: nat)
    requires order != [] && k < |order| - 1
    ensures var n := |order| - 1;
            && (Carries(store, order, tenant, k) <==> Carries(store, order[..n], tenant, k))
            && (Newest(store, order, tenant, k) <==>
                  Newest(store, order[..n], tenant, k)
                  && (Carries(store, order, tenant, n) ==>
                        AtMost(DateAt(store, order, tenant, n), DateAt(store, order, tenant, k))))
  {
    hide Restricts;
    hide AtMost;
    var n := |order| - 1;
    assert forall j: nat | j < n :: Carries(store, order, tenant, j) <==> Carries(store, order[..n], tenant, j);
    assert forall j: nat | j < n && Carries(store, order, tenant, j) ::
             DateAt(store, order, tenant, j) == DateAt(store, order[..n], tenant, j);
  }

  /** The last key of the order is a newest one exactly when it is at least as new as a newest one
      of the others. */
  lemma LastIsNewest(store: Store, order: seq<Hash>, tenant: Tenant, k: nat)
    requires order != [] && Newest(store, order[..|order| - 1], tenant, k)
    requires Carries(store, order, tenant, |order| - 1)
    ensures Carries(store, order, tenant, k)
    ensures Newest(store, order, tenant, |order| - 1) <==>
              AtMost(DateAt(store, order, tenant, k), DateAt(store, order, tenant, |order| - 1))
  {
    hide Restricts;
    var n := |order| - 1;
    NewestMore(store, order, tenant, k);
    var date := DateAt(store, order, tenant, n);
    AtMostTotal(date, date);
    if AtMost(DateAt(store, order, tenant, k), date) {
      hide AtMost;
      forall j: nat | j < |order| && Carries(store, order, tenant, j)
        ensures AtMost(DateAt(store, order, tenant, j), date)
      {
        if j < n {
          assert Carries(store, order[..n], tenant, j);
          AtMostTrans(DateAt(store, order, tenant, j), DateAt(store, order, tenant, k), date);
        }
      }
    }
  }

  /** What is enforced is the list of the first of the newest keys that carry one. */
  lemma {:induction false} EnforcedIsFirst(store: Store, order: seq<Hash>, tenant: Tenant) returns (k: nat)
    requires Allowlists(store, order, tenant) != []
    ensures FirstNewest(store, order, tenant, k)
    ensures FirstMax(Allowlists(store, order, tenant)) == (DateAt(store, order, tenant, k), ListAt(store, order, tenant, k))
    decreases |order|
  {
    var n := |order| - 1;
    var before := Allowlists(store, order[..n], tenant);
    hide Restricts;
    if before == [] {
      k := n;
      NothingBefore(store, order, tenant);
    } else {
      k := EnforcedIsFirst(store, order[..n], tenant);
      forall j: nat | j < n ensures Newest(store, order, tenant, j) ==> Newest(store, order[..n], tenant, j) {
        NewestMore(store, order, tenant, j);
      }
      NewestMore(store, order, tenant, k);
      if Carries(store, order, tenant, n) {
        AddedList(store, order, tenant);
        LastIsNewest(store, order, tenant, k);
        AtMostTotal(DateAt(store, order, tenant, n), DateAt(store, order, tenant, k));
        hide AtMost;
        if !AtMost(DateAt(store, order, tenant, n), DateAt(store, order, tenant, k)) {
          forall j: nat | j < n ensures !Newest(store, order, tenant, j) {
            NewestMore(store, order, tenant, j);
            if Newest(store, order, tenant, j) {
              AtMostTrans(DateAt(store, order, tenant, n), DateAt(store, order, tenant, j), DateAt(store, order, tenant, k));
            }
          }
          k := n;
        }
      } else {
        hide AtMost;
        SkippedList(store, order, tenant);
      }
    }
  }

  /** What is shown is the list of the last of them. */
  lemma {:induction false} ShownIsLast(store: Store, order: seq<Hash>, tenant: Tenant) returns (k: nat)
    requires Allowlists(store, order, tenant) != []
    ensures LastNewest(store, order, tenant, k)
    ensures LastMax(Allowlists(store, order, tenant)) == (DateAt(store, order, tenant, k), ListAt(store, order, tenant, k))
    decreases |order|
  {
    var n := |order| - 1;
    var before := Allowlists(store, order[..n], tenant);
    hide Restricts;
    if before == [] {
      k := n;
      NothingBefore(store, order, tenant);
    } else {
      k := ShownIsLast(store, order[..n], tenant);
      forall j: nat | j < n ensures Newest(store, order, tenant, j) ==> Newest(store, order[..n], tenant, j) {
        NewestMore(store, order, tenant, j);
      }
      NewestMore(store, order, tenant, k);
      if Carries(store, order, tenant, n) {
        AddedList(store, order, tenant);
        LastIsNewest(store, order, tenant, k);
        AtMostTotal(DateAt(store, order, tenant, n), DateAt(store, order, tenant, k));
        hide AtMost;
        if AtMost(DateAt(store, order, tenant, k), DateAt(store, order, tenant, n)) {
          k := n;
        }
      } else {
        hide AtMost;
        SkippedList(store, order, tenant);
      }
    }
  }

  lemma AddedList(store: Store, order: seq<Hash>, tenant: Tenant)
    requires order != [] && Carries(store, order, tenant, |order| - 1)
    ensures var n, lists := |order| - 1, Allowlists(store, order, tenant);
            && lists != [] && lists[..|lists| - 1] == Allowlists(store, order[..n], tenant)
            && lists[|lists| - 1] == (DateAt(store, order, tenant, n), ListAt(store, order, tenant, n))
  {
    var before := Allowlists(store, order[..|order| - 1], tenant);
    var lists := Allowlists(store, order, tenant);
    assert lists[..|before|] == before;
  }

  lemma SkippedList(store: Store, order: seq<Hash>, tenant: Tenant)
    requires order != [] && !Carries(store, order, tenant, |order| - 1)
    ensures Allowlists(store, order, tenant) == Allowlists(store, order[..|order| - 1], tenant)
  {
    var before := Allowlists(store, order[..|order| - 1], tenant);
    assert before + [] == before;
  }

  /** With no list before it, the last key of the order carries the only one. */
  lemma NothingBefore(store: Store, order: seq<Hash>, tenant: Tenant)
    requires Allowlists(store, order, tenant) != [] && Allowlists(store, order[..|order| - 1], tenant) == []
    ensures var n := |order| - 1;
            && FirstNewest(store, order, tenant, n) && LastNewest(store, order, tenant, n)
            && Allowlists(store, order, tenant) == [(DateAt(store, order, tenant, n), ListAt(store, order, tenant, n))]
  {
    var n := |order| - 1;
    NoneBefore(store, order[..n], tenant);
    assert forall j: nat | j < n :: !Carries(store, order, tenant, j) by {
      forall j: nat | j < n ensures !Carries(store, order, tenant, j) {
        assert order[..n][j] == order[j];
      }
    }
    if Carries(store, order, tenant, n) {
      AtMostTotal(DateAt(store, order, tenant, n), DateAt(store, order, tenant, n));
    } else {
      SkippedList(store, order, tenant);
    }
  }

  lemma {:induction false} NoneBefore(store: Store, order: seq<Hash>, tenant: Tenant)
    requires Allowlists(store, order, tenant) == []
    ensures forall j: nat | j < |order| :: !Restricts(store, order[j], tenant)
    decreases |order|
  {
    if order == [] {
    } else {
      NoneBefore(store, order[..|order| - 1], tenant);
    }
  }

  /** Nothing is enforced exactly when no key of the tenant carries a list, and nothing shown exactly
      when no key counted under it does; otherwise there are a first and a last newest such key, and
      theirs are the lists. */
  lemma NewestExist(store: Store, order: seq<Hash>, tenant: Tenant)
    ensures (TenantAllowlist(store, order, tenant) == [] <==> forall k :: !Carries(store, order, tenant, k))
    ensures (ListedAllowlist(store, order, tenant) == [] <==> forall k :: !Carries(Grouped(store), order, tenant, k))
    ensures TenantAllowlist(store, order, tenant) != [] ==>
              exists i :: FirstNewest(store, order, tenant, i)
                       && TenantAllowlist(store, order, tenant) == ListAt(store, order, tenant, i)
    ensures ListedAllowlist(store, order, tenant) != [] ==>
              exists j :: LastNewest(Grouped(store), order, tenant, j)
                       && ListedAllowlist(store, order, tenant) == ListAt(Grouped(store), order, tenant, j)
  {
    hide Newest;
    hide Grouped;
    if Allowlists(store, order, tenant) == [] {
      NoneBefore(store, order, tenant);
    } else {
      var i := EnforcedIsFirst(store, order, tenant);
      assert Carries(store, order, tenant, i) by { NewestCarries(store, order, tenant, i); }
    }
    if Allowlists(Grouped(store), order, tenant) == [] {
      NoneBefore(Grouped(store), order, tenant);
    } else {
      var j := ShownIsLast(Grouped(store), order, tenant);
      assert Carries(Grouped(store), order, tenant, j) by { NewestCarries(Grouped(store), order, tenant, j); }
    }
  }

  lemma NewestCarries(store: Store, order: seq<Hash>, tenant: Tenant, k: nat)
    requires Newest(store, order, tenant, k)
    ensures Carries(store, order, tenant, k)
  {
  }

  /** Of the newest keys of a tenant that carry a list, the first and the last are unique. */
  lemma NewestUnique(store: Store, order: seq<Hash>, tenant: Tenant, i: nat, j: nat)
    ensures FirstNewest(store, order, tenant, i) && FirstNewest(store, order, tenant, j) ==> i == j
    ensures LastNewest(store, order, tenant, i) && LastNewest(store, order, tenant, j) ==> i == j
  {
    hide AtMost;
    hide Restricts;
  }

  /** The console shows the list that is enforced exactly when no key it counts under the tenant
      carries a list, or the first of the tenant's newest keys that carry one and the last of the
      newest the console counts under it carry the same one. */
  lemma ListedIsEnforcedIff(store: Store, order: seq<Hash>, tenant: Tenant)
    ensures ListedAllowlist(store, order, tenant) == TenantAllowlist(store, order, tenant)
       <==> || (forall k :: !Carries(Grouped(store), order, tenant, k))
            || exists i, j :: FirstNewest(store, order, tenant, i) && LastNewest(Grouped(store), order, tenant, j)
                           && ListAt(store, order, tenant, i) == ListAt(Grouped(store), order, tenant, j)
  {
    NewestExist(store, order, tenant);
    CarriesGrouped(store, order, tenant);
    forall i: nat, j: nat
      ensures FirstNewest(store, order, tenant, i) ==> TenantAllowlist(store, order, tenant) == ListAt(store, order, tenant, i)
      ensures LastNewest(Grouped(store), order, tenant, j) ==>
                ListedAllowlist(store, order, tenant) == ListAt(Grouped(store), order, tenant, j)
    {
      PickedLists(store, order, tenant, i, j);
    }
    hide *;
  }

  /** Wherever they are, their lists are the ones enforced and shown. */
  lemma PickedLists(store: Store, order: seq<Hash>, tenant: Tenant, i: nat, j: nat)
    ensures FirstNewest(store, order, tenant, i) ==>
              Carries(store, order, tenant, i) && TenantAllowlist(store, order, tenant) == ListAt(store, order, tenant, i)
    ensures LastNewest(Grouped(store), order, tenant, j) ==>
              && Carries(Grouped(store), order, tenant, j)
              && ListedAllowlist(store, order, tenant) == ListAt(Grouped(store), order, tenant, j)
  {
    NewestExist(store, order, tenant);
    if FirstNewest(store, order, tenant, i) {
      NewestCarries(store, order, tenant, i);
      var k: nat :| FirstNewest(store, order, tenant, k)
                 && TenantAllowlist(store, order, tenant) == ListAt(store, order, tenant, k);
      NewestUnique(store, order, tenant, i, k);
    }
    if LastNewest(Grouped(store), order, tenant, j) {
      NewestCarries(Grouped(store), order, tenant, j);
      var k: nat :| LastNewest(Grouped(store), order, tenant, k)
                 && ListedAllowlist(store, order, tenant) == ListAt(Grouped(store), order, tenant, k);
      NewestUnique(Grouped(store), order, tenant, j, k);
    }
  }

  /** The console counts every key of the tenant, with its list. */
  lemma CarriesGrouped(store: Store, order: seq<Hash>, tenant: Tenant)
    ensures forall k: nat :: Carries(store, order, tenant, k) ==> Carries(Grouped(store), order, tenant, k)
  {
    forall k: nat | Carries(store, order, tenant, k) ensures Carries(Grouped(store), order, tenant, k) {
      GroupedIs(store, order[k], tenant);
    }
  }

  /** Where every key names its tenant, the console groups the store as enforcement does. */
  lemma GroupedSame(store: Store)
    requires forall h | h in store && store[h].Record? :: TenantId in store[h].fields
    ensures Grouped(store) == store
  {
  }

  /** Where one does not, they need not agree: its list is shown for "default" and not enforced. */
  lemma ListedUnderDefault(h: Hash, cidrs: seq<string>)
    requires cidrs != []
    ensures var store := map[h := Record(map[IpAllowlist := Strs(cidrs)])];
            && Orders([h], store) && ListedAllowlist(store, [h], "default") == cidrs
            && TenantAllowlist(store, [h], "default") == []
  {
    var store: Store := map[h := Record(map[IpAllowlist := Strs(cidrs)])];
    NoneRestricted(store, [h], "default");
    assert [h][..0] == [];
    assert Allowlists(Grouped(store), [h], "default") == [] + [("", cidrs)];
  }

  /** A key with a date and an allowlist. */
  function Restricted(tenant: Tenant, date: string, cidrs: seq<string>): Entry {
    Record(map[TenantId := Str(tenant), Tier := Str("free"), CreatedAt := Str(date), IpAllowlist := Strs(cidrs)])
  }

  /** They need not agree: of two keys of one date with different lists, enforcement takes the
      first and the console shows the second. */
  lemma ListedDiffersOnTie(h: Hash, k: Hash, tenant: Tenant, date: string, a: seq<string>, b: seq<string>)
    requires h != k && a != [] && b != [] && a != b
    ensures var store, order := map[h := Restricted(tenant, date, a), k := Restricted(tenant, date, b)], [h, k];
            && Orders(order, store) && AllNormal(store)
            && TenantAllowlist(store, order, tenant) == a && ListedAllowlist(store, order, tenant) == b
  {
    var store, order := map[h := Restricted(tenant, date, a), k := Restricted(tenant, date, b)], [h, k];
    TwoLists(store, h, k, tenant, date, date, a, b);
    PairMax((date, a), (date, b));
    assert forall g | g in store :: g in order;
    GroupedSame(store);
    hide FirstMax;
    hide LastMax;
    hide Allowlists;
    hide Grouped;
  }

  lemma TwoLists(store: Store, h: Hash, k: Hash, tenant: Tenant, d: string, e: string, a: seq<string>, b: seq<string>)
    requires a != [] && b != [] && h in store && k in store
    requires store[h] == Restricted(tenant, d, a) && store[k] == Restricted(tenant, e, b)
    ensures Allowlists(store, [h, k], tenant) == [(d, a), (e, b)]
  {
    AppendedAllowlist(store, [], h, tenant);
    AppendedAllowlist(store, [h], k, tenant);
    assert [] + [h] == [h] && [h] + [k] == [h, k];
    assert Allowlists(store, [], tenant) == [];
  }

  /** Of two keys with lists the one dated later is enforced, and shown, wherever it is in the dict. */
  lemma LaterIsEnforced(h: Hash, k: Hash, tenant: Tenant, d: string, e: string, a: seq<string>, b: seq<string>)
    requires h != k && a != [] && b != [] && Earlier(d, e)
    ensures var store := map[h := Restricted(tenant, d, a), k := Restricted(tenant, e, b)];
            && TenantAllowlist(store, [h, k], tenant) == TenantAllowlist(store, [k, h], tenant) == b
            && ListedAllowlist(store, [h, k], tenant) == ListedAllowlist(store, [k, h], tenant) == b
  {
    var store := map[h := Restricted(tenant, d, a), k := Restricted(tenant, e, b)];
    TwoLists(store, h, k, tenant, d, e, a, b);
    TwoLists(store, k, h, tenant, e, d, b, a);
    LaterIsMax((d, a), (e, b));
    GroupedSame(store);
    hide FirstMax;
    hide LastMax;
    hide Allowlists;
    hide Grouped;
  }

  lemma NotBefore(d: string, e: string)
    requires Earlier(d, e)
    ensures AtMost(d, e) && !AtMost(e, d)
  {
    AtMostIsEarlier(d, e);
    AtMostTotal(d, e);
  }

  /** A single key: of a list its elements as text are enforced and shown, of anything else nothing. */
  lemma OneKeyIsEnforced(h: Hash, tenant: Tenant, value: Json)
    ensures var store := map[h := Record(map[TenantId := Str(tenant), IpAllowlist := value])];
            && TenantAllowlist(store, [h], tenant) == ListedAllowlist(store, [h], tenant)
            && TenantAllowlist(store, [h], tenant)
               == if value.Strs? then value.items else if value.Mixed? then value.shown else []
  {
    var store: Store := map[h := Record(map[TenantId := Str(tenant), IpAllowlist := value])];
    GroupedSame(store);
    AppendedAllowlist(store, [], h, tenant);
    assert [] + [h] == [h];
    assert Allowlists(store, [], tenant) == [];
  }

  lemma LaterIsMax<T>(x: (string, T), y: (string, T))
    requires Earlier(x.0, y.0)
    ensures FirstMax([x, y]) == LastMax([x, y]) == FirstMax([y, x]) == LastMax([y, x]) == y
  {
    NotBefore(x.0, y.0);
    assert [x, y][..1] == [x] && [y, x][..1] == [y];
  }

  lemma PairMax(x: Dated, y: Dated)
    requires x.0 == y.0
    ensures FirstMax([x, y]) == x && LastMax([x, y]) == y
  {
    AtMostTotal(x.0, y.0);
    assert [x, y][..1] == [x];
  }

  // ------------------------------------------------------------------ rotation

  lemma {:induction false} OwnedHasAll(store: Store, order: seq<Hash>, tenant: Tenant)
    ensures forall x | x in Owned(store, order, tenant) ::
              exists h | h in order && h in KeysOf(store, tenant) :: store[h].fields == x.1
    ensures (exists h | h in order :: h in KeysOf(store, tenant)) <==> Owned(store, order, tenant) != []
    decreases |order|
  {
    if order == [] {
    } else {
      var n := |order| - 1;
      OwnedHasAll(store, order[..n], tenant);
      assert order == order[..n] + [order[n]];
    }
  }

  /** A rotation leaves the tenant exactly one key, the new one: suspended if any old key was,
      admin and gateway as the newest key was. A contract block is kept exactly when the newest
      key carries it: a key created after the block does not, and rotating to it lifts the block. */
  lemma RotationLeavesOneKey(store: Store, order: seq<Hash>, op: Op)
    requires Orders(order, store) && op.Rotate? && IssuesNewKey(store, op)
    requires Mutate(store, order, op).Done?
    ensures var after := Mutate(store, order, op).store;
            var newest := FirstMax(Owned(store, order, op.tenant)).1;
            && KeysOf(after, op.tenant) == {op.hash}
            && var f := after[op.hash].fields;
            && (Get(f, Suspended).Truthy() <==>
                exists h :: h in KeysOf(store, op.tenant) && Get(store[h].fields, Suspended).Truthy())
            && (Get(f, Admin).Truthy() <==> Get(newest, Admin).Truthy())
            && (Get(f, Gateway) == Bool(true) <==> Get(newest, Gateway) == Bool(true))
            && (Get(f, ContractInactive).Truthy() <==> Get(newest, ContractInactive).Truthy())
            && (exists h :: h in KeysOf(store, op.tenant) && store[h].fields == newest)
  {
    OwnedHasAll(store, order, op.tenant);
    MaxIsLargest(Owned(store, order, op.tenant));
    RotatedGets(store, order, op);
    hide RotatedFields;
    hide FirstMax;
    hide Owned;
    hide TenantAllowlist;
    assert KeysOf(Mutate(store, order, op).store, op.tenant) == {op.hash};
  }

  /** The new key is dated now, has the newest key's tier ("free" if that is blank) and carries over
      everything else the newest key says but its tenant, flags and allowlist. */
  lemma RotationCarriesOver(store: Store, order: seq<Hash>, op: Op)
    requires op.Rotate? && Mutate(store, order, op).Done?
    ensures var newest := FirstMax(Owned(store, order, op.tenant)).1;
            var f := Mutate(store, order, op).store[op.hash].fields;
            && Get(f, CreatedAt) == Str(op.now)
            && Get(f, Tier) == (if Get(newest, Tier).Truthy() then Get(newest, Tier) else Str("free"))
            && AsList(Get(f, IpAllowlist)) == Some(TenantAllowlist(store, order, op.tenant))
            && forall k: Name | k.Extra? :: Get(f, k) == Get(newest, k)
  {
    var newest := FirstMax(Owned(store, order, op.tenant)).1;
    var suspended := exists h | h in KeysOf(store, op.tenant) :: Get(store[h].fields, Suspended).Truthy();
    hide RotatedFields;
    RotatedFieldsGets(newest, op.tenant, suspended, op.now, TenantAllowlist(store, order, op.tenant));
    RotatedCore(newest, op.tenant, suspended, op.now, TenantAllowlist(store, order, op.tenant));
    RotatedExtra(newest, op.tenant, suspended, op.now, TenantAllowlist(store, order, op.tenant));
    hide TenantAllowlist;
    hide FirstMax;
    hide Owned;
  }

  lemma RotatedCore(newest: Fields, tenant: Tenant, suspended: bool, now: string, cidrs: seq<string>)
    ensures var f := RotatedFields(newest, tenant, suspended, now, cidrs);
            && Get(f, CreatedAt) == Str(now)
            && Get(f, Tier) == if Get(newest, Tier).Truthy() then Get(newest, Tier) else Str("free")
  {
  }

  lemma RotatedExtra(newest: Fields, tenant: Tenant, suspended: bool, now: string, cidrs: seq<string>)
    ensures forall k: Name | k.Extra? :: Get(RotatedFields(newest, tenant, suspended, now, cidrs), k) == Get(newest, k)
  {
  }

  // ------------------------------------------------------------------ runs

  /** A call as it leaves the store: one that raises leaves it alone. */
  function After(store: Store, order: seq<Hash>, op: Op): Store {
    var m := Mutate(store, order, op);
    if m.Done? then m.store else store
  }

  /** One call of a run, with the dict order its read happened to have. */
  datatype Call = Call(op: Op, order: seq<Hash>)

  function RunCalls(store: Store, calls: seq<Call>): Store
    decreases |calls|
  {
    if calls == [] then store else
      RunCalls(After(store, calls[0].order, calls[0].op), calls[1..])
  }

  /** Every call of the run issues a random key. */
  predicate AllFresh(store: Store, calls: seq<Call>)
    decreases |calls|
  {
    calls == [] || (IssuesNewKey(store, calls[0].op) && AllFresh(After(store, calls[0].order, calls[0].op), calls[1..]))
  }

  /** Over every run, an entry changes only through calls for the tenant it belongs to; a legacy
      entry never changes. */
  lemma {:induction false} RunIsConfined(store: Store, calls: seq<Call>, hash: Hash)
    requires hash in store && AllFresh(store, calls)
    requires forall c | c in calls :: !OwnedBy(store[hash], c.op.tenant)
    ensures hash in RunCalls(store, calls) && RunCalls(store, calls)[hash] == store[hash]
    decreases |calls|
  {
    if calls == [] {
    } else {
      var c := calls[0];
      if Mutate(store, c.order, c.op).Done? {
        CallIsConfined(store, c.order, c.op);
      }
      RunIsConfined(After(store, c.order, c.op), calls[1..], hash);
    }
  }

  /** Over every run of calls with a tier, entries stay in the form the key table gives back
      unchanged, so the in-memory diff and the stored rows never drift. */
  lemma {:induction false} RunKeepsNormal(store: Store, calls: seq<Call>)
    requires AllNormal(store)
    requires forall c | c in calls :: c.op.Create? ==> c.op.tier != ""
    ensures AllNormal(RunCalls(store, calls))
    decreases |calls|
  {
    if calls == [] {
    } else {
      var c := calls[0];
      if Mutate(store, c.order, c.op).Done? {
        CallKeepsNormal(store, c.order, c.op);
      }
      RunKeepsNormal(After(store, c.order, c.op), calls[1..]);
    }
  }

  /** Rotating lifts a contract block: the tenant's one key is blocked, a second key is created,
      which carries no block, and the rotation takes the newer key's word. */
  lemma RotationLiftsBlock(h: Hash, k: Hash, l: Hash, tenant: Tenant, d: string, e: string, f: string)
    requires h != k && h != l && k != l && tenant != "" && Earlier(d, e)
    ensures var first := Record(map[TenantId := Str(tenant), Tier := Str("free"), CreatedAt := Str(d)]);
            var block := Call(Stamp(tenant, Deactivate(true)), [h]);
            var create := Call(Create(tenant, "free", false, false, map[], k, e), [h]);
            var rotate := Call(Rotate(tenant, l, f), [h, k]);
            var blocked, after := RunCalls(map[h := first], [block]), RunCalls(map[h := first], [block, create, rotate]);
            && h in blocked && OwnedBy(blocked[h], tenant) && Get(blocked[h].fields, ContractInactive).Truthy()
            && KeysOf(after, tenant) == {l} && !Get(after[l].fields, ContractInactive).Truthy()
  {
    var f0 := map[TenantId := Str(tenant), Tier := Str("free"), CreatedAt := Str(d)];
    var s0, s1 := map[h := Record(f0)], map[h := Record(f0[ContractInactive := Bool(true)])];
    var block := Call(Stamp(tenant, Deactivate(true)), [h]);
    var create := Call(Create(tenant, "free", false, false, map[], k, e), [h]);
    var rotate := Call(Rotate(tenant, l, f), [h, k]);
    NotBefore(d, e);
    BlockedStore(h, tenant, f0);
    var s2 := CreatedStore(s1, h, tenant, create.op);
    RotatedStore(s2, h, k, d, e, rotate.op);
    ThreeCalls(s0, block, create, rotate);
  }

  lemma ThreeCalls(store: Store, a: Call, b: Call, c: Call)
    ensures RunCalls(store, [a]) == After(store, a.order, a.op)
    ensures RunCalls(store, [a, b, c])
         == After(After(After(store, a.order, a.op), b.order, b.op), c.order, c.op)
  {
    hide After;
    var s1 := After(store, a.order, a.op);
    var s2 := After(s1, b.order, b.op);
    assert [a][1..] == [] && [a, b, c][1..] == [b, c] && [b, c][1..] == [c] && [c][1..] == [];
    assert RunCalls(s1, []) == s1 && RunCalls(s2, [c]) == After(s2, c.order, c.op);
    assert RunCalls(s1, [b, c]) == RunCalls(s2, [c]);
  }

  lemma BlockedStore(h: Hash, tenant: Tenant, f: Fields)
    requires ContractInactive !in f && Get(f, TenantId) == Str(tenant)
    ensures After(map[h := Record(f)], [h], Stamp(tenant, Deactivate(true))) == map[h := Record(f[ContractInactive := Bool(true)])]
  {
  }

  lemma CreatedStore(store: Store, h: Hash, tenant: Tenant, op: Op) returns (after: Store)
    requires op.Create? && op.tenant != "" && op.hash != h && store.Keys == {h}
    ensures after == After(store, [h], op) && after.Keys == {h, op.hash} && after[h] == store[h]
    ensures OwnedBy(after[op.hash], op.tenant) && Get(after[op.hash].fields, CreatedAt) == Str(op.now)
    ensures ContractInactive !in after[op.hash].fields
  {
    after := After(store, [h], op);
    assert Mutate(store, [h], op).Done?;
    CreateGives(store, [h], op);
    hide NewFields;
    hide TenantAllowlist;
  }

  lemma RotatedStore(store: Store, h: Hash, k: Hash, d: string, e: string, op: Op)
    requires op.Rotate? && op.tenant != "" && h != k && op.hash !in {h, k} && store.Keys == {h, k}
    requires OwnedBy(store[h], op.tenant) && OwnedBy(store[k], op.tenant) && ContractInactive !in store[k].fields
    requires Get(store[h].fields, CreatedAt) == Str(d) && Get(store[k].fields, CreatedAt) == Str(e) && !AtMost(e, d)
    ensures var after := After(store, [h, k], op);
            && KeysOf(after, op.tenant) == {op.hash} && op.hash in after && after[op.hash].Record?
            && !Get(after[op.hash].fields, ContractInactive).Truthy()
  {
    NewerOwned(store, h, k, op.tenant, d, e);
    RotationGoes(store, h, k, op);
    hide *;
    RotationLeavesOneKey(store, [h, k], op);
    OwnKey(After(store, [h, k], op), op.tenant, op.hash);
    NotBlocked(store[k].fields);
  }

  lemma RotationGoes(store: Store, h: Hash, k: Hash, op: Op)
    requires op.Rotate? && op.tenant != "" && h != k && op.hash !in {h, k} && store.Keys == {h, k}
    requires Owned(store, [h, k], op.tenant) != []
    ensures Orders([h, k], store) && IssuesNewKey(store, op) && Mutate(store, [h, k], op).Done?
    ensures After(store, [h, k], op) == Mutate(store, [h, k], op).store
  {
    hide RotatedEntry;
    hide Owned;
  }

  lemma OwnKey(store: Store, tenant: Tenant, h: Hash)
    ensures h in KeysOf(store, tenant) ==> h in store && store[h].Record?
  {
  }

  lemma NotBlocked(f: Fields)
    requires ContractInactive !in f
    ensures !Get(f, ContractInactive).Truthy()
  {
  }

  lemma NewerOwned(store: Store, h: Hash, k: Hash, tenant: Tenant, d: string, e: string)
    requires h in store && k in store && OwnedBy(store[h], tenant) && OwnedBy(store[k], tenant)
    requires Get(store[h].fields, CreatedAt) == Str(d) && Get(store[k].fields, CreatedAt) == Str(e) && !AtMost(e, d)
    ensures var owned := Owned(store, [h, k], tenant); owned != [] && FirstMax(owned).1 == store[k].fields
  {
    hide AtMost;
    assert [h, k][..1] == [h] && [h][..0] == [];
    var a, b := (d, store[h].fields), (e, store[k].fields);
    assert Owned(store, [h], tenant) == [] + [a] == [a];
    assert Owned(store, [h, k], tenant) == [a] + [b] == [a, b];
    assert [a, b][..1] == [a];
  }
}
