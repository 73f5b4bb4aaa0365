/** One proxy key as the store holds it, and its encoding as a row of the key table
    (src/proxy/auth/pg_key_store.py). */
module KeyEntry {
  import opened Options

  /** The sha256 of a raw key. */
  datatype Hash = Hash(hex: string)

  type Tenant = string

  /** A JSON value. Lists of strings are told apart because an allowlist is one. Any other list
      comes with Python's str() of its elements, of which there are some, and an object with its
      names in order; text is what else there is to the value. */
  datatype Json =
    | Null
    | Bool(b: bool)
    | Number(text: string, zero: bool)
    | Str(s: string)
    | Strs(items: seq<string>)
    | Mixed(shown: seq<string>, text: string)
    | Object(names: seq<string>, text: string)
  {
    /** Python's bool(). */
    predicate Truthy() {
      match this
      case Null => false
      case Bool(b) => b
      case Number(_, zero) => !zero
      case Str(s) => s != ""
      case Strs(items) => items != []
      case Mixed(_, _) => true
      case Object(names, _) => names != []
    }
  }

  /** The values Python takes for false. */
  lemma FalsyIff(v: Json)
    ensures !v.Truthy() <==>
              || v in {Null, Bool(false), Str(""), Strs([])}
              || (v.Number? && v.zero) || (v.Object? && |v.names| == 0)
  {
  }

  /** A metadata field's name; Extra is any name the key store has no use for itself. */
  datatype Name =
    | TenantId | Tier | CreatedAt | Admin | Suspended
    | ContractInactive | IpAllowlist | Gateway
    | Extra(name: string)

  type Fields = map<Name, Json>

  /** The legacy form is the bare user id, the current form a metadata object. */
  datatype Entry = Legacy(user: string) | Record(fields: Fields)

  type Store = map<Hash, Entry>

  const CORE_FIELDS: set<Name> := {TenantId, Tier, Admin, Suspended, CreatedAt}

  function Get(fields: Fields, key: Name): Json {
    if key in fields then fields[key] else Null
  }

  /** The tenant whose key this is; a legacy entry belongs to no tenant. */
  predicate OwnedBy(entry: Entry, tenant: Tenant) {
    entry.Record? && Get(entry.fields, TenantId) == Str(tenant)
  }

  // ------------------------------------------------------------------ rows

  datatype Row = Row(tenantId: Tenant, tier: string, admin: bool, suspended: bool,
                     createdAt: Option<string>, extra: Fields)

  function Extras(fields: Fields): Fields {
    map k | k in fields && k !in CORE_FIELDS :: fields[k]
  }

  /** The row for an entry, or None when a value does not fit its TEXT column (the insert
      then raises and its transaction rolls back). */
  function RowArgs(entry: Entry): Option<Row> {
    var fields := match entry
                  case Legacy(user) => map[TenantId := Str(user), Tier := Str("legacy")]
                  case Record(fields) => fields;
    var tenant := if TenantId in fields then fields[TenantId] else Str("default");
    var tier := if Tier in fields then fields[Tier] else Str("free");
    var created := Get(fields, CreatedAt);
    if tenant.Str? && tier.Str? && (created.Str? || created.Null?) then
      Some(Row(tenant.s, tier.s, Get(fields, Admin).Truthy(), Get(fields, Suspended).Truthy(),
               if created.Str? then Some(created.s) else None, Extras(fields)))
    else
      None
  }

  function OrFree(tier: string): string {
    if tier == "" then "free" else tier
  }

  function Flag(name: Name, on: bool): Fields {
    if on then map[name := Bool(true)] else map[]
  }

  /** The metadata object a row is read back as. The columns win over the extra object. */
  function RowToMeta(row: Row): Fields {
    var core := map[TenantId := Str(row.tenantId), Tier := Str(OrFree(row.tier)),
                    CreatedAt := if row.createdAt.Some? then Str(row.createdAt.value) else Null];
    row.extra + (core + Flag(Admin, row.admin) + Flag(Suspended, row.suspended))
  }

  /** What the key store's own writers build: every column present in the form it is read back in. */
  predicate Normal(entry: Entry) {
    && entry.Record?
    && var f := entry.fields;
    && TenantId in f && f[TenantId].Str?
    && Tier in f && f[Tier].Str? && f[Tier].s != ""
    && CreatedAt in f && (f[CreatedAt].Str? || f[CreatedAt].Null?)
    && (Admin in f ==> f[Admin] == Bool(true))
    && (Suspended in f ==> f[Suspended] == Bool(true))
  }

  /** No column is repeated in the extra object; true of every row RowArgs makes. */
  predicate Clean(row: Row) {
    row.extra.Keys !! CORE_FIELDS
  }

  /** The row as it would be rewritten from what readers see. */
  function Canon(row: Row): Row {
    row.(tier := OrFree(row.tier))
  }

  lemma RowArgsClean(entry: Entry)
    requires RowArgs(entry).Some?
    ensures Clean(RowArgs(entry).value)
  {
  }

  lemma MetaIsNormal(row: Row)
    requires Clean(row)
    ensures Normal(Record(RowToMeta(row)))
  {
  }

  /** Reading a row and writing it back keeps every column, except that a blank tier becomes "free". */
  lemma RewriteCanon(row: Row)
    requires Clean(row)
    ensures RowArgs(Record(RowToMeta(row))) == Some(Canon(row))
    ensures RowToMeta(Canon(row)) == RowToMeta(row)
  {
    MetaFields(row);
    MetaFields(Canon(row));
  }

  lemma MetaFields(row: Row)
    requires Clean(row)
    ensures var f := RowToMeta(row);
            && TenantId in f && f[TenantId] == Str(row.tenantId)
            && Tier in f && f[Tier] == Str(OrFree(row.tier))
            && Get(f, CreatedAt) == (if row.createdAt.Some? then Str(row.createdAt.value) else Null)
            && Get(f, Admin).Truthy() == row.admin && Get(f, Suspended).Truthy() == row.suspended
            && Extras(f) == row.extra
  {
    assert Extras(RowToMeta(row)) == row.extra;
  }

  /** A legacy entry becomes its user's key of tier "legacy", with no rights, no date and nothing else. */
  lemma LegacyRoundTrip(user: string)
    ensures RowArgs(Legacy(user)).Some?
    ensures var f := RowToMeta(RowArgs(Legacy(user)).value);
            && OwnedBy(Record(f), user) && Get(f, Tier) == Str("legacy") && Get(f, CreatedAt) == Null
            && !Get(f, Admin).Truthy() && !Get(f, Suspended).Truthy()
            && forall k | k !in CORE_FIELDS :: k !in f
  {
  }

  /** Field by field, what a record reads as once it went through the table: the tenant "default" and
      the tier "free" where it names none, the flags as the truth of what it said, and everything else
      as it was. Only a tenant, tier or date that is no string is refused. */
  lemma RecordRoundTrip(f: Fields)
    ensures RowArgs(Record(f)).Some? <==>
              && (TenantId in f ==> f[TenantId].Str?) && (Tier in f ==> f[Tier].Str?)
              && (CreatedAt in f ==> f[CreatedAt].Str? || f[CreatedAt].Null?)
    ensures RowArgs(Record(f)).Some? ==>
              var g := RowToMeta(RowArgs(Record(f)).value);
              && Get(g, TenantId) == (if TenantId in f then f[TenantId] else Str("default"))
              && Get(g, Tier) == (if Get(f, Tier).Truthy() then f[Tier] else Str("free"))
              && Get(g, CreatedAt) == Get(f, CreatedAt)
              && Get(g, Admin).Truthy() == Get(f, Admin).Truthy()
              && Get(g, Suspended).Truthy() == Get(f, Suspended).Truthy()
              && forall k | k !in CORE_FIELDS :: (k in g <==> k in f) && Get(g, k) == Get(f, k)
  {
    if RowArgs(Record(f)).Some? {
      var row := RowArgs(Record(f)).value;
      RowArgsClean(Record(f));
      RowOfRecord(f);
      MetaFields(row);
      MetaExtras(row);
      hide *;
    }
  }

  lemma RowOfRecord(f: Fields)
    requires RowArgs(Record(f)).Some?
    ensures var row := RowArgs(Record(f)).value;
            && Str(row.tenantId) == (if TenantId in f then f[TenantId] else Str("default"))
            && Str(OrFree(row.tier)) == (if Get(f, Tier).Truthy() then f[Tier] else Str("free"))
            && (if row.createdAt.Some? then Str(row.createdAt.value) else Null) == Get(f, CreatedAt)
            && row.admin == Get(f, Admin).Truthy() && row.suspended == Get(f, Suspended).Truthy()
            && forall k | k !in CORE_FIELDS :: (k in row.extra <==> k in f) && Get(row.extra, k) == Get(f, k)
  {
  }

  lemma MetaExtras(row: Row)
    requires Clean(row)
    ensures var g := RowToMeta(row);
            forall k | k !in CORE_FIELDS :: (k in g <==> k in row.extra) && Get(g, k) == Get(row.extra, k)
  {
  }

  /** An entry survives the table unchanged exactly when it is in normal form. */
  lemma RoundTripIffNormal(entry: Entry)
    requires RowArgs(entry).Some?
    ensures Record(RowToMeta(RowArgs(entry).value)) == entry <==> Normal(entry)
  {
    var row := RowArgs(entry).value;
    MetaIsNormal(row);
    if Normal(entry) {
      var f := entry.fields;
      var g := RowToMeta(row);
      assert row.extra == Extras(f);
      forall k
        ensures k in f <==> k in g
        ensures k in f ==> f[k] == g[k]
      {
        if k !in CORE_FIELDS {
          assert k in Extras(f) <==> k in f;
        }
      }
      assert f == g;
    }
  }

  /** Through the table twice is through it once, for every entry it accepts. */
  lemma RoundTripIdempotent(entry: Entry)
    requires RowArgs(entry).Some?
    ensures var once := Record(RowToMeta(RowArgs(entry).value));
            && RowArgs(once).Some?
            && Record(RowToMeta(RowArgs(once).value)) == once
  {
    var row := RowArgs(entry).value;
    RewriteCanon(row);
  }
}
