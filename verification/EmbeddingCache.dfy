/** The tenant-scoped embedding cache (src/proxy/embedding_cache.py), with the tenant ids its keys
    are made of (src/proxy/tenancy/context.py). */
module EmbeddingCache {
  import opened Options
  import opened Seqs
  import opened VectorCodec
  import Text

  // ------------------------------------------------------------------ tenant ids

  predicate Allowed(c: char) {
    AsciiAlnum(c) || c == '_' || c == '-'
  }

  function Replaced(s: string): (r: string)
    ensures |r| == |s| && forall i | 0 <= i < |r| :: Allowed(r[i])
    ensures forall i | 0 <= i < |s| && Allowed(s[i]) :: r[i] == s[i]
  {
    seq(|s|, i requires 0 <= i < |s| => if Allowed(s[i]) then s[i] else '_')
  }

  const MAX_ID := 64

  function Capped(s: string): string {
    if |s| <= MAX_ID then s else s[..MAX_ID]
  }

  function Sanitise(id: string): string {
    var tid := Capped(Replaced(Text.StripRight(Text.StripLeft(id))));
    if tid == [] then "default" else if AsciiAlnum(tid[0]) then tid else Capped("t" + tid)
  }

  predicate Safe(id: string) {
    0 < |id| <= MAX_ID && AsciiAlnum(id[0]) && forall i | 0 <= i < |id| :: Allowed(id[i])
  }

  /** Every id comes out safe, and a safe id comes out as it went in. */
  lemma SanitiseMakesSafe(id: string)
    ensures Safe(Sanitise(id))
    ensures Safe(id) ==> Sanitise(id) == id
  {
    CappedIsSafe(Replaced(Text.StripRight(Text.StripLeft(id))));
    if Safe(id) {
      SafeStays(id);
    }
    hide Safe;
    hide Replaced;
  }

  lemma CappedIsSafe(r: string)
    requires forall i | 0 <= i < |r| :: Allowed(r[i])
    ensures var tid := Capped(r);
            Safe(if tid == [] then "default" else if AsciiAlnum(tid[0]) then tid else Capped("t" + tid))
  {
    var tid := Capped(r);
    assert forall i | 0 <= i < |"t" + tid| :: Allowed(("t" + tid)[i]);
  }

  lemma SafeStays(id: string)
    requires Safe(id)
    ensures Text.StripLeft(id) == id && Text.StripRight(id) == id && Replaced(id) == id
    ensures Capped(id) == id && id != [] && AsciiAlnum(id[0])
  {
    assert !Text.Is(Text.Space, id[0]) && !Text.Is(Text.Space, id[|id| - 1]) by {
      assert Allowed(id[0]) && Allowed(id[|id| - 1]);
    }
    assert Replaced(id) == id;
  }

  /** What an id becomes, without the white space around it: "default" if it is blank, else its first 64 characters, with _ for each but
      a letter, a digit, _ or -, and t before it if it does not start with a letter or digit. */
  lemma SanitiseIs(id: string)
    ensures var s := Text.StripRight(Text.StripLeft(id));
            && (s == [] ==> Sanitise(id) == "default")
            && (s != [] && AsciiAlnum(s[0]) ==> Becomes(s, Sanitise(id), 64))
            && (s != [] && !AsciiAlnum(s[0]) ==> Sanitise(id)[0] == 't' && Becomes(s, Sanitise(id)[1..], 63))
  {
    var s := Text.StripRight(Text.StripLeft(id));
    var r := Capped(Replaced(s));
    ReplacedBecomes(s);
    if s != [] && !AsciiAlnum(s[0]) {
      var tid := Capped("t" + r);
      assert r[0] == Replaced(s)[0] && !AsciiAlnum(r[0]);
      assert Sanitise(id) == tid;
      assert |tid| == if |s| < 63 then |s| + 1 else 64;
      assert tid[0] == 't' && forall i | 0 <= i < |tid| - 1 :: tid[1..][i] == r[i];
    }
  }

  lemma ReplacedBecomes(s: string)
    ensures Becomes(s, Capped(Replaced(s)), 64)
    ensures s != [] && !AsciiAlnum(s[0]) ==> !AsciiAlnum(Replaced(s)[0])
  {
    var r := Replaced(s);
    assert forall i | 0 <= i < |s| :: Allowed(s[i]) <==> AsciiAlnum(s[i]) || s[i] in "_-";
  }

  /** r is s up to a limit, character by character. */
  predicate Becomes(s: string, r: string, limit: nat) {
    && |r| == (if |s| < limit then |s| else limit)
    && forall i | 0 <= i < |r| :: r[i] == if AsciiAlnum(s[i]) || s[i] in "_-" then s[i] else '_'
  }

  // ------------------------------------------------------------------ keys

  type Digest = d: string | |d| == 64 witness seq(64, _ => '0')
  type Hash = string -> Digest
  type Encoder = (string, string) -> Vector

  datatype Request = Request(tenant: string, model: string, text: string)

  /** The tenant's part of the key. */
  function Prefix(tenant: string): string {
    var safe := Sanitise(tenant);
    if safe == "default" then "" else TenantPrefix(safe)
  }

  function TenantPrefix(id: string): string {
    "t:" + id + ":"
  }

  function KeyOf(prefix: string, model: string, digest: string): string {
    prefix + ("emb:" + (model + (":" + digest)))
  }

  function CacheKey(hash: Hash, r: Request): string {
    KeyOf(Prefix(r.tenant), r.model, hash(r.text))
  }

  lemma SameTail(a: string, x: string, b: string, y: string)
    requires a + x == b + y && |x| == |y|
    ensures a == b && x == y
  {
    assert |a| == |b|;
    assert a == (a + x)[..|a|] == b && x == (a + x)[|a|..] == y;
  }

  lemma SameHead(a: string, x: string, b: string, y: string)
    requires a + x == b + y && a == b
    ensures x == y
  {
    assert x == (a + x)[|a|..] && y == (b + y)[|b|..];
  }

  lemma SameColon(a: string, x: string, b: string, y: string)
    requires a + (":" + x) == b + (":" + y) && ':' !in a && ':' !in b
    ensures |a| == |b|
  {
    var s := a + (":" + x);
    assert s[|a|] == ':' && s[|b|] == ':';
    assert forall k | 0 <= k < |a| :: s[k] == a[k];
    assert forall k | 0 <= k < |b| :: s[k] == b[k];
  }

  /** Up to its first colon, a tenant prefix is the id. */
  lemma SameId(a: string, x: string, b: string, y: string)
    requires TenantPrefix(a) + x == TenantPrefix(b) + y && ':' !in a && ':' !in b
    ensures a == b && x == y
  {
    assert TenantPrefix(a) + x == "t:" + (a + (":" + x));
    assert TenantPrefix(b) + y == "t:" + (b + (":" + y));
    SameHead("t:", a + (":" + x), "t:", b + (":" + y));
    SameColon(a, x, b, y);
    SameTail(TenantPrefix(a), x, TenantPrefix(b), y);
    assert a == (a + (":" + x))[..|a|] && b == (b + (":" + y))[..|b|];
  }

  predicate IsPrefix(p: string) {
    p == "" || exists id | id == IdIn(p) :: ':' !in id && p == TenantPrefix(id)
  }

  function IdIn(p: string): string {
    if |p| < 3 then "" else p[2..|p| - 1]
  }

  lemma TenantPrefixIs(id: string)
    requires ':' !in id
    ensures IsPrefix(TenantPrefix(id))
  {
    assert IdIn(TenantPrefix(id)) == id;
  }

  /** A key with a colon-free tenant id is read back in only one way. */
  lemma KeyIsReadOneWay(p: string, m: string, d: string, q: string, n: string, e: string)
    requires IsPrefix(p) && IsPrefix(q) && |d| == |e| && KeyOf(p, m, d) == KeyOf(q, n, e)
    ensures p == q && m == n && d == e
  {
    var x, y := "emb:" + (m + (":" + d)), "emb:" + (n + (":" + e));
    assert p + x == q + y;
    assert (p + x)[0] == (if p == "" then 'e' else 't') && (q + y)[0] == (if q == "" then 'e' else 't');
    if p != "" {
      SameId(IdIn(p), x, IdIn(q), y);
    }
    SameHead(p, x, q, y);
    SameHead("emb:", m + (":" + d), "emb:", n + (":" + e));
    SameTail(m, ":" + d, n, ":" + e);
    SameHead(":", d, ":", e);
  }

  /** Whatever the tenants are called, a cache key fixes the tenant's namespace, the model and the
      digest of the text. */
  lemma CacheKeyInjective(hash: Hash, r: Request, s: Request)
    requires CacheKey(hash, r) == CacheKey(hash, s)
    ensures Prefix(r.tenant) == Prefix(s.tenant) && r.model == s.model && hash(r.text) == hash(s.text)
  {
    PrefixIs(r.tenant);
    PrefixIs(s.tenant);
    hide *;
    KeyIs(hash, r);
    KeyIs(hash, s);
    KeyIsReadOneWay(Prefix(r.tenant), r.model, hash(r.text), Prefix(s.tenant), s.model, hash(s.text));
  }

  /** ... and nothing else: two requests share a key exactly when their tenants' ids come out the same,
      and the model and the digest are. */
  lemma SameKeyIff(hash: Hash, r: Request, s: Request)
    ensures CacheKey(hash, r) == CacheKey(hash, s) <==>
              Sanitise(r.tenant) == Sanitise(s.tenant) && r.model == s.model && hash(r.text) == hash(s.text)
  {
    hide Sanitise;
    PrefixFixesId(r.tenant, s.tenant);
    hide Prefix;
    if CacheKey(hash, r) == CacheKey(hash, s) {
      CacheKeyInjective(hash, r, s);
    }
  }

  lemma PrefixFixesId(a: string, b: string)
    ensures Prefix(a) == Prefix(b) <==> Sanitise(a) == Sanitise(b)
  {
    hide Sanitise;
    SanitiseMakesSafe(a);
    SanitiseMakesSafe(b);
    var x, y := Sanitise(a), Sanitise(b);
    if Prefix(a) == Prefix(b) && x != "default" && y != "default" {
      assert TenantPrefix(x) + [] == TenantPrefix(y) + [];
      SameId(x, [], y, []);
    }
  }

  /** The texts of the keys: of the default tenant, and of any other. */
  lemma KeyTexts(hash: Hash, r: Request)
    ensures var rest := "emb:" + (r.model + (":" + hash(r.text)));
            CacheKey(hash, r) == if Sanitise(r.tenant) == "default" then rest else "t:" + Sanitise(r.tenant) + ":" + rest
  {
    hide Sanitise;
  }

  lemma KeyIs(hash: Hash, r: Request)
    ensures CacheKey(hash, r) == KeyOf(Prefix(r.tenant), r.model, hash(r.text))
  {
  }

  lemma PrefixIs(tenant: string)
    ensures IsPrefix(Prefix(tenant))
  {
    var id := Sanitise(tenant);
    SanitiseMakesSafe(tenant);
    TenantPrefixIs(id);
  }

  /** Were ids taken as they come, a colon in one would let two models share a key. */
  lemma ColonsCollide(model: string, digest: Digest)
    ensures KeyOf(TenantPrefix("a:emb:b"), model, digest) == KeyOf(TenantPrefix("a"), "b:emb:" + model, digest)
  {
    var rest := model + (":" + digest);
    assert TenantPrefix("a:emb:b") == "t:a:emb:b:" && TenantPrefix("a") == "t:a:";
    assert ("b:emb:" + model) + (":" + digest) == "b:emb:" + rest;
    assert "t:a:emb:b:" + ("emb:" + rest) == "t:a:" + ("emb:" + ("b:emb:" + rest));
  }

  // ------------------------------------------------------------------ what a cache may hold

  /** No two of the texts in use share a digest. */
  ghost predicate NoCollision(hash: Hash, uses: set<Request>) {
    forall r, s | r in uses && s in uses && hash(r.text) == hash(s.text) :: r.text == s.text
  }

  /** The vector is the encoding of every request with this key. */
  ghost predicate Agrees(hash: Hash, encode: Encoder, uses: set<Request>, key: string, v: Vector) {
    forall r | r in uses && CacheKey(hash, r) == key :: v == encode(r.model, r.text)
  }

  lemma EncodingAgrees(hash: Hash, encode: Encoder, uses: set<Request>, r: Request)
    requires r in uses && NoCollision(hash, uses)
    ensures Agrees(hash, encode, uses, CacheKey(hash, r), encode(r.model, r.text))
  {
    hide CacheKey;
    forall s | s in uses && CacheKey(hash, s) == CacheKey(hash, r) ensures encode(r.model, r.text) == encode(s.model, s.text) {
      CacheKeyInjective(hash, r, s);
    }
  }

  /** A stored blob: empty, or the packing of a vector that agrees. */
  ghost predicate BlobAgrees(hash: Hash, encode: Encoder, uses: set<Request>, key: string, blob: string) {
    exists v :: blob == Pack(v) && Agrees(hash, encode, uses, key, v)
  }

  /** What unpacking a stored blob gives is the encoding. */
  lemma BlobIsEncoding(hash: Hash, encode: Encoder, uses: set<Request>, r: Request, blob: string)
    requires r in uses && BlobAgrees(hash, encode, uses, CacheKey(hash, r), blob)
    ensures Unpack(blob) == Some(encode(r.model, r.text))
  {
    hide CacheKey;
    hide Pack;
    hide Unpack;
    var v :| blob == Pack(v) && Agrees(hash, encode, uses, CacheKey(hash, r), v);
    PackRoundTrip(v);
  }

  // ------------------------------------------------------------------ the map in the process

  const LOCAL_MAX := 512

  datatype Entry = Entry(expires: int, vector: Vector)
  type Local = map<string, Entry>

  function Live(local: Local, now: int): Local {
    map k | k in local && local[k].expires > now :: local[k]
  }

  function AtLeastOne(ttl: int): int {
    if ttl < 1 then 1 else ttl
  }

  /** kept is live without its soonest to expire, as few as leave room for one more. */
  ghost predicate Evicted(live: Local, kept: Local) {
    && kept.Keys <= live.Keys && (forall k | k in kept :: kept[k] == live[k])
    && (forall d, k | d in live && d !in kept && k in kept :: live[d].expires <= live[k].expires)
    && |kept| == if |live| < LOCAL_MAX then |live| else LOCAL_MAX - 1
  }

  /** _local_put. */
  ghost predicate Puts(local: Local, key: string, v: Vector, now: int, ttl: int, after: Local) {
    exists kept :: Evicted(Live(local, now), kept) && after == kept[key := Entry(now + AtLeastOne(ttl), v)]
  }

  lemma LiveFits(local: Local, kept: Local)
    requires Evicted(local, kept) && |kept| == |local|
    ensures kept == local
  {
    SameKeys(kept.Keys, local.Keys);
  }

  lemma SameKeys(a: set<string>, b: set<string>)
    requires a <= b && |a| == |b|
    ensures a == b
  {
    if x :| x in b && x !in a {
      assert a <= b - {x};
      Smaller(a, b - {x});
    }
  }

  lemma {:induction false} Smaller(a: set<string>, b: set<string>)
    requires a <= b
    ensures |a| <= |b|
  {
    if a == {} {
    } else {
      var x :| x in a;
      Smaller(a - {x}, b - {x});
    }
  }

  /** The entry put lives for the time given, but at least one second. Of the others, the expired are
      dropped; with room to spare no other is, and else the soonest to expire are, as few as make
      room. */
  lemma PutKeepsLive(local: Local, key: string, v: Vector, now: int, ttl: int, after: Local)
    requires Puts(local, key, v, now, ttl, after)
    ensures key in after && after[key].vector == v
    ensures after[key].expires == if ttl >= 1 then now + ttl else now + 1
    ensures forall k | k in after && k != key :: k in local && after[k] == local[k] && local[k].expires > now
    ensures var live := set k | k in local && local[k].expires > now;
            && (|live| < 512 ==> forall k | k in live :: k in after)
            && (|live| >= 512 ==> exists kept: set<string> :: (
                  && kept <= live && |kept| == 511 && after.Keys == kept + {key}
                  && forall d, k | d in live && d !in kept && k in kept :: local[d].expires <= local[k].expires))
  {
    var live := Live(local, now);
    var kept :| Evicted(live, kept) && after == kept[key := Entry(now + AtLeastOne(ttl), v)];
    LiveKeys(local, now);
    if |live| < LOCAL_MAX {
      LiveFits(live, kept);
    } else {
      KeptKeys(live, kept);
      assert after.Keys == kept.Keys + {key};
    }
  }

  lemma LiveKeys(local: Local, now: int)
    ensures Live(local, now).Keys == set k | k in local && local[k].expires > now
    ensures |Live(local, now)| == |set k | k in local && local[k].expires > now|
    ensures forall k | k in Live(local, now) :: Live(local, now)[k] == local[k]
  {
    var live := Live(local, now);
    assert live.Keys == set k | k in local && local[k].expires > now;
    assert |live| == |live.Keys|;
  }

  lemma KeptKeys(live: Local, kept: Local)
    requires Evicted(live, kept) && |live| >= LOCAL_MAX
    ensures kept.Keys <= live.Keys && |kept.Keys| == 511
    ensures forall d, k | d in live && d !in kept.Keys && k in kept.Keys :: live[d].expires <= live[k].expires
  {
    assert |kept| == |kept.Keys|;
  }

  lemma PutFits(local: Local, key: string, v: Vector, now: int, ttl: int, after: Local)
    requires Puts(local, key, v, now, ttl, after)
    ensures |after| <= LOCAL_MAX && key in after && after[key].vector == v
    ensures forall k | k in after && k != key :: k in local && after[k] == local[k]
  {
    var kept :| Evicted(Live(local, now), kept) && after == kept[key := Entry(now + AtLeastOne(ttl), v)];
    OneMore(kept, key, Entry(now + AtLeastOne(ttl), v));
  }

  lemma OneMore(kept: Local, key: string, e: Entry)
    ensures |kept[key := e]| <= |kept| + 1
  {
    assert kept[key := e].Keys == kept.Keys + {key};
  }

  /** _local_get: what is found, and the map afterwards, without an entry found expired. */
  function Got(local: Local, key: string, now: int): Option<Vector> {
    if key in local && local[key].expires > now then Some(local[key].vector) else None
  }

  function AfterGet(local: Local, key: string, now: int): Local {
    if key in local && local[key].expires <= now then local - {key} else local
  }

  ghost predicate Sound(hash: Hash, encode: Encoder, uses: set<Request>, local: Local) {
    forall k | k in local :: Agrees(hash, encode, uses, k, local[k].vector)
  }

  lemma PutIsSound(hash: Hash, encode: Encoder, uses: set<Request>, local: Local, r: Request, now: int, ttl: int, after: Local)
    requires Sound(hash, encode, uses, local) && r in uses && NoCollision(hash, uses)
    requires Puts(local, CacheKey(hash, r), encode(r.model, r.text), now, ttl, after)
    ensures Sound(hash, encode, uses, after) && |after| <= LOCAL_MAX
  {
    hide Agrees;
    hide Puts;
    hide CacheKey;
    EncodingAgrees(hash, encode, uses, r);
    PutFits(local, CacheKey(hash, r), encode(r.model, r.text), now, ttl, after);
  }

  predicate Usable(blob: Option<string>) {
    blob.Some? && blob.value != "" && Unpack(blob.value).Some?
  }

  class LocalCache {
    var local: Local

    constructor ()
      ensures local == map[]
    {
      local := map[];
    }

    method Get(key: string, now: int) returns (found: Option<Vector>)
      modifies this
      ensures found == Got(old(local), key, now) && local == AfterGet(old(local), key, now)
      ensures found.Some? <==> key in local
      ensures found.Some? ==> found.value == local[key].vector && local[key].expires > now
      ensures found.None? && key in old(local) ==> old(local)[key].expires <= now
      ensures forall k | k != key :: (k in local <==> k in old(local)) && (k in local ==> local[k] == old(local)[k])
    {
      if key !in local {
        return None;
      }
      if local[key].expires <= now {
        local := local - {key};
        return None;
      }
      return Some(local[key].vector);
    }

    method Soonest() returns (k: string)
      requires local != map[]
      ensures k in local && forall j | j in local :: local[k].expires <= local[j].expires
    {
      var rest := local.Keys;
      k :| k in local;
      rest := rest - {k};
      while rest != {}
        invariant k in local && rest <= local.Keys
        invariant forall j | j in local && j !in rest :: local[k].expires <= local[j].expires
        decreases |rest|
      {
        var j :| j in rest;
        if local[j].expires < local[k].expires {
          k := j;
        }
        rest := rest - {j};
      }
    }

    method Put(key: string, v: Vector, now: int, ttl: int)
      modifies this
      ensures Puts(old(local), key, v, now, ttl, local)
    {
      ghost var live := Live(local, now);
      local := Live(local, now);
      while |local| >= LOCAL_MAX
        invariant local.Keys <= live.Keys && forall k | k in local :: local[k] == live[k]
        invariant forall d, k | d in live && d !in local && k in local :: live[d].expires <= live[k].expires
        invariant |local| == |live| || LOCAL_MAX - 1 <= |local| < |live|
        decreases |local|
      {
        var oldest := Soonest();
        assert (local - {oldest}).Keys == local.Keys - {oldest};
        local := local - {oldest};
      }
      assert Evicted(live, local);
      local := local[key := Entry(now + AtLeastOne(ttl), v)];
    }

    /** embed_cached, uninterrupted. blob is what Redis answered (None when it cannot be reached; a
        blob that cannot be unpacked counts as a miss); write is what is sent to it afterwards. */
    method EmbedCached(hash: Hash, encode: Encoder, r: Request, ttl: int, blob: Option<string>, now: int, later: int,
                       ghost uses: set<Request>) returns (vector: Vector, write: Option<string>)
      requires r in uses && NoCollision(hash, uses) && Sound(hash, encode, uses, local) && |local| <= LOCAL_MAX
      requires Usable(blob) ==> Agrees(hash, encode, uses, CacheKey(hash, r), Unpack(blob.value).value)
      modifies this
      ensures vector == encode(r.model, r.text)
      ensures Sound(hash, encode, uses, local) && |local| <= LOCAL_MAX
      ensures write.Some? ==> write.value == Pack(vector)
      ensures write.None? <==>
                || (CacheKey(hash, r) in old(local) && old(local)[CacheKey(hash, r)].expires > now)
                || (blob.Some? && blob.value != "" && Unpack(blob.value).Some?)
      ensures CacheKey(hash, r) in local && local[CacheKey(hash, r)].vector == vector
      ensures if CacheKey(hash, r) in old(local) && old(local)[CacheKey(hash, r)].expires > now then local == old(local)
              else local[CacheKey(hash, r)].expires == later + if ttl >= 1 then ttl else 1
    {
      hide CacheKey;
      hide Pack;
      hide Unpack;
      hide Puts;
      var key := CacheKey(hash, r);
      var cached := Get(key, now);
      if cached.Some? {
        return cached.value, None;
      }
      SoundAfterGet(hash, encode, uses, old(local), key, now);
      ghost var before := local;
      if Usable(blob) {
        vector := Unpack(blob.value).value;
        Put(key, vector, later, ttl);
        PutIsSound(hash, encode, uses, before, r, later, ttl, local);
        PutKeepsLive(before, key, vector, later, ttl, local);
        return vector, None;
      }
      vector := encode(r.model, r.text);
      Put(key, vector, later, ttl);
      PutIsSound(hash, encode, uses, before, r, later, ttl, local);
      PutKeepsLive(before, key, vector, later, ttl, local);
      return vector, Some(Pack(vector));
    }
  }

  lemma SoundAfterGet(hash: Hash, encode: Encoder, uses: set<Request>, local: Local, key: string, now: int)
    requires Sound(hash, encode, uses, local)
    ensures Sound(hash, encode, uses, AfterGet(local, key, now))
    ensures |AfterGet(local, key, now)| <= |local|
  {
    hide Agrees;
    Smaller(AfterGet(local, key, now).Keys, local.Keys);
  }

  // ------------------------------------------------------------------ several instances and one Redis

  datatype Write = Write(key: string, blob: string)

  /** writes are the packed vectors on their way to Redis, answers those on their way from it: an
      instance may get one at any time after Redis gave it. */
  datatype Sys = Sys(locals: seq<Local>, redis: map<string, string>, writes: set<Write>, answers: set<Write>)

  /** One thing one instance does, between two of its awaits, or something Redis does. */
  datatype Event =
    | Lookup(i: nat, r: Request, now: int)
    | Read(key: string)
    | Fetched(i: nat, r: Request, blob: string, now: int, ttl: int)
    | Computed(i: nat, r: Request, now: int, ttl: int)
    | Landed(w: Write)
    | Dropped(w: Write)
    | Forgotten(keys: set<string>)

  /** The vector the event hands its caller. */
  ghost predicate Answers(hash: Hash, encode: Encoder, s: Sys, e: Event, v: Vector) {
    match e
    case Lookup(i, r, now) => i < |s.locals| && Got(s.locals[i], CacheKey(hash, r), now) == Some(v)
    case Fetched(i, r, blob, now, ttl) =>
      Write(CacheKey(hash, r), blob) in s.answers && Usable(Some(blob)) && Unpack(blob).value == v
    case Computed(i, r, now, ttl) => v == encode(r.model, r.text)
    case _ => false
  }

  ghost predicate PutAt(s: Sys, t: Sys, i: nat, key: string, v: Vector, now: int, ttl: int) {
    && i < |s.locals| == |t.locals|
    && Puts(s.locals[i], key, v, now, ttl, t.locals[i])
    && forall j | 0 <= j < |s.locals| && j != i :: t.locals[j] == s.locals[j]
  }

  ghost predicate Step(hash: Hash, encode: Encoder, s: Sys, e: Event, t: Sys) {
    match e
    case Lookup(i, r, now) =>
      i < |s.locals| && t == s.(locals := s.locals[i := AfterGet(s.locals[i], CacheKey(hash, r), now)])
    case Read(key) => key in s.redis && t == s.(answers := s.answers + {Write(key, s.redis[key])})
    case Fetched(i, r, blob, now, ttl) =>
      && t.redis == s.redis && t.writes == s.writes && t.answers == s.answers
      && exists v :: Answers(hash, encode, s, e, v) && PutAt(s, t, i, CacheKey(hash, r), v, now, ttl)
    case Computed(i, r, now, ttl) =>
      && t.redis == s.redis && t.answers == s.answers
      && t.writes == s.writes + {Write(CacheKey(hash, r), Pack(encode(r.model, r.text)))}
      && PutAt(s, t, i, CacheKey(hash, r), encode(r.model, r.text), now, ttl)
    case Landed(w) => w in s.writes && t == s.(redis := s.redis[w.key := w.blob], writes := s.writes - {w})
    case Dropped(w) => t == s.(writes := s.writes - {w})
    case Forgotten(keys) => t == s.(redis := s.redis - keys)
  }

  predicate Uses(e: Event, uses: set<Request>) {
    (e.Lookup? || e.Fetched? || e.Computed?) ==> e.r in uses
  }

  ghost predicate LocalsSound(hash: Hash, encode: Encoder, uses: set<Request>, locals: seq<Local>) {
    forall i | 0 <= i < |locals| :: Sound(hash, encode, uses, locals[i]) && |locals[i]| <= LOCAL_MAX
  }

  ghost predicate RedisSound(hash: Hash, encode: Encoder, uses: set<Request>, redis: map<string, string>) {
    forall k | k in redis :: BlobAgrees(hash, encode, uses, k, redis[k])
  }

  ghost predicate WritesSound(hash: Hash, encode: Encoder, uses: set<Request>, writes: set<Write>) {
    forall w | w in writes :: BlobAgrees(hash, encode, uses, w.key, w.blob)
  }

  ghost predicate SysSound(hash: Hash, encode: Encoder, uses: set<Request>, s: Sys) {
    && LocalsSound(hash, encode, uses, s.locals)
    && RedisSound(hash, encode, uses, s.redis)
    && WritesSound(hash, encode, uses, s.writes) && WritesSound(hash, encode, uses, s.answers)
  }

  lemma PutAtSound(hash: Hash, encode: Encoder, uses: set<Request>, s: Sys, t: Sys, i: nat, r: Request, now: int, ttl: int)
    requires LocalsSound(hash, encode, uses, s.locals) && r in uses && NoCollision(hash, uses)
    requires PutAt(s, t, i, CacheKey(hash, r), encode(r.model, r.text), now, ttl)
    ensures LocalsSound(hash, encode, uses, t.locals)
  {
    hide CacheKey;
    hide Sound;
    hide Puts;
    PutIsSound(hash, encode, uses, s.locals[i], r, now, ttl, t.locals[i]);
  }

  /** In a sound system every answer is the plain encoding. */
  lemma AnswerIsEncoding(hash: Hash, encode: Encoder, uses: set<Request>, s: Sys, e: Event, v: Vector)
    requires SysSound(hash, encode, uses, s) && Uses(e, uses) && Answers(hash, encode, s, e, v)
    ensures v == encode(e.r.model, e.r.text)
  {
    hide CacheKey;
    hide Unpack;
    hide BlobAgrees;
    if e.Lookup? {
      assert Agrees(hash, encode, uses, CacheKey(hash, e.r), v);
    } else if e.Fetched? {
      BlobIsEncoding(hash, encode, uses, e.r, e.blob);
    }
  }

  /** What Redis does to what it holds and what is on its way. */
  lemma RedisSteps(hash: Hash, encode: Encoder, s: Sys, e: Event, t: Sys)
    requires Step(hash, encode, s, e, t)
    ensures e.Landed? ==> e.w in s.writes && e.w !in t.writes && e.w.key in t.redis && t.redis[e.w.key] == e.w.blob
    ensures e.Dropped? ==> e.w !in t.writes && t.redis == s.redis
    ensures e.Forgotten? ==> t.redis.Keys == s.redis.Keys - e.keys && forall k | k in t.redis :: t.redis[k] == s.redis[k]
    ensures e.Read? ==> e.key in s.redis && Write(e.key, s.redis[e.key]) in t.answers
    ensures e.Lookup? ==> t.redis == s.redis && Got(t.locals[e.i], CacheKey(hash, e.r), e.now) == Got(s.locals[e.i], CacheKey(hash, e.r), e.now)
    ensures e.Lookup? && Got(s.locals[e.i], CacheKey(hash, e.r), e.now).None? ==> CacheKey(hash, e.r) !in t.locals[e.i]
  {
    hide CacheKey;
    hide PutAt;
  }

  /** A vector computed for one instance is served to another: in a sound system, once it is computed,
      landed and read, the other instance is answered with it and holds it for the next lookup. */
  lemma ComputedIsShared(hash: Hash, encode: Encoder, uses: set<Request>, s: Sys, s1: Sys, s2: Sys, s3: Sys, s4: Sys,
                         i: nat, j: nat, r: Request, w: Write, now: int, ttl: int)
    requires SysSound(hash, encode, uses, s) && NoCollision(hash, uses) && r in uses && encode(r.model, r.text) != []
    requires Step(hash, encode, s, Computed(i, r, now, ttl), s1)
    requires w == Write(CacheKey(hash, r), Pack(encode(r.model, r.text)))
    requires Step(hash, encode, s1, Landed(w), s2) && Step(hash, encode, s2, Read(w.key), s3)
    requires Step(hash, encode, s3, Fetched(j, r, w.blob, now, ttl), s4)
    ensures Answers(hash, encode, s, Computed(i, r, now, ttl), encode(r.model, r.text))
    ensures Answers(hash, encode, s3, Fetched(j, r, w.blob, now, ttl), encode(r.model, r.text))
    ensures Answers(hash, encode, s4, Lookup(j, r, now), encode(r.model, r.text))
  {
    hide CacheKey;
    hide Pack;
    hide Unpack;
    hide Puts;
    hide Answers;
    var v := encode(r.model, r.text);
    PackRoundTrip(v);
    PackedNotEmpty(v);
    FetchedAnswer(hash, encode, s3, j, r, w.blob, now, ttl, v);
    var u :| Answers(hash, encode, s3, Fetched(j, r, w.blob, now, ttl), u) && PutAt(s3, s4, j, CacheKey(hash, r), u, now, ttl);
    FetchedIs(hash, encode, s3, j, r, w.blob, now, ttl, u);
    PutKeepsLive(s3.locals[j], CacheKey(hash, r), v, now, ttl, s4.locals[j]);
    OtherAnswers(hash, encode, s, s4, i, j, r, now, ttl);
  }

  lemma PackedNotEmpty(v: Vector)
    requires v != []
    ensures Pack(v) != ""
  {
  }

  lemma FetchedAnswer(hash: Hash, encode: Encoder, s: Sys, j: nat, r: Request, blob: string, now: int, ttl: int, v: Vector)
    requires Write(CacheKey(hash, r), blob) in s.answers && blob != "" && Unpack(blob) == Some(v)
    ensures Answers(hash, encode, s, Fetched(j, r, blob, now, ttl), v)
  {
    hide CacheKey;
    hide Unpack;
  }

  lemma FetchedIs(hash: Hash, encode: Encoder, s: Sys, j: nat, r: Request, blob: string, now: int, ttl: int, v: Vector)
    requires Answers(hash, encode, s, Fetched(j, r, blob, now, ttl), v)
    ensures blob != "" && Unpack(blob) == Some(v)
  {
    hide CacheKey;
    hide Unpack;
  }

  lemma OtherAnswers(hash: Hash, encode: Encoder, s: Sys, t: Sys, i: nat, j: nat, r: Request, now: int, ttl: int)
    ensures Answers(hash, encode, s, Computed(i, r, now, ttl), encode(r.model, r.text))
    ensures j < |t.locals| && CacheKey(hash, r) in t.locals[j] && t.locals[j][CacheKey(hash, r)].expires > now ==>
              Answers(hash, encode, t, Lookup(j, r, now), t.locals[j][CacheKey(hash, r)].vector)
  {
    hide CacheKey;
  }

  lemma StepSound(hash: Hash, encode: Encoder, uses: set<Request>, s: Sys, e: Event, t: Sys)
    requires SysSound(hash, encode, uses, s) && NoCollision(hash, uses) && Uses(e, uses)
    requires Step(hash, encode, s, e, t)
    ensures SysSound(hash, encode, uses, t)
  {
    hide CacheKey;
    hide Pack;
    hide BlobAgrees;
    hide NoCollision;
    hide Sound;
    hide PutAt;
    hide AfterGet;
    hide Answers;
    match e
    case Lookup(i, r, now) =>
      SoundAfterGet(hash, encode, uses, s.locals[i], CacheKey(hash, r), now);
    case Fetched(i, r, blob, now, ttl) =>
      var v :| Answers(hash, encode, s, e, v) && PutAt(s, t, i, CacheKey(hash, r), v, now, ttl);
      AnswerIsEncoding(hash, encode, uses, s, e, v);
      PutAtSound(hash, encode, uses, s, t, i, r, now, ttl);
    case Computed(i, r, now, ttl) =>
      PutAtSound(hash, encode, uses, s, t, i, r, now, ttl);
      WriteAgrees(hash, encode, uses, r);
    case _ =>
  }

  lemma WriteAgrees(hash: Hash, encode: Encoder, uses: set<Request>, r: Request)
    requires r in uses && NoCollision(hash, uses)
    ensures BlobAgrees(hash, encode, uses, CacheKey(hash, r), Pack(encode(r.model, r.text)))
  {
    EncodingAgrees(hash, encode, uses, r);
  }

  /** A run of the system from empty caches. */
  ghost predicate Run(hash: Hash, encode: Encoder, ss: seq<Sys>, es: seq<Event>) {
    && |ss| == |es| + 1
    && (forall i | 0 <= i < |ss[0].locals| :: ss[0].locals[i] == map[])
    && ss[0].redis == map[] && ss[0].writes == {} && ss[0].answers == {}
    && forall k | 0 <= k < |es| :: Step(hash, encode, ss[k], es[k], ss[k + 1])
  }

  lemma {:induction false} RunSound(hash: Hash, encode: Encoder, uses: set<Request>, ss: seq<Sys>, es: seq<Event>, k: nat)
    requires Run(hash, encode, ss, es) && NoCollision(hash, uses)
    requires forall e | e in es :: Uses(e, uses)
    requires k <= |es|
    ensures SysSound(hash, encode, uses, ss[k])
  {
    if k == 0 {
    } else {
      RunSound(hash, encode, uses, ss, es, k - 1);
      assert Uses(es[k - 1], uses);
      hide SysSound;
      hide Step;
      StepSound(hash, encode, uses, ss[k - 1], es[k - 1], ss[k]);
    }
  }

  /** The cache is transparent: in any run, with any expiry, eviction, lost or late write and any
      interleaving of the instances, every answer is the plain encoding, and no local map passes
      its bound. */
  lemma Transparent(hash: Hash, encode: Encoder, uses: set<Request>, ss: seq<Sys>, es: seq<Event>, k: nat, v: Vector)
    requires Run(hash, encode, ss, es) && NoCollision(hash, uses)
    requires forall e | e in es :: Uses(e, uses)
    requires k < |es| && Answers(hash, encode, ss[k], es[k], v)
    ensures v == encode(es[k].r.model, es[k].r.text)
    ensures forall i | 0 <= i < |ss[k].locals| :: |ss[k].locals[i]| <= LOCAL_MAX
  {
    hide Step;
    hide Answers;
    RunSound(hash, encode, uses, ss, es, k);
    assert Uses(es[k], uses);
    AnswerIsEncoding(hash, encode, uses, ss[k], es[k], v);
  }
}
