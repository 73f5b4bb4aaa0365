/** The clients of the RouteLLM sidecar, one per embedding key, kept for the most recently used
    keys (src/routellm-sidecar/app.py). */
module ClientLru {
  import opened Seqs

  const CLIENTS_MAX := 64

  // ------------------------------------------------------------------ what is kept, from the history of calls

  /** The distinct keys in order of their last use. */
  function LastUses<T(==)>(h: seq<T>): seq<T> {
    if h == [] then []
    else if h[0] in h[1..] then LastUses(h[1..])
    else [h[0]] + LastUses(h[1..])
  }

  function Newest<T>(s: seq<T>): seq<T> {
    if |s| <= CLIENTS_MAX then s else s[|s| - CLIENTS_MAX..]
  }

  function Recent<T(==)>(h: seq<T>): seq<T> {
    Newest(LastUses(h))
  }

  function Without<T(==)>(s: seq<T>, x: T): seq<T> {
    if s == [] then []
    else if s[0] == x then Without(s[1..], x)
    else [s[0]] + Without(s[1..], x)
  }

  lemma {:induction false} LastUsesMember<T>(h: seq<T>, x: T)
    ensures x in LastUses(h) <==> x in h
  {
    if h == [] {
    } else {
      LastUsesMember(h[1..], x);
    }
  }

  lemma {:induction false} LastUsesDistinct<T>(h: seq<T>)
    ensures NoDuplicates(LastUses(h))
  {
    if h == [] {
    } else {
      LastUsesDistinct(h[1..]);
      LastUsesMember(h[1..], h[0]);
    }
  }

  lemma {:induction false} LastUsesSize<T>(h: seq<T>)
    ensures |LastUses(h)| == |set x | x in h|
  {
    if h != [] {
      LastUsesSize(h[1..]);
      var rest := set x | x in h[1..];
      assert (set x | x in h) == rest + {h[0]};
    } else {
      assert (set x | x in h) == {};
    }
  }

  /** One more call puts its key last. */
  lemma {:induction false} LastUsesCall<T>(h: seq<T>, x: T)
    ensures LastUses(h + [x]) == Without(LastUses(h), x) + [x]
  {
    if h == [] {
      assert h + [x] == [x] && [x][1..] == [];
      assert LastUses([x]) == [x] + LastUses([x][1..]);
    } else {
      var all, a, rest := h + [x], h[0], LastUses(h[1..]);
      LastUsesCall(h[1..], x);
      assert all[1..] == h[1..] + [x];
      assert a in all[1..] <==> a in h[1..] || a == x;
      WithoutFirst(a, rest, x);
      if a in h[1..] {
      } else if a != x {
        assert [a] + (Without(rest, x) + [x]) == ([a] + Without(rest, x)) + [x];
      }
    }
  }

  lemma WithoutFirst<T>(a: T, s: seq<T>, x: T)
    ensures Without([a] + s, x) == if a == x then Without(s, x) else [a] + Without(s, x)
  {
    assert ([a] + s)[1..] == s;
  }

  lemma {:induction false} WithoutSplit<T>(a: seq<T>, b: seq<T>, x: T)
    ensures Without(a + b, x) == Without(a, x) + Without(b, x)
  {
    if a == [] {
      assert a + b == b && Without(a, x) == [];
    } else {
      hide *;
      WithoutSplit(a[1..], b, x);
      Regroup(a[..1], a[1..], b);
      assert a[..1] + a[1..] == a && a[..1] == [a[0]];
      WithoutFirst(a[0], a[1..] + b, x);
      WithoutFirst(a[0], a[1..], x);
      Regroup([a[0]], Without(a[1..], x), Without(b, x));
    }
  }

  lemma {:induction false} WithoutAbsent<T>(s: seq<T>, x: T)
    requires x !in s
    ensures Without(s, x) == s
  {
    if s == [] {
    } else {
      WithoutAbsent(s[1..], x);
    }
  }

  lemma {:induction false} WithoutOne<T>(s: seq<T>, x: T)
    requires NoDuplicates(s)
    ensures |Without(s, x)| == |s| - if x in s then 1 else 0
  {
    if s == [] {
    } else {
      WithoutOne(s[1..], x);
    }
  }

  lemma DroppedApart<T>(s: seq<T>, n: nat, x: T)
    requires n <= |s| && NoDuplicates(s) && x in s[n..]
    ensures x !in s[..n] && NoDuplicates(s[n..])
  {
    var i :| 0 <= i < |s[n..]| && s[n..][i] == x;
    assert s[n + i] == x;
  }

  lemma NewestDrop<T>(front: seq<T>, kept: seq<T>, x: T)
    requires CLIENTS_MAX <= |kept| + 1
    ensures Newest(front + kept + [x]) == Newest(kept + [x]) || |kept| + 1 < CLIENTS_MAX
  {
    var all := front + kept + [x];
    if |kept| + 1 == CLIENTS_MAX {
      assert all[|front|..] == kept + [x];
    } else if |kept| + 1 > CLIENTS_MAX {
      var n := |kept| + 1 - CLIENTS_MAX;
      assert all[|front| + n..] == (kept + [x])[n..];
    }
  }

  /** Dropping the key from what is kept, adding it last and dropping the oldest if there are too
      many gives what is to be kept after the call. */
  lemma RecentCall<T>(h: seq<T>, x: T)
    ensures Recent(h + [x]) == Newest(Without(Recent(h), x) + [x])
    ensures |Without(Recent(h), x)| <= CLIENTS_MAX
  {
    var all := LastUses(h);
    LastUsesCall(h, x);
    LastUsesDistinct(h);
    hide LastUses;
    WithoutSizes(all, x);
    if |all| > CLIENTS_MAX {
      var n := |all| - CLIENTS_MAX;
      assert all == all[..n] + all[n..];
      WithoutSplit(all[..n], all[n..], x);
      WithoutOne(all[n..], x);
      if x in all[n..] {
        DroppedApart(all, n, x);
        WithoutAbsent(all[..n], x);
      }
      hide Without;
      NewestDrop(Without(all[..n], x), Without(all[n..], x), x);
    }
  }

  lemma WithoutSizes<T>(s: seq<T>, x: T)
    requires NoDuplicates(s)
    ensures |Without(s, x)| <= |s|
  {
    WithoutOne(s, x);
  }

  lemma {:induction false} LastUsesAfter<T>(a: seq<T>, x: T, b: seq<T>)
    requires x !in b
    ensures exists older :: LastUses(a + [x] + b) == older + [x] + LastUses(b)
  {
    if a == [] {
      assert a + [x] + b == [x] + b;
      assert ([x] + b)[1..] == b;
      assert LastUses(a + [x] + b) == [] + [x] + LastUses(b);
    } else {
      LastUsesAfter(a[1..], x, b);
      var older :| LastUses(a[1..] + [x] + b) == older + [x] + LastUses(b);
      var h := a + [x] + b;
      assert h[1..] == a[1..] + [x] + b;
      var first := if h[0] in h[1..] then [] else [h[0]];
      assert LastUses(h) == (first + older) + [x] + LastUses(b);
    }
  }

  /** A key is kept exactly when fewer than 64 others were used after its last use. */
  lemma KeptIff<T>(a: seq<T>, x: T, b: seq<T>)
    requires x !in b
    ensures x in Recent(a + [x] + b) <==> |set y | y in b| < 64
  {
    var all := LastUses(a + [x] + b);
    LastUsesAfter(a, x, b);
    var older :| all == older + [x] + LastUses(b);
    LastUsesSize(b);
    LastUsesDistinct(a + [x] + b);
    assert all[|older|] == x;
    var n := |all| - CLIENTS_MAX;
    if n > 0 {
      if n <= |older| {
        assert all[n..][|older| - n] == x;
      } else {
        assert forall i | n <= i < |all| :: all[i] != all[|older|];
      }
    }
  }

  // ------------------------------------------------------------------ the ordered map

  /** A client for a key; number tells clients apart. */
  datatype Client = Client(key: string, number: nat)
  datatype Entry = Entry(digest: string, client: Client)

  function Digests(entries: seq<Entry>): (r: seq<string>)
    ensures |r| == |entries| && forall i | 0 <= i < |r| :: r[i] == entries[i].digest
  {
    if entries == [] then [] else Digests(entries[..|entries| - 1]) + [entries[|entries| - 1].digest]
  }

  function WithoutDigest(entries: seq<Entry>, d: string): (r: seq<Entry>)
    ensures forall e | e in r :: e in entries
  {
    if entries == [] then []
    else if entries[0].digest == d then WithoutDigest(entries[1..], d)
    else [entries[0]] + WithoutDigest(entries[1..], d)
  }

  lemma {:induction false} DigestsWithout(entries: seq<Entry>, d: string)
    ensures Digests(WithoutDigest(entries, d)) == Without(Digests(entries), d)
  {
    if entries == [] {
    } else {
      DigestsWithout(entries[1..], d);
      assert Digests(entries)[1..] == Digests(entries[1..]);
      var rest := WithoutDigest(entries[1..], d);
      assert Digests([entries[0]] + rest) == [entries[0].digest] + Digests(rest);
    }
  }

  function HashAll(digest: string -> string, keys: seq<string>): (r: seq<string>) {
    if keys == [] then [] else HashAll(digest, keys[..|keys| - 1]) + [digest(keys[|keys| - 1])]
  }

  /** Each entry is filed under the digest of a key in the history, for which its client was built. */
  ghost predicate Built(digest: string -> string, entries: seq<Entry>, history: seq<string>, made: nat) {
    forall i | 0 <= i < |entries| :: BuiltOne(digest, entries[i], history, made)
  }

  ghost predicate BuiltOne(digest: string -> string, e: Entry, history: seq<string>, made: nat) {
    digest(e.client.key) == e.digest && e.client.key in history && e.client.number < made
  }

  /** The map after a call that files e. */
  function Called(entries: seq<Entry>, e: Entry): seq<Entry> {
    Newest(WithoutDigest(entries, e.digest) + [e])
  }

  lemma {:induction false} NewestDigests(entries: seq<Entry>)
    ensures Digests(Newest(entries)) == Newest(Digests(entries))
  {
  }

  lemma CalledIsRecent(digest: string -> string, entries: seq<Entry>, history: seq<string>, key: string, e: Entry)
    requires Digests(entries) == Recent(HashAll(digest, history)) && e.digest == digest(key)
    ensures Digests(Called(entries, e)) == Recent(HashAll(digest, history + [key]))
    ensures |Called(entries, e)| <= CLIENTS_MAX
  {
    var before, kept := HashAll(digest, history), WithoutDigest(entries, e.digest);
    DigestsWithout(entries, e.digest);
    RecentCall(before, e.digest);
    assert (history + [key])[..|history|] == history;
    assert HashAll(digest, history + [key]) == before + [e.digest];
    assert Digests(kept + [e]) == Digests(kept) + [e.digest];
    NewestDigests(kept + [e]);
  }

  lemma CalledIsBuilt(digest: string -> string, entries: seq<Entry>, history: seq<string>, made: nat, key: string,
                      e: Entry, more: nat)
    requires Built(digest, entries, history, made) && made <= more && BuiltOne(digest, e, history + [key], more)
    ensures Built(digest, Called(entries, e), history + [key], more)
  {
    var all := WithoutDigest(entries, e.digest) + [e];
    forall x | x in all ensures BuiltOne(digest, x, history + [key], more) {
      if x != e {
        assert x in entries;
      }
    }
    forall i | 0 <= i < |Newest(all)| ensures BuiltOne(digest, Newest(all)[i], history + [key], more) {
      assert Newest(all)[i] in all;
    }
  }

  lemma CalledFiles(entries: seq<Entry>, e: Entry)
    ensures var after := Called(entries, e);
            after != [] && after[|after| - 1] == e && forall x | x in after && x != e :: x in entries
  {
  }

  class ClientCache {
    const digest: string -> string
    var entries: seq<Entry>       // the ordered map, oldest use first
    var made: nat                 // clients built so far
    ghost var history: seq<string>

    ghost predicate Valid()
      reads this
    {
      Digests(entries) == Recent(HashAll(digest, history)) && Built(digest, entries, history, made)
    }

    constructor (digest: string -> string)
      ensures Valid() && history == [] && entries == [] && made == 0 && this.digest == digest
    {
      this.digest := digest;
      entries, made, history := [], 0, [];
    }

    method Pop(d: string) returns (found: bool, client: Client)
      modifies this`entries
      ensures entries == WithoutDigest(old(entries), d)
      ensures found <==> d in Digests(old(entries))
      ensures found ==> Entry(d, client) in old(entries)
    {
      found, client := false, Client("", 0);
      for i := 0 to |entries|
        invariant entries == old(entries)
        invariant found <==> d in Digests(entries)[..i]
        invariant found ==> Entry(d, client) in entries
      {
        if entries[i].digest == d {
          found, client := true, entries[i].client;
        }
        assert Digests(entries)[..i + 1] == Digests(entries)[..i] + [entries[i].digest];
      }
      assert Digests(entries)[..|entries|] == Digests(entries);
      entries := WithoutDigest(entries, d);
    }

    method EvictOldest()
      modifies this`entries
      ensures entries == Newest(old(entries))
    {
      ghost var n := 0;
      while |entries| > CLIENTS_MAX
        invariant 0 <= n <= |old(entries)| && entries == old(entries)[n..]
        invariant n == 0 || |entries| >= CLIENTS_MAX
      {
        entries := entries[1..];
        n := n + 1;
      }
    }

    /** _client_for: the map holds the most recent distinct keys in the order of their last use; a
        client is built only when the key is not among them; and, unless two keys share a digest,
        it was built for the key asked for. The client is filed last, and the others stay filed as
        they were. */
    method ClientFor(key: string) returns (client: Client)
      requires Valid()
      modifies this
      ensures Valid() && history == old(history) + [key]
      ensures |entries| <= 64 && entries != [] && entries[|entries| - 1] == Entry(digest(key), client)
      ensures forall e | e in entries && e.digest != digest(key) :: e in old(entries)
      ensures if digest(key) in Recent(HashAll(digest, old(history)))
              then Entry(digest(key), client) in old(entries) && made == old(made)
              else client == Client(key, old(made)) && made == old(made) + 1
      ensures (forall k | k in old(history) && digest(k) == digest(key) :: k == key) ==> client.key == key
    {
      hide Digests;
      hide Recent;
      hide HashAll;
      hide Newest;
      hide WithoutDigest;
      var d := digest(key);
      var found;
      found, client := Pop(d);
      if found {
        ClientIsBuilt(old(entries), Entry(d, client));
      } else {
        client := Client(key, made);
        made := made + 1;
      }
      entries := entries + [Entry(d, client)];
      EvictOldest();
      CalledFiles(old(entries), Entry(d, client));
      CalledIsRecent(digest, old(entries), history, key, Entry(d, client));
      CalledIsBuilt(digest, old(entries), history, old(made), key, Entry(d, client), made);
      history := history + [key];
    }

    lemma ClientIsBuilt(before: seq<Entry>, e: Entry)
      requires Built(digest, before, history, made) && e in before
      ensures BuiltOne(digest, e, history, made)
    {
    }
  }
}
