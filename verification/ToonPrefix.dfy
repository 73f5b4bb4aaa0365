/** The prefix substitution of the Go client template (templates/async_go_template.go). Go strings
    are byte strings. */
module ToonPrefix {
  import opened Options

  type Bytes = seq<bv8>

  const CODE: Bytes := [0x23, 0x50]     // "#P"
  const STATE: Bytes := [0x23, 0x53]    // "#S"
  const MIN_PREFIX := 50

  // ------------------------------------------------------------------ longestCommonPrefix

  predicate PrefixesAll(p: Bytes, strs: seq<Bytes>) {
    forall i | 0 <= i < |strs| :: p <= strs[i]
  }

  /** The longest string that every message starts with; with no messages, the empty one. */
  ghost predicate IsLongestCommon(p: Bytes, strs: seq<Bytes>) {
    if strs == [] then p == []
    else PrefixesAll(p, strs) && forall q | PrefixesAll(q, strs) :: q <= p
  }

  lemma LongestCommonUnique(p: Bytes, q: Bytes, strs: seq<Bytes>)
    requires IsLongestCommon(p, strs) && IsLongestCommon(q, strs)
    ensures p == q
  {
    if strs != [] {
      assert p <= q && q <= p;
    }
  }

  /** The source's test for an empty prefix inside the loop is never met: the empty prefix fits. */
  method LongestCommonPrefix(strs: seq<Bytes>) returns (prefix: Bytes)
    ensures IsLongestCommon(prefix, strs)
  {
    if |strs| == 0 {
      return [];
    }
    prefix := strs[0];
    for n := 1 to |strs|
      invariant PrefixesAll(prefix, strs[..n])
      invariant forall q | PrefixesAll(q, strs) :: q <= prefix
    {
      var s := strs[n];
      while |s| < |prefix| || s[..|prefix|] != prefix
        invariant PrefixesAll(prefix, strs[..n])
        invariant forall q | PrefixesAll(q, strs) :: q <= prefix
        decreases |prefix|
      {
        assert s[..0] == [];
        forall q | PrefixesAll(q, strs) ensures q <= prefix[..|prefix| - 1] {
          assert q <= s && q <= prefix;
          assert q != prefix;
        }
        prefix := prefix[..|prefix| - 1];
      }
      assert strs[..n + 1] == strs[..n] + [s];
    }
    assert strs[..|strs|] == strs;
  }

  // ------------------------------------------------------------------ compressing and back

  /** decompressMessage. */
  function Decompress(msg: Bytes, legend: map<Bytes, Bytes>): Bytes {
    if CODE in legend && |msg| > 2 && msg[..2] == CODE then legend[CODE] + msg[2..] else msg
  }

  /** Only a message longer than the code that starts with it is expanded, and only with a prefix known. */
  lemma DecompressLeaves(msg: Bytes, legend: map<Bytes, Bytes>)
    ensures Decompress(msg, legend) != msg ==> CODE in legend && CODE < msg
    ensures |msg| <= 2 ==> Decompress(msg, legend) == msg
  {
  }

  /** The one message that does not come back: the prefix itself, when it looks compressed. */
  predicate Clashes(msg: Bytes, prefix: Bytes) {
    |prefix| > MIN_PREFIX && CODE <= prefix && msg == prefix
  }

  /** What a message becomes: as long as a long common prefix is, it is exchanged for two bytes. */
  predicate IsCompressed(c: Bytes, msg: Bytes, prefix: Bytes) {
    c == if |prefix| > MIN_PREFIX && prefix < msg then CODE + msg[|prefix|..] else msg
  }

  lemma DecompressUndoes(c: Bytes, msg: Bytes, prefix: Bytes, legend: map<Bytes, Bytes>)
    requires prefix <= msg && IsCompressed(c, msg, prefix)
    requires (CODE in legend <==> |prefix| > MIN_PREFIX) && (CODE in legend ==> legend[CODE] == prefix)
    ensures Decompress(c, legend) == msg <==> !Clashes(msg, prefix)
    ensures |c| == if |prefix| > 50 && msg != prefix then |msg| - |prefix| + 2 else |msg|
  {
    if |prefix| > MIN_PREFIX {
      if prefix < msg {
        assert c[..2] == CODE && c[2..] == msg[|prefix|..];
        assert msg == prefix + msg[|prefix|..];
      } else {
        assert msg == prefix;
        assert CODE <= prefix <==> prefix[..2] == CODE;
      }
    }
  }

  /** CompressWithTOON: with the legend it returns, every message comes back, except one that is a
      long common prefix itself and starts with the code. */
  method CompressWithToon(messages: seq<Bytes>, state: Option<Bytes>)
    returns (compressed: seq<Bytes>, legend: map<Bytes, Bytes>)
    ensures |compressed| == |messages|
    ensures forall p | IsLongestCommon(p, messages) ::
              && (CODE in legend <==> |p| > 50) && (CODE in legend ==> legend[CODE] == p)
              && (forall i | 0 <= i < |messages| :: IsCompressed(compressed[i], messages[i], p))
              && forall i | 0 <= i < |messages| ::
                   Decompress(compressed[i], legend) == messages[i] <==> !Clashes(messages[i], p)
    ensures messages != [] ==> (STATE in legend <==> state.Some?) && (STATE in legend ==> legend[STATE] == state.value)
    ensures legend.Keys <= {CODE, STATE} && (messages == [] ==> legend == map[])
  {
    legend := map[];
    if |messages| == 0 {
      return messages, legend;
    }
    var prefix := LongestCommonPrefix(messages);
    assert CODE[1] != STATE[1];
    if |prefix| > MIN_PREFIX {
      legend := legend[CODE := prefix];
    }
    if state.Some? {
      legend := legend[STATE := state.value];
    }
    compressed := seq(|messages|, _ => []);
    for i := 0 to |messages|
      invariant |compressed| == |messages|
      invariant forall k | 0 <= k < i :: IsCompressed(compressed[k], messages[k], prefix)
    {
      var msg := messages[i];
      compressed := compressed[i := msg];
      if |prefix| > MIN_PREFIX {
        if |msg| > |prefix| && msg[..|prefix|] == prefix {
          compressed := compressed[i := CODE + msg[|prefix|..]];
        }
      }
    }
    forall i | 0 <= i < |messages|
      ensures Decompress(compressed[i], legend) == messages[i] <==> !Clashes(messages[i], prefix)
    {
      DecompressUndoes(compressed[i], messages[i], prefix, legend);
    }
    forall p | IsLongestCommon(p, messages) ensures p == prefix {
      LongestCommonUnique(p, prefix, messages);
    }
  }

  /** The one failure does happen: in a batch of a long message that starts with the code (say the
      code and fifty letters) and a continuation of it, the first comes back as something else. */
  lemma PrefixComesBackWrong(prefix: Bytes, more: Bytes, c: Bytes, legend: map<Bytes, Bytes>)
    requires |prefix| > MIN_PREFIX && CODE <= prefix
    requires IsCompressed(c, prefix, prefix) && CODE in legend && legend[CODE] == prefix
    ensures IsLongestCommon(prefix, [prefix, prefix + more])
    ensures Clashes(prefix, prefix) && Decompress(c, legend) == prefix + prefix[2..] != prefix
    ensures var example: Bytes := [0x23, 0x50] + seq(50, _ => 0x61); |example| > MIN_PREFIX && CODE <= example
  {
    var batch := [prefix, prefix + more];
    assert prefix <= batch[0] && prefix <= batch[1];
    forall q | PrefixesAll(q, batch) ensures q <= prefix {
      assert q <= batch[0];
    }
    assert prefix[..2] == CODE;
    assert |prefix + prefix[2..]| > |prefix|;
  }
}
