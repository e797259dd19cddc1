/** The flattened tag column of a dense node group: for each node in turn its
    key/value string-table indices, key first, then a 0 that closes the
    node's list. A node without tags is a lone 0. */
module DenseTags {

  /** The x-th key of the list that starts at `p` exists and is not the
      closing 0. */
  predicate NonzeroKeyAt(kv: seq<nat>, p: nat, x: nat)
  {
    p + 2 * x < |kv| && kv[p + 2 * x] != 0
  }

  /** The number of tags of the list that starts at `p`: the nonzero keys at
      p, p+2, p+4, ... up to the first 0 or the end of the column. */
  function TagCount(kv: seq<nat>, p: nat): nat
    decreases |kv| - p
  {
    if p < |kv| && kv[p] != 0 then 1 + TagCount(kv, p + 2) else 0
  }

  /** TagCount(kv, p) is the length of the run of nonzero keys at p, p+2,
      ...: every key before it is nonzero and the one it stops at is not. */
  lemma {:induction false} TagCountSpec(kv: seq<nat>, p: nat)
    ensures forall x :: 0 <= x < TagCount(kv, p) ==> NonzeroKeyAt(kv, p, x)
    ensures !NonzeroKeyAt(kv, p, TagCount(kv, p))
    decreases |kv| - p
  {
    if p < |kv| && kv[p] != 0 {
      TagCountSpec(kv, p + 2);
      KeysShift(kv, p, p + 2, TagCount(kv, p + 2));
    }
  }

  /** The keys of the list from p + 2 on, with the key at p in front. */
  lemma KeysShift(kv: seq<nat>, p: nat, q: nat, m: nat)
    requires p < |kv| && kv[p] != 0 && q == p + 2
    requires forall x :: 0 <= x < m ==> NonzeroKeyAt(kv, q, x)
    requires !NonzeroKeyAt(kv, q, m)
    ensures forall x :: 0 <= x < m + 1 ==> NonzeroKeyAt(kv, p, x)
    ensures !NonzeroKeyAt(kv, p, m + 1)
  {
    forall x | 0 <= x < m + 1
      ensures NonzeroKeyAt(kv, p, x)
    {
      if x > 0 {
        assert NonzeroKeyAt(kv, q, x - 1);
      }
    }
  }

  /** The positions at which the lists of successive dense nodes start, from
      `p` on: each next list starts just past the 0 that closes the previous
      one, and a position at or past the end of the column starts no list. */
  function Starts(kv: seq<nat>, p: nat): seq<nat>
    decreases |kv| - p
  {
    if p >= |kv| then [] else [p] + Starts(kv, p + 2 * TagCount(kv, p) + 1)
  }

  /** Every list start from p on lies inside the column, at or after p. */
  lemma {:induction false} StartsBounds(kv: seq<nat>, p: nat)
    ensures forall k :: 0 <= k < |Starts(kv, p)| ==> p <= Starts(kv, p)[k] < |kv|
    decreases |kv| - p
  {
    if p < |kv| {
      var q := p + 2 * TagCount(kv, p) + 1;
      StartsBounds(kv, q);
      assert Starts(kv, p) == [p] + Starts(kv, q);
    }
  }

  /** Consecutive lists are separated by exactly one closing 0: the next
      list starts one past the end of the current list's pairs, and that
      position holds a 0. */
  lemma {:induction false} NextStart(kv: seq<nat>, p: nat, k: nat)
    requires k + 1 < |Starts(kv, p)|
    ensures var s := Starts(kv, p)[k]; var n := TagCount(kv, s);
      Starts(kv, p)[k + 1] == s + 2 * n + 1 && s + 2 * n < |kv| && kv[s + 2 * n] == 0
    decreases k
  {
    var q := p + 2 * TagCount(kv, p) + 1;
    assert Starts(kv, p) == [p] + Starts(kv, q);
    if k > 0 {
      NextStart(kv, q, k - 1);
    } else {
      TagCountSpec(kv, p);
    }
  }

  /** The starts from the k-th on are those of a walk begun at the k-th. */
  lemma {:induction false} StartsSuffix(kv: seq<nat>, p: nat, k: nat)
    requires k < |Starts(kv, p)|
    ensures Starts(kv, Starts(kv, p)[k]) == Starts(kv, p)[k..]
    decreases k
  {
    var q := p + 2 * TagCount(kv, p) + 1;
    assert Starts(kv, p) == [p] + Starts(kv, q);
    if k > 0 {
      StartsSuffix(kv, q, k - 1);
      assert Starts(kv, p)[k..] == Starts(kv, q)[k - 1..];
    }
  }

  /** From the k-th start, a further list starts exactly when the position
      past the k-th list's closing 0 is inside the column, and it starts
      there. */
  lemma StepStart(kv: seq<nat>, p: nat, k: nat)
    requires k < |Starts(kv, p)|
    ensures p <= Starts(kv, p)[k] < |kv|
    ensures var s := Starts(kv, p)[k];
      k + 1 < |Starts(kv, p)| <==> s + 2 * TagCount(kv, s) + 1 < |kv|
    ensures var s := Starts(kv, p)[k];
      k + 1 < |Starts(kv, p)| ==> Starts(kv, p)[k + 1] == s + 2 * TagCount(kv, s) + 1
  {
    var s := Starts(kv, p)[k];
    StartsSuffix(kv, p, k);
    StartsBounds(kv, p);
    assert Starts(kv, s) == [s] + Starts(kv, s + 2 * TagCount(kv, s) + 1);
    assert Starts(kv, p)[k..][1..] == Starts(kv, p)[k + 1..];
  }

  /** The key/value pairs of the list that starts at `p`, when every key has
      its value in the column. */
  function Pairs(kv: seq<nat>, p: nat): seq<KeyVal>
    requires p + 2 * TagCount(kv, p) <= |kv|
  {
    seq(TagCount(kv, p), x requires 0 <= x < TagCount(kv, p) => KeyVal(kv[p + 2 * x], kv[p + 2 * x + 1]))
  }

  /** One tag as a pair of string-table indices. */
  datatype KeyVal = KeyVal(key: nat, val: nat)

  /** Reference encoder for one node's tags (the writer side, which the
      library does not have). */
  function Flatten(tags: seq<KeyVal>): seq<nat>
  {
    if tags == [] then [] else [tags[0].key, tags[0].val] + Flatten(tags[1..])
  }

  /** Reference encoder for a dense group's tag column: one list per node,
      each closed by a 0. */
  function Encode(lists: seq<seq<KeyVal>>): seq<nat>
  {
    if lists == [] then [] else Flatten(lists[0]) + [0] + Encode(lists[1..])
  }

  /** An encodable tag list: a key of 0 would read as the closing 0. */
  predicate KeysNonzero(tags: seq<KeyVal>)
  {
    forall x :: 0 <= x < |tags| ==> tags[x].key != 0
  }

  lemma {:induction false} FlattenAt(tags: seq<KeyVal>, x: nat)
    requires x < |tags|
    ensures |Flatten(tags)| == 2 * |tags|
    ensures Flatten(tags)[2 * x] == tags[x].key && Flatten(tags)[2 * x + 1] == tags[x].val
  {
    if x > 0 {
      FlattenAt(tags[1..], x - 1);
    } else if |tags| > 1 {
      FlattenAt(tags[1..], 0);
    }
  }

  lemma FlattenLength(tags: seq<KeyVal>)
    ensures |Flatten(tags)| == 2 * |tags|
  {
    if tags != [] {
      FlattenAt(tags, 0);
    }
  }

  /** Reading one encoded list back, wherever it sits in the column and
      whatever (0-led) rest follows it, gives the list's tags. */
  lemma ListRoundTrip(pre: seq<nat>, tags: seq<KeyVal>, post: seq<nat>)
    requires KeysNonzero(tags)
    requires post == [] || post[0] == 0
    ensures var kv := pre + Flatten(tags) + post;
      TagCount(kv, |pre|) == |tags| && |pre| + 2 * |tags| <= |kv| && Pairs(kv, |pre|) == tags
  {
    var kv := pre + Flatten(tags) + post;
    FlattenLength(tags);
    TagCountSpec(kv, |pre|);
    forall x | 0 <= x < |tags|
      ensures NonzeroKeyAt(kv, |pre|, x)
      ensures kv[|pre| + 2 * x] == tags[x].key && kv[|pre| + 2 * x + 1] == tags[x].val
    {
      FlattenAt(tags, x);
    }
    assert !NonzeroKeyAt(kv, |pre|, |tags|);
  }

  /** The encoded column, read from position |pre| on, starts exactly one
      list per node and each list reads back as that node's tags. */
  lemma {:induction false} RoundTripFrom(pre: seq<nat>, lists: seq<seq<KeyVal>>)
    requires forall k :: 0 <= k < |lists| ==> KeysNonzero(lists[k])
    ensures |Starts(pre + Encode(lists), |pre|)| == |lists|
    ensures forall k :: 0 <= k < |lists| ==> ListAt(pre + Encode(lists), Starts(pre + Encode(lists), |pre|)[k], lists[k])
    decreases |lists|
  {
    var kv := pre + Encode(lists);
    var s := Starts(kv, |pre|);
    if lists != [] {
      var rest := Encode(lists[1..]);
      assert kv == pre + Flatten(lists[0]) + ([0] + rest);
      ListRoundTrip(pre, lists[0], [0] + rest);
      var pre' := pre + Flatten(lists[0]) + [0];
      assert kv == pre' + rest;
      FlattenLength(lists[0]);
      RoundTripFrom(pre', lists[1..]);
      var s' := Starts(kv, |pre'|);
      assert s == [|pre|] + s';
      forall k | 0 <= k < |lists|
        ensures ListAt(kv, s[k], lists[k])
      {
        if k > 0 {
          assert s[k] == s'[k - 1];
          assert lists[k] == lists[1..][k - 1];
        }
      }
    }
  }

  /** The list starting at `p` has all its values and reads back as `tags`. */
  predicate ListAt(kv: seq<nat>, p: nat, tags: seq<KeyVal>)
  {
    p + 2 * TagCount(kv, p) <= |kv| && Pairs(kv, p) == tags
  }

  /** Decoding the encoded column gives every node's tags back, and the
      column holds exactly one list per node. */
  lemma RoundTrip(lists: seq<seq<KeyVal>>)
    requires forall k :: 0 <= k < |lists| ==> KeysNonzero(lists[k])
    ensures |Starts(Encode(lists), 0)| == |lists|
    ensures forall k :: 0 <= k < |lists| ==> ListAt(Encode(lists), Starts(Encode(lists), 0)[k], lists[k])
  {
    RoundTripFrom([], lists);
    assert [] + Encode(lists) == Encode(lists);
  }
}
