/** Delta coding of id columns: a way's node references, a relation's member
    ids and the dense nodes' id/lat/lon columns store successive differences,
    and the library rebuilds each absolute value as a running sum. */
module Delta {

  /** The sum of the first `n` deltas of `d`. */
  function Sum(d: seq<int>, n: nat): int
    requires n <= |d|
  {
    if n == 0 then 0 else Sum(d, n - 1) + d[n - 1]
  }

  /** The absolute values a delta column stands for: value k is the sum of
      deltas 0..k inclusive. */
  function Decode(d: seq<int>): seq<int>
  {
    seq(|d|, k requires 0 <= k < |d| => Sum(d, k + 1))
  }

  /** Reference encoder (the writer side, which the library does not have):
      the first value as it is, then each value minus its predecessor. */
  function Encode(v: seq<int>): seq<int>
  {
    seq(|v|, k requires 0 <= k < |v| => if k == 0 then v[0] else v[k] - v[k - 1])
  }

  /** Every running sum over an encoded column gives back the value it
      encodes. */
  lemma {:induction false} SumOfEncoded(v: seq<int>, k: nat)
    requires k < |v|
    ensures Sum(Encode(v), k + 1) == v[k]
  {
    if k > 0 {
      SumOfEncoded(v, k - 1);
    }
  }

  /** Decoding inverts encoding. */
  lemma DecodeEncode(v: seq<int>)
    ensures Decode(Encode(v)) == v
  {
    forall k | 0 <= k < |v|
      ensures Decode(Encode(v))[k] == v[k]
    {
      SumOfEncoded(v, k);
    }
  }

  /** Encoding inverts decoding: every delta column is the encoding of the
      values it decodes to. */
  lemma EncodeDecode(d: seq<int>)
    ensures Encode(Decode(d)) == d
  {
    forall k | 0 <= k < |d|
      ensures Encode(Decode(d))[k] == d[k]
    {
      var v := Decode(d);
      if k > 0 {
        assert v[k] == Sum(d, k) + d[k] && v[k - 1] == Sum(d, k);
        assert Encode(v)[k] == v[k] - v[k - 1];
      } else {
        assert Encode(v)[0] == v[0] == Sum(d, 1);
      }
    }
  }
}
