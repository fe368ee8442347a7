/** Unsigned numbers as big-endian bytes. */
module BigEndians {

  type Bytes = seq<nat>

  ghost predicate AreBytes(d: Bytes) {
    forall i :: 0 <= i < |d| ==> d[i] < 256
  }

  function Pow256(k: nat): nat {
    if k == 0 then 1 else 256 * Pow256(k - 1)
  }

  /** The `k` low bytes of `v`, most significant first. */
  function BigEndian(v: nat, k: nat): (d: Bytes)
    ensures |d| == k
    decreases k
  {
    if k == 0 then [] else BigEndian(v / 256, k - 1) + [v % 256]
  }

  function FromBigEndian(d: Bytes): nat {
    if d == [] then 0 else FromBigEndian(d[..|d| - 1]) * 256 + d[|d| - 1]
  }

  lemma {:induction false} NumberRoundTrip(v: nat, k: nat)
    requires v < Pow256(k)
    ensures FromBigEndian(BigEndian(v, k)) == v
    decreases k
  {
    if k > 0 {
      NumberRoundTrip(v / 256, k - 1);
      assert BigEndian(v, k)[..k - 1] == BigEndian(v / 256, k - 1);
    }
  }

  lemma {:induction false} BytesRoundTrip(d: Bytes)
    requires AreBytes(d)
    ensures BigEndian(FromBigEndian(d), |d|) == d && FromBigEndian(d) < Pow256(|d|)
    decreases |d|
  {
    if d != [] {
      BytesRoundTrip(d[..|d| - 1]);
      assert d == d[..|d| - 1] + [d[|d| - 1]];
    }
  }

  lemma {:induction false} EncodedBytes(v: nat, k: nat)
    ensures AreBytes(BigEndian(v, k))
    decreases k
  {
    if k > 0 { EncodedBytes(v / 256, k - 1); }
  }
}
