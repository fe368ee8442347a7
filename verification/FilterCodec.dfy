/** The binary form of a filter: two 32-bit headers and the slots, big-endian. */
module FilterCodec {
  import opened Sums
  import opened BigEndians
  import opened SlotCount
  import opened CuckooModel

  lemma Powers()
    ensures Pow256(2) == U16 && Pow256(4) == U32
  {
    assert Pow256(1) == 256;
    assert Pow256(2) == 256 * 256;
    assert Pow256(3) == 256 * U16;
  }

  /** The slots of one bucket, two bytes each. */
  function EncodeSlots(b: seq<nat>): (d: Bytes)
    ensures |d| == 2 * |b|
  {
    if b == [] then [] else EncodeSlots(b[..|b| - 1]) + BigEndian(b[|b| - 1], 2)
  }

  function EncodeBuckets(bs: Buckets): Bytes
  {
    if bs == [] then [] else EncodeBuckets(bs[..|bs| - 1]) + EncodeSlots(bs[|bs| - 1])
  }

  function Encode(n: nat, count: nat, bs: Buckets): Bytes {
    BigEndian(n, 4) + BigEndian(count, 4) + EncodeBuckets(bs)
  }

  function DecodeSlots(d: Bytes): (b: seq<nat>)
    ensures |b| == |d| / 2
    decreases |d|
  {
    if |d| < 2 then [] else DecodeSlots(d[..|d| - 2]) + [FromBigEndian(d[|d| - 2..])]
  }

  /** `n` buckets of eight bytes each. */
  function DecodeBuckets(d: Bytes, n: nat): (bs: Buckets)
    requires |d| == 8 * n
    ensures |bs| == n && forall i :: 0 <= i < n ==> |bs[i]| == BUCKET_SIZE
    decreases n
  {
    if n == 0 then [] else DecodeBuckets(d[..8 * (n - 1)], n - 1) + [DecodeSlots(d[8 * (n - 1)..])]
  }

  /** The length the source expects, in its unsigned 32-bit arithmetic. */
  function ExpectedLength(n: nat): nat {
    (8 + n * BUCKET_SIZE * 2) % U32
  }

  /** Length check, then the slots; running out of bytes is an error like a wrong length. */
  function DecodeBody(n: nat, count: nat, body: Bytes): Option<(nat, nat, Buckets)> {
    if 8 + |body| != ExpectedLength(n) || |body| < 8 * n then None
    else Some((n, count, DecodeBuckets(body[..8 * n], n)))
  }

  function Decode(d: Bytes): Option<(nat, nat, Buckets)> {
    if |d| < 8 then None else DecodeBody(FromBigEndian(d[..4]), FromBigEndian(d[4..8]), d[8..])
  }

  /** A table the source can hold: four 16-bit slots per bucket. */
  ghost predicate Storable(bs: Buckets) {
    forall i :: 0 <= i < |bs| ==> |bs[i]| == BUCKET_SIZE && Small(bs[i])
  }

  ghost predicate Small(b: seq<nat>) {
    forall s :: 0 <= s < |b| ==> b[s] < U16
  }

  lemma SlotsSnoc(b: seq<nat>, v: nat, d: Bytes, x: Bytes)
    requires |x| == 2
    ensures EncodeSlots(b + [v]) == EncodeSlots(b) + BigEndian(v, 2)
    ensures DecodeSlots(d + x) == DecodeSlots(d) + [FromBigEndian(x)]
  {
    assert (b + [v])[..|b|] == b;
    assert (d + x)[..|d|] == d && (d + x)[|d|..] == x;
  }

  lemma BucketsSnocEncode(bs: Buckets, b: seq<nat>)
    ensures EncodeBuckets(bs + [b]) == EncodeBuckets(bs) + EncodeSlots(b)
  {
    assert (bs + [b])[..|bs|] == bs;
  }

  lemma BucketsSnocDecode(d: Bytes, x: Bytes, n: nat)
    requires |d| == 8 * n && |x| == 8
    ensures DecodeBuckets(d + x, n + 1) == DecodeBuckets(d, n) + [DecodeSlots(x)]
  {
    assert (d + x)[..8 * n] == d && (d + x)[8 * n..] == x;
  }

  lemma {:induction false} SlotsRoundTrip(b: seq<nat>)
    requires Small(b)
    ensures DecodeSlots(EncodeSlots(b)) == b
    decreases |b|
  {
    if b != [] {
      var init, v := b[..|b| - 1], b[|b| - 1];
      assert b == init + [v];
      SlotsRoundTrip(init);
      SlotRoundTrip(v);
      SlotsSnoc(init, v, EncodeSlots(init), BigEndian(v, 2));
    }
  }

  lemma SlotRoundTrip(v: nat)
    requires v < U16
    ensures FromBigEndian(BigEndian(v, 2)) == v
  {
    Powers();
    NumberRoundTrip(v, 2);
  }

  lemma {:induction false} BucketsRoundTrip(bs: Buckets)
    requires Storable(bs)
    ensures |EncodeBuckets(bs)| == 8 * |bs| && DecodeBuckets(EncodeBuckets(bs), |bs|) == bs
    decreases |bs|
  {
    if bs != [] {
      var n := |bs| - 1;
      var init, b := bs[..n], bs[n];
      assert bs == init + [b];
      BucketsRoundTrip(init);
      SlotsRoundTrip(b);
      BucketsSnocEncode(init, b);
      BucketsSnocDecode(EncodeBuckets(init), EncodeSlots(b), n);
    }
  }

  lemma {:induction false} SlotsCanonical(d: Bytes)
    requires AreBytes(d) && |d| % 2 == 0
    ensures EncodeSlots(DecodeSlots(d)) == d
    decreases |d|
  {
    if |d| >= 2 {
      var init, x := d[..|d| - 2], d[|d| - 2..];
      assert d == init + x;
      SlotsCanonical(init);
      BytesRoundTrip(x);
      SlotsSnoc(DecodeSlots(init), FromBigEndian(x), init, x);
    }
  }

  lemma BucketsCanonicalSnoc(d: Bytes, x: Bytes, n: nat)
    requires |d| == 8 * n && |x| == 8
    requires EncodeBuckets(DecodeBuckets(d, n)) == d && EncodeSlots(DecodeSlots(x)) == x
    ensures EncodeBuckets(DecodeBuckets(d + x, n + 1)) == d + x
  {
    BucketsSnocDecode(d, x, n);
    BucketsSnocEncode(DecodeBuckets(d, n), DecodeSlots(x));
  }

  lemma SplitBytes(d: Bytes, k: nat)
    requires AreBytes(d) && k <= |d|
    ensures d == d[..k] + d[k..] && AreBytes(d[..k]) && AreBytes(d[k..])
  {
  }

  lemma {:induction false} BucketsCanonical(d: Bytes, n: nat)
    requires AreBytes(d) && |d| == 8 * n
    ensures EncodeBuckets(DecodeBuckets(d, n)) == d
    decreases n
  {
    if n > 0 {
      var k := 8 * (n - 1);
      SplitBytes(d, k);
      BucketsCanonical(d[..k], n - 1);
      SlotsCanonical(d[k..]);
      BucketsCanonicalSnoc(d[..k], d[k..], n - 1);
    }
  }

  lemma HeaderRoundTrip(v: nat)
    requires v < U32
    ensures FromBigEndian(BigEndian(v, 4)) == v
  {
    Powers();
    NumberRoundTrip(v, 4);
  }

  /** The 32-bit length is the true one up to 2^29 - 2 buckets and smaller beyond. */
  lemma LengthFits(n: nat)
    ensures ExpectedLength(n) <= 8 + 8 * n
    ensures ExpectedLength(n) == 8 + 8 * n <==> n <= 0x2000_0000 - 2
  {
  }

  /** Two headers and a body can be cut apart again. */
  lemma DecodePieces(a: Bytes, b: Bytes, c: Bytes)
    requires |a| == 4 && |b| == 4
    ensures Decode(a + b + c) == DecodeBody(FromBigEndian(a), FromBigEndian(b), c)
  {
    var d := a + b + c;
    assert d[..4] == a && d[4..8] == b && d[8..] == c;
  }

  lemma BodyRoundTrip(n: nat, count: nat, bs: Buckets)
    requires Storable(bs) && n == |bs|
    ensures DecodeBody(n, count, EncodeBuckets(bs)) == if n <= 0x2000_0000 - 2 then Some((n, count, bs)) else None
  {
    BucketsRoundTrip(bs);
    LengthFits(n);
    var body := EncodeBuckets(bs);
    assert body[..8 * n] == body;
  }

  /** A serialized filter is restored exactly when its length fits in 32 bits, that is up to 2^29 - 2 buckets;
      every larger filter is rejected by the wrapped length check. */
  lemma RoundTrip(n: nat, count: nat, bs: Buckets)
    requires Storable(bs) && n == |bs| < U32 && count < U32
    ensures Decode(Encode(n, count, bs)) == if n <= 0x2000_0000 - 2 then Some((n, count, bs)) else None
  {
    HeaderRoundTrip(n);
    HeaderRoundTrip(count);
    DecodePieces(BigEndian(n, 4), BigEndian(count, 4), EncodeBuckets(bs));
    BodyRoundTrip(n, count, bs);
  }

  lemma HeaderCanonical(x: Bytes)
    requires AreBytes(x) && |x| == 4
    ensures BigEndian(FromBigEndian(x), 4) == x && FromBigEndian(x) < U32
  {
    Powers();
    BytesRoundTrip(x);
  }

  lemma BodyCanonical(n: nat, count: nat, body: Bytes)
    requires AreBytes(body) && DecodeBody(n, count, body).Some?
    ensures |body| == 8 * n && EncodeBuckets(DecodeBody(n, count, body).value.2) == body
  {
    LengthFits(n);
    assert body[..8 * n] == body;
    BucketsCanonical(body, n);
  }

  lemma Pieces(d: Bytes)
    requires |d| >= 8
    ensures d == d[..4] + d[4..8] + d[8..]
  {
  }

  /** Whatever is accepted serializes back to the very same bytes. */
  lemma Canonical(d: Bytes)
    requires AreBytes(d) && Decode(d).Some?
    ensures var (n, count, bs) := Decode(d).value; n == |bs| && n < U32 && count < U32 && Encode(n, count, bs) == d
  {
    HeaderCanonical(d[..4]);
    HeaderCanonical(d[4..8]);
    BodyCanonical(FromBigEndian(d[..4]), FromBigEndian(d[4..8]), d[8..]);
    Pieces(d);
  }

  lemma {:induction false} DecodedSmall(d: Bytes)
    requires AreBytes(d)
    ensures Small(DecodeSlots(d))
    decreases |d|
  {
    if |d| >= 2 {
      SplitBytes(d, |d| - 2);
      DecodedSmall(d[..|d| - 2]);
      BytesRoundTrip(d[|d| - 2..]);
      Powers();
    }
  }

  /** What is read from bytes is a table of 16-bit slots. */
  lemma {:induction false} DecodedStorable(d: Bytes, n: nat)
    requires AreBytes(d) && |d| == 8 * n
    ensures Storable(DecodeBuckets(d, n))
    decreases n
  {
    if n > 0 {
      var k := 8 * (n - 1);
      SplitBytes(d, k);
      DecodedStorable(d[..k], n - 1);
      DecodedSmall(d[k..]);
    }
  }

  lemma AcceptedShape(d: Bytes)
    requires AreBytes(d) && Decode(d).Some?
    ensures var (n, count, bs) := Decode(d).value; Storable(bs) && n == |bs| < U32 && count < U32 && |d| == 8 + 8 * n
  {
    Canonical(d);
    BodyCanonical(FromBigEndian(d[..4]), FromBigEndian(d[4..8]), d[8..]);
    SplitBytes(d, 8);
    var body, n := d[8..], FromBigEndian(d[..4]);
    assert body[..8 * n] == body;
    DecodedStorable(body, n);
  }

  /** A filter of at least one bucket that was serialized and restored answers every lookup as before; that it is
      restored at all depends on its size alone. */
  lemma RestoredAnswers(hs: Hashing, count: nat, bs: Buckets, key: Key)
    requires Storable(bs) && 0 < |bs| < U32 && count < U32
    ensures var r := Decode(Encode(|bs|, count, bs));
            && (r.Some? <==> |bs| <= 0x2000_0000 - 2)
            && (r.Some? ==> var (n, _, bs') := r.value;
                  |bs'| == n > 0 && (Copies(hs, bs', ClassOf(hs, key, n)) > 0
                                     <==> Copies(hs, bs, ClassOf(hs, key, |bs|)) > 0))
  {
    RoundTrip(|bs|, count, bs);
  }

  lemma TwoBytes(v: nat)
    ensures BigEndian(v, 2) == [v / 256 % 256, v % 256]
  {
    assert BigEndian(v / 256, 1) == BigEndian(v / 256 / 256, 0) + [v / 256 % 256];
  }

  lemma FourBytes(v: nat)
    ensures BigEndian(v, 4) == [v / 0x100_0000 % 256, v / 0x1_0000 % 256, v / 256 % 256, v % 256]
  {
    TwoBytes(v / 0x1_0000);
    assert v / 256 / 256 == v / 0x1_0000 && v / 0x1_0000 / 256 == v / 0x100_0000;
    assert BigEndian(v, 4) == BigEndian(v / 256, 3) + [v % 256];
    assert BigEndian(v / 256, 3) == BigEndian(v / 0x1_0000, 2) + [v / 256 % 256];
  }

  lemma {:induction false} SlotBytes(b: seq<nat>, s: nat)
    requires s < |b|
    ensures EncodeSlots(b)[2 * s] == b[s] / 256 % 256 && EncodeSlots(b)[2 * s + 1] == b[s] % 256
    decreases |b|
  {
    TwoBytes(b[|b| - 1]);
    if s < |b| - 1 { SlotBytes(b[..|b| - 1], s); }
  }

  lemma SnocByte(x: Bytes, y: Bytes, k: nat, i: nat, t: nat)
    requires |x| == 8 * k && |y| == 8 && i <= k && t < 8
    ensures |x + y| == 8 * (k + 1) && (x + y)[8 * i + t] == if i < k then x[8 * i + t] else y[t]
  {
  }

  lemma {:induction false} BucketsLength(bs: Buckets)
    requires forall j :: 0 <= j < |bs| ==> |bs[j]| == 4
    ensures |EncodeBuckets(bs)| == 8 * |bs|
    decreases |bs|
  {
    if bs != [] { BucketsLength(bs[..|bs| - 1]); }
  }

  lemma {:induction false} BucketBytes(bs: Buckets, i: nat, t: nat)
    requires i < |bs| && t < 8 && forall j :: 0 <= j < |bs| ==> |bs[j]| == 4
    ensures |EncodeBuckets(bs)| == 8 * |bs| && EncodeBuckets(bs)[8 * i + t] == EncodeSlots(bs[i])[t]
    decreases |bs|
  {
    var k := |bs| - 1;
    var init, last := bs[..k], bs[k];
    BucketsSnocEncode(init, last);
    assert bs == init + [last];
    if i < k {
      BucketBytes(init, i, t);
    } else {
      BucketsLength(init);
    }
    SnocByte(EncodeBuckets(init), EncodeSlots(last), k, i, t);
  }

  /** Every byte of an image: the number of buckets, the counter, and the slots one bucket after another, each with its
      high byte first. */
  lemma ImageLayout(n: nat, count: nat, bs: Buckets, i: nat, s: nat)
    requires i < |bs| && s < 4 && forall j :: 0 <= j < |bs| ==> |bs[j]| == 4
    ensures var d, at := Encode(n, count, bs), 8 + 8 * i + 2 * s;
            && |d| == 8 + 8 * |bs|
            && d[0..4] == [n / 0x100_0000 % 256, n / 0x1_0000 % 256, n / 256 % 256, n % 256]
            && d[4..8] == [count / 0x100_0000 % 256, count / 0x1_0000 % 256, count / 256 % 256, count % 256]
            && d[at] == bs[i][s] / 256 % 256 && d[at + 1] == bs[i][s] % 256
  {
    FourBytes(n);
    FourBytes(count);
    BucketBytes(bs, i, 2 * s);
    BucketBytes(bs, i, 2 * s + 1);
    SlotBytes(bs[i], s);
    Concatenated(BigEndian(n, 4), BigEndian(count, 4), EncodeBuckets(bs), 8 * i + 2 * s);
  }

  lemma Concatenated(x: Bytes, y: Bytes, body: Bytes, at: nat)
    requires |x| == 4 && |y| == 4 && at + 1 < |body|
    ensures var d := x + y + body;
            d[0..4] == x && d[4..8] == y && d[8 + at] == body[at] && d[8 + at + 1] == body[at + 1]
  {
  }
}
