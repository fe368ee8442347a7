/** The cuckoo filter of the source with its randomised displacement loop. */
module CompactFilters {
  import opened Sums
  import opened BigEndians
  import opened SlotCount
  import opened CuckooModel
  import opened FilterCodec

  ghost predicate PowerOfTwo(n: nat) {
    n > 0 && (n == 1 || (n % 2 == 0 && PowerOfTwo(n / 2)))
  }

  function Two(k: nat): nat {
    if k == 0 then 1 else 2 * Two(k - 1)
  }

  lemma {:induction false} TwoPower(k: nat)
    ensures PowerOfTwo(Two(k))
  {
    if k > 0 { TwoPower(k - 1); }
  }

  lemma TwoValues()
    ensures Two(30) == 0x4000_0000 && Two(31) == 0x8000_0000
  {
    assert Two(6) == 64;
    assert Two(12) == 64 * Two(6);
    assert Two(18) == 64 * Two(12);
    assert Two(24) == 64 * Two(18);
    assert Two(30) == 64 * Two(24);
  }

  lemma {:induction false} TwoUpTo(k: nat, m: nat)
    requires k <= m
    ensures 1 <= Two(k) <= Two(m)
    decreases m
  {
    if m > 0 { TwoUpTo(if k == m then k - 1 else k, m - 1); }
  }

  lemma {:induction false} PowerBetween(n: nat, k: nat)
    requires PowerOfTwo(n) && Two(k) <= n < 2 * Two(k)
    ensures n == Two(k)
    decreases k
  {
    if k > 0 { PowerBetween(n / 2, k - 1); }
  }

  /** Shifting left by one in 32 bits. */
  lemma DoubleTwo(d: nat)
    requires d <= 31
    ensures 2 * Two(d) % U32 == (if d == 31 then 0 else Two(d + 1))
    ensures if d == 31 then Two(d) == 0x8000_0000 else Two(d) <= 0x4000_0000
  {
    TwoValues();
    if d < 31 { TwoUpTo(d, 30); }
  }

  /** The capacity the source works with, and the number of buckets it aims at, truncated to 32 bits. */
  function Capacity(expectedCapacity: int): nat {
    if expectedCapacity < 256 then 256 else expectedCapacity
  }

  function Target(expectedCapacity: int): nat {
    Capacity(expectedCapacity) / BUCKET_SIZE % U32
  }

  /** Four keys to a bucket, and no target below 64 buckets. */
  lemma TargetExactly(expectedCapacity: int)
    ensures expectedCapacity <= 256 ==> Target(expectedCapacity) == 64
    ensures expectedCapacity >= 256 ==> Target(expectedCapacity) == expectedCapacity / 4 % 0x1_0000_0000
  {
  }

  /** A power of two of buckets between twice and four times the target is the only one: 128 for the smallest filter. */
  lemma SmallestFilter(expectedCapacity: int, n: nat)
    requires expectedCapacity <= 256 && PowerOfTwo(n)
    requires 2 * Target(expectedCapacity) <= n < 4 * Target(expectedCapacity)
    ensures n == 128
  {
    assert Two(7) == 128;
    PowerBetween(n, 7);
  }

  /** A filter with a power-of-two number of buckets that can hold the capacity. */
  ghost predicate Suits(n: nat, expectedCapacity: int) {
    PowerOfTwo(n) && n * BUCKET_SIZE >= Capacity(expectedCapacity)
  }

  /** The number of buckets for an expected capacity, doubled in 32 bits; None if the doubling never ends. It suits
      the capacity exactly up to 2^30 buckets' worth of keys: beyond, the doubling wraps to zero or never ends, or the
      target itself was truncated. */
  method BucketsFor(expectedCapacity: int) returns (n: Option<nat>)
    ensures n.None? <==> Target(expectedCapacity) > 0x8000_0000
    ensures 0x4000_0000 < Target(expectedCapacity) <= 0x8000_0000 ==> n == Some(0)
    ensures Target(expectedCapacity) <= 0x4000_0000 ==>
              && n.Some? && PowerOfTwo(n.value) && n.value < U32
              && 2 * Target(expectedCapacity) <= n.value && (n.value == 2 || n.value < 4 * Target(expectedCapacity))
    ensures n.Some? && Suits(n.value, expectedCapacity) <==> Capacity(expectedCapacity) / BUCKET_SIZE <= 0x4000_0000
  {
    var target := Target(expectedCapacity);
    var k := 1;
    ghost var d := 0;
    while 0 < k < target
      invariant k == 0 || (d <= 31 && k == Two(d) && (k == 1 || k < 2 * target))
      invariant k == 0 ==> target > 0x8000_0000
      decreases if k == 0 then 0 else U32 - k
    {
      DoubleTwo(d);
      k := 2 * k % U32;
      d := d + 1;
    }
    if k == 0 {
      SuitsExactly(expectedCapacity, None);
      return None;
    }
    DoubleTwo(d);
    TwoPower(d + 1);
    n := Some(2 * k % U32);
    SuitsExactly(expectedCapacity, n);
  }

  lemma SuitsExactly(expectedCapacity: int, n: Option<nat>)
    requires n.None? <==> Target(expectedCapacity) > 0x8000_0000
    requires 0x4000_0000 < Target(expectedCapacity) <= 0x8000_0000 ==> n == Some(0)
    requires Target(expectedCapacity) <= 0x4000_0000 ==>
               n.Some? && PowerOfTwo(n.value) && n.value < U32 && 2 * Target(expectedCapacity) <= n.value
    ensures n.Some? && Suits(n.value, expectedCapacity) <==> Capacity(expectedCapacity) / BUCKET_SIZE <= 0x4000_0000
  {
    TargetCases(expectedCapacity);
  }

  lemma TargetCases(expectedCapacity: int)
    ensures var capacity, target := Capacity(expectedCapacity), Target(expectedCapacity);
            && capacity >= 256
            && (capacity / BUCKET_SIZE <= 0x4000_0000 ==> target <= 0x4000_0000 && capacity <= 8 * target)
            && (capacity / BUCKET_SIZE > 0x4000_0000 ==> target > 0x4000_0000 || capacity >= U32 * BUCKET_SIZE)
  {
  }

  method SerializeBucket(b: seq<nat>) returns (data: Bytes)
    ensures data == EncodeSlots(b)
  {
    data := [];
    for s := 0 to |b|
      invariant data == EncodeSlots(b[..s])
    {
      assert b[..s + 1] == b[..s] + [b[s]];
      SlotsSnoc(b[..s], b[s], [], [0, 0]);
      data := data + BigEndian(b[s], 2);
    }
    assert b[..|b|] == b;
  }

  method SerializeBuckets(bs: Buckets) returns (data: Bytes)
    ensures data == EncodeBuckets(bs)
  {
    data := [];
    for i := 0 to |bs|
      invariant data == EncodeBuckets(bs[..i])
    {
      var bucket := SerializeBucket(bs[i]);
      assert bs[..i + 1] == bs[..i] + [bs[i]];
      BucketsSnocEncode(bs[..i], bs[i]);
      data := data + bucket;
    }
    assert bs[..|bs|] == bs;
  }

  /** The fingerprint went into the first free slot of the bucket. */
  ghost predicate Filled(before: Buckets, after: Buckets, i: nat, fp: nat) {
    && i < |before|
    && exists s :: 0 <= s < |before[i]| && before[i][s] == 0 && (forall t :: 0 <= t < s ==> before[i][t] != 0)
                   && after == Write(before, i, s, fp)
  }

  /** The table in the middle of a displacement, the bucket in turn and the fingerprint in hand. */
  type Turn = (Buckets, nat, nat)

  ghost predicate FullTurn(t: Turn) {
    t.1 < |t.0| && Full(t.0[t.1])
  }

  /** After as many kicks as there are slots, each swapping the fingerprint in hand for the one in that slot, and going
      on with that one's other bucket. */
  ghost function Kicked(hs: Hashing, bs: Buckets, start: nat, fp: nat, slots: seq<nat>): Turn
    decreases |slots|
  {
    if slots == [] then (bs, start, fp)
    else
      var (b, i, f) := Kicked(hs, bs, start, fp, slots[..|slots| - 1]);
      var s := slots[|slots| - 1];
      if i < |b| && s < |b[i]| then (Write(b, i, s, f), Alternate(hs, i, b[i][s], |b|), b[i][s]) else (b, i, f)
  }

  lemma KickedSnoc(hs: Hashing, bs: Buckets, start: nat, fp: nat, slots: seq<nat>, s: nat)
    ensures var (b, i, f) := Kicked(hs, bs, start, fp, slots);
            i < |b| && s < |b[i]| ==>
              Kicked(hs, bs, start, fp, slots + [s]) == (Write(b, i, s, f), Alternate(hs, i, b[i][s], |b|), b[i][s])
  {
    assert (slots + [s])[..|slots|] == slots;
  }

  /** Each kick finds its bucket full. */
  ghost predicate AllFull(hs: Hashing, bs: Buckets, start: nat, fp: nat, slots: seq<nat>) {
    forall k :: 0 <= k < |slots| ==> slots[k] < 4 && FullTurn(Kicked(hs, bs, start, fp, slots[..k]))
  }

  lemma AllFullSnoc(hs: Hashing, bs: Buckets, start: nat, fp: nat, slots: seq<nat>, s: nat)
    requires AllFull(hs, bs, start, fp, slots) && s < 4 && FullTurn(Kicked(hs, bs, start, fp, slots))
    ensures AllFull(hs, bs, start, fp, slots + [s])
  {
    var all := slots + [s];
    forall k | 0 <= k < |all| ensures all[k] < 4 && FullTurn(Kicked(hs, bs, start, fp, all[..k])) {
      assert all[..k] == slots[..k];
      if k == |slots| { assert slots[..k] == slots; }
    }
  }

  /** Kicked on until a bucket had room, or 500 times in vain. */
  ghost predicate Displaced(hs: Hashing, before: Buckets, after: Buckets, start: nat, fp: nat, slots: seq<nat>,
                            ok: bool) {
    var t := Kicked(hs, before, start, fp, slots);
    && AllFull(hs, before, start, fp, slots)
    && (if ok then 0 < |slots| <= 500 && Filled(t.0, after, t.1, t.2)
        else |slots| == 500 && after == t.0 && FullTurn(t))
  }

  /** So many kicks from full bucket to full bucket have led to this turn. */
  ghost predicate Hand(hs: Hashing, first: Buckets, start: nat, fp: nat, slots: seq<nat>, turn: Turn) {
    AllFull(hs, first, start, fp, slots) && Kicked(hs, first, start, fp, slots) == turn
  }

  lemma HandKick(hs: Hashing, first: Buckets, start: nat, fp: nat, slots: seq<nat>, bs: Buckets, i: nat, f: nat, s: nat)
    requires Hand(hs, first, start, fp, slots, (bs, i, f))
    requires i < |bs| && s < 4 == |bs[i]| && Full(bs[i])
    ensures Hand(hs, first, start, fp, slots + [s],
                 (Write(bs, i, s, f), Alternate(hs, i, bs[i][s], |bs|), bs[i][s]))
  {
    KickedSnoc(hs, first, start, fp, slots, s);
    AllFullSnoc(hs, first, start, fp, slots, s);
  }

  lemma HandEnds(hs: Hashing, first: Buckets, start: nat, fp: nat, slots: seq<nat>, turn: Turn, after: Buckets)
    requires Hand(hs, first, start, fp, slots, turn)
    ensures 0 < |slots| <= 500 && Filled(turn.0, after, turn.1, turn.2) ==>
              Displaced(hs, first, after, start, fp, slots, true)
    ensures |slots| == 500 && FullTurn(turn) && after == turn.0 ==>
              Displaced(hs, first, after, start, fp, slots, false)
  {
  }

  /** In the middle of a displacement for an item of class `c`: the books are kept but for the item in hand. */
  ghost predicate Midway(hs: Hashing, first: Buckets, start: nat, fp: nat, c: Class, slots: seq<nat>, turn: Turn) {
    && Hand(hs, first, start, fp, slots, turn)
    && turn.1 < |turn.0| == |first| && turn.2 != 0 && Masked(turn.1, |first|)
    && Trades(hs, first, turn.0, c, ClassAt(hs, turn.1, turn.2, |first|))
  }

  lemma KickOn(hs: Hashing, first: Buckets, start: nat, fp: nat, c: Class, slots: seq<nat>, bs: Buckets, i: nat,
               f: nat, s: nat)
    requires Midway(hs, first, start, fp, c, slots, (bs, i, f)) && s < 4 == |bs[i]| && Full(bs[i])
    ensures var j := Alternate(hs, i, bs[i][s], |bs|);
            j < |bs| && Midway(hs, first, start, fp, c, slots + [s], (Write(bs, i, s, f), j, bs[i][s]))
  {
    SwapTrades(hs, first, bs, c, i, s, f);
    HandKick(hs, first, start, fp, slots, bs, i, f, s);
  }

  lemma RoomFound(hs: Hashing, first: Buckets, start: nat, fp: nat, c: Class, slots: seq<nat>, bs: Buckets, i: nat,
                  f: nat, after: Buckets, s: nat)
    requires Midway(hs, first, start, fp, c, slots, (bs, i, f)) && 0 < |slots| <= 500
    requires s < |bs[i]| && bs[i][s] == 0 && after == Write(bs, i, s, f) && Filled(bs, after, i, f)
    ensures Gains(hs, first, after, c) && Displaced(hs, first, after, start, fp, slots, true)
  {
    FillCompletes(hs, first, bs, c, i, s, f);
    HandEnds(hs, first, start, fp, slots, (bs, i, f), after);
  }

  /** Where an insertion puts its fingerprint: into the first bucket if there is room, else into the second, else into
      one of them by force. */
  ghost predicate Placed(hs: Hashing, before: Buckets, after: Buckets, i1: nat, i2: nat, fp: nat, slots: seq<nat>,
                         ok: bool) {
    && i1 < |before| && i2 < |before|
    && (if !Full(before[i1]) then ok && Filled(before, after, i1, fp)
        else if !Full(before[i2]) then ok && Filled(before, after, i2, fp)
        else Displaced(hs, before, after, i1, fp, slots, ok) || Displaced(hs, before, after, i2, fp, slots, ok))
  }

  class CompactFilter {
    const hs: Hashing
    var buckets: Buckets
    var numBuckets: nat
    var count: nat

    /** The fields agree with each other; the table may be empty. */
    ghost predicate Shaped()
      reads this
    {
      Storable(buckets) && numBuckets == |buckets| < U32 && count < U32
    }

    /** Usable: a filter without buckets has no place to look at. */
    ghost predicate Valid()
      reads this
    {
      Shaped() && numBuckets > 0
    }

    constructor (hs: Hashing, n: nat)
      requires n < U32
      ensures Shaped() && this.hs == hs && numBuckets == n && count == 0 && Occupied(buckets) == 0
      ensures n > 0 ==> forall c: Class :: Copies(hs, buckets, c) == 0
    {
      this.hs := hs;
      var empty: seq<nat> := [0, 0, 0, 0];
      buckets := seq(n, _ => empty);
      numBuckets := n;
      count := 0;
      new;
      CountEmpty(Any(), buckets, n, ());
      if n > 0 {
        forall c: Class ensures Copies(hs, buckets, c) == 0 {
          CountEmpty(Classes(hs, n), buckets, n, c);
        }
      }
    }

    method InsertIntoBucket(i: nat, fp: nat) returns (ok: bool, ghost slot: nat)
      requires Valid() && i < numBuckets && 0 < fp < U16
      modifies this`buckets
      ensures Valid()
      ensures ok ==> slot < BUCKET_SIZE && old(buckets)[i][slot] == 0 && buckets == Write(old(buckets), i, slot, fp)
      ensures ok ==> Filled(old(buckets), buckets, i, fp)
      ensures !ok ==> buckets == old(buckets) && Full(buckets[i])
    {
      slot := 0;
      for s := 0 to BUCKET_SIZE
        invariant buckets == old(buckets)
        invariant forall t :: 0 <= t < s ==> buckets[i][t] != 0
      {
        if buckets[i][s] == 0 {
          buckets := Write(buckets, i, s, fp);
          return true, s;
        }
      }
      ok := false;
    }

    /** One kick: swap the item in hand with a slot of a full bucket and try the displaced item in its alternate
        bucket. */
    method Kick(i: nat, fp: nat, slot: nat) returns (j: nat, out: nat, ok: bool, ghost free: nat)
      requires Valid() && i < numBuckets && Masked(i, numBuckets) && 0 < fp < U16 && slot < BUCKET_SIZE
      requires Full(buckets[i])
      modifies this`buckets
      ensures Valid() && out == old(buckets)[i][slot] && 0 < out < U16
      ensures j == Alternate(hs, i, out, numBuckets) && j < numBuckets
      ensures var swapped := Write(old(buckets), i, slot, fp);
              if ok then
                free < BUCKET_SIZE && swapped[j][free] == 0 && buckets == Write(swapped, j, free, out)
                && Filled(swapped, buckets, j, out)
              else buckets == swapped && Full(swapped[j])
    {
      out := buckets[i][slot];
      buckets := Write(buckets, i, slot, fp);
      j := Alternate(hs, i, out, numBuckets);
      AlternateInvolution(hs, i, out, numBuckets);
      ok, free := InsertIntoBucket(j, out);
    }

    /** The displacement loop: kick on from a full bucket with slots chosen at random, up to MAX_KICKS times. */
    method Displace(start: nat, fp: nat, ghost c: Class) returns (ok: bool, ghost left: Class, ghost slots: seq<nat>)
      requires Valid() && 0 < fp < U16 && start < numBuckets && Masked(start, numBuckets) && Full(buckets[start])
      requires c == ClassAt(hs, start, fp, numBuckets)
      modifies this`buckets, this`count
      ensures Valid() && numBuckets == old(numBuckets)
      ensures ok ==> Gains(hs, old(buckets), buckets, c) && count == (old(count) + 1) % U32
      ensures !ok ==> Trades(hs, old(buckets), buckets, c, left) && count == old(count)
      ensures Displaced(hs, old(buckets), buckets, start, fp, slots, ok)
    {
      ghost var first := buckets;
      slots := [];
      var n := numBuckets;
      var currIdx, currFP := start, fp;
      for kick := 0 to MAX_KICKS
        invariant Valid() && numBuckets == n && count == old(count)
        invariant 0 < currFP < U16 && currIdx < n && Full(buckets[currIdx])
        invariant |slots| == kick && Midway(hs, first, start, fp, c, slots, (buckets, currIdx, currFP))
      {
        var slot: nat :| slot < BUCKET_SIZE;
        KickOn(hs, first, start, fp, c, slots, buckets, currIdx, currFP, slot);
        slots := slots + [slot];
        ghost var swapped, free := Write(buckets, currIdx, slot, currFP), 0;
        currIdx, currFP, ok, free := Kick(currIdx, currFP, slot);
        if ok {
          RoomFound(hs, first, start, fp, c, slots, swapped, currIdx, currFP, buckets, free);
          left := c;
          count := (count + 1) % U32;
          return;
        }
      }
      HandEnds(hs, first, start, fp, slots, (buckets, currIdx, currFP), buckets);
      left := ClassAt(hs, currIdx, currFP, n);
      ok := false;
    }

    /** Adds a key. On success exactly one item of the key's class is gained; on failure the key's item is in, and one
        item, whose class is `left`, has been pushed out. This holds for every outcome of the random choices. */
    method Insert(key: Key) returns (ok: bool, ghost left: Class, ghost slots: seq<nat>)
      requires Valid()
      modifies this`buckets, this`count
      ensures Valid() && numBuckets == old(numBuckets)
      ensures ok ==> Gains(hs, old(buckets), buckets, ClassOf(hs, key, numBuckets)) && count == (old(count) + 1) % U32
      ensures !ok ==> Trades(hs, old(buckets), buckets, ClassOf(hs, key, numBuckets), left) && count == old(count)
      ensures var h := hs.hash64(key);
              var i1 := Home(h, numBuckets);
              Placed(hs, old(buckets), buckets, i1, Alternate(hs, i1, Fingerprint(h), numBuckets), Fingerprint(h),
                     slots, ok)
    {
      ghost var first := buckets;
      slots := [];
      var n := numBuckets;
      var h := hs.hash64(key);
      var fp := Fingerprint(h);
      var i1 := Home(h, n);
      var i2 := Alternate(hs, i1, fp, n);
      HomeMasked(h, n);
      AlternateInvolution(hs, i1, fp, n);
      ghost var c := ClassOf(hs, key, n);
      left := c;
      assert ClassAt(hs, i2, fp, n) == c by { assert {i2, i1} == {i1, i2}; }

      ghost var s;
      ok, s := InsertIntoBucket(i1, fp);
      if ok {
        FillGains(hs, first, i1, s, fp);
        count := (count + 1) % U32;
        return;
      }
      ok, s := InsertIntoBucket(i2, fp);
      if ok {
        FillGains(hs, first, i2, s, fp);
        count := (count + 1) % U32;
        return;
      }

      var start := i1;
      if * {
        start := i2;
      }
      ok, left, slots := Displace(start, fp, c);
    }

    /** A key is reported present exactly when some stored item is of its class. */
    method Contains(key: Key) returns (found: bool)
      requires Valid()
      ensures found <==> Copies(hs, buckets, ClassOf(hs, key, numBuckets)) > 0
    {
      var h := hs.hash64(key);
      var fp := Fingerprint(h);
      var i1 := Home(h, numBuckets);
      var i2 := Alternate(hs, i1, fp, numBuckets);
      HomeMasked(h, numBuckets);
      LookupDecidesClass(hs, buckets, i1, fp);
      for s := 0 to BUCKET_SIZE
        invariant forall t :: 0 <= t < s ==> buckets[i1][t] != fp && buckets[i2][t] != fp
      {
        if buckets[i1][s] == fp || buckets[i2][s] == fp {
          assert Holds(buckets, i1, fp) || Holds(buckets, i2, fp);
          return true;
        }
      }
      found := false;
    }

    method Serialize() returns (data: Bytes)
      ensures data == Encode(numBuckets, count, buckets)
    {
      var payload := SerializeBuckets(buckets);
      data := BigEndian(numBuckets, 4) + BigEndian(count, 4) + payload;
    }

    /** Restores the decoded filter, or leaves this one untouched. The restored one is usable if and only if it has a
        bucket: the source accepts an image of none. */
    method Deserialize(data: Bytes) returns (ok: bool)
      requires AreBytes(data)
      modifies this`buckets, this`numBuckets, this`count
      ensures ok ==> Shaped() && (Valid() <==> |data| > 8)
      ensures ok == Decode(data).Some?
      ensures ok ==> Decode(data) == Some((numBuckets, count, buckets))
      ensures !ok ==> buckets == old(buckets) && numBuckets == old(numBuckets) && count == old(count)
    {
      if |data| < 8 {
        return false;
      }
      var n := FromBigEndian(data[..4]);
      var c := FromBigEndian(data[4..8]);
      if |data| != ExpectedLength(n) {
        return false;
      }
      var body := data[8..];
      var read: Buckets := [];
      for i := 0 to n
        invariant unchanged(this)
        invariant 8 * i <= |body| && read == DecodeBuckets(body[..8 * i], i)
      {
        if |body| < 8 * (i + 1) {
          return false;
        }
        var x := body[8 * i..8 * (i + 1)];
        var bucket: seq<nat> := [];
        for s := 0 to BUCKET_SIZE
          invariant unchanged(this)
          invariant bucket == DecodeSlots(x[..2 * s])
        {
          assert x[..2 * (s + 1)] == x[..2 * s] + x[2 * s..2 * (s + 1)];
          SlotsSnoc([], 0, x[..2 * s], x[2 * s..2 * (s + 1)]);
          bucket := bucket + [FromBigEndian(x[2 * s..2 * (s + 1)])];
        }
        assert x[..2 * BUCKET_SIZE] == x;
        assert body[..8 * (i + 1)] == body[..8 * i] + x;
        BucketsSnocDecode(body[..8 * i], x, i);
        read := read + [bucket];
      }
      buckets, numBuckets, count := read, n, c;
      ok := true;
      AcceptedShape(data);
    }
  }

  /** A new filter; null stands for a call that never returns. It is usable and suits the expected capacity exactly if
      that needs no more than 2^30 target buckets. */
  method NewCompactFilter(hs: Hashing, expectedCapacity: int) returns (filter: CompactFilter?)
    ensures filter == null <==> Target(expectedCapacity) > 0x8000_0000
    ensures filter != null ==>
              && fresh(filter) && filter.Shaped() && filter.hs == hs && filter.count == 0
                 && Occupied(filter.buckets) == 0
              && (filter.Valid() <==> Target(expectedCapacity) <= 0x4000_0000)
              && (filter.Valid() ==>
                    PowerOfTwo(filter.numBuckets) && forall c: Class :: Copies(hs, filter.buckets, c) == 0)
    ensures filter != null && filter.Valid() && Suits(filter.numBuckets, expectedCapacity)
       <==> Capacity(expectedCapacity) / BUCKET_SIZE <= 0x4000_0000
  {
    var n := BucketsFor(expectedCapacity);
    if n == None {
      return null;
    }
    filter := new CompactFilter(hs, n.value);
  }

  /** A filter from its serialized form; null on an error. */
  method DeserializeCompactFilter(hs: Hashing, data: Bytes) returns (filter: CompactFilter?)
    requires AreBytes(data)
    ensures filter != null <==> Decode(data).Some?
    ensures filter != null ==>
              && fresh(filter) && filter.hs == hs && filter.Shaped() && (filter.Valid() <==> |data| > 8)
              && Decode(data) == Some((filter.numBuckets, filter.count, filter.buckets))
  {
    filter := new CompactFilter(hs, 0);
    var ok := filter.Deserialize(data);
    if !ok {
      return null;
    }
  }

  datatype Insertion = Insertion(key: Key, ok: bool)

  /** The effect of one Insert, as its contract states it. */
  ghost predicate Inserts(hs: Hashing, before: Buckets, after: Buckets, ins: Insertion, left: Class)
    requires |before| > 0
  {
    if ins.ok then Gains(hs, before, after, ClassOf(hs, ins.key, |before|))
    else Trades(hs, before, after, ClassOf(hs, ins.key, |before|), left)
  }

  /** The 32-bit counter keeps telling the number of occupied slots, through successes and failures alike. */
  lemma CounterStaysExact(hs: Hashing, before: Buckets, after: Buckets, ins: Insertion, left: Class, count: nat)
    requires |before| > 0 && Inserts(hs, before, after, ins, left) && count == Occupied(before) % U32
    ensures (if ins.ok then (count + 1) % U32 else count) == Occupied(after) % U32
  {
    var x := Occupied(before);
    assert (x % U32 + 1) % U32 == (x + 1) % U32;
  }

  /** A run of insertions through `states`, from an empty filter; `lefts` are the classes pushed out by failures. */
  ghost predicate Run(hs: Hashing, states: seq<Buckets>, log: seq<Insertion>, lefts: seq<Class>) {
    && |states| == |log| + 1 && |lefts| == |log|
    && (forall i :: 0 <= i < |states| ==> |states[i]| > 0)
    && Occupied(states[0]) == 0 && (forall c: Class :: Copies(hs, states[0], c) == 0)
    && forall i :: 0 <= i < |log| ==> Inserts(hs, states[i], states[i + 1], log[i], lefts[i])
  }

  ghost function Asked(hs: Hashing, n: nat, log: seq<Insertion>, c: Class): nat
    requires n > 0
  {
    if log == [] then 0 else
      Asked(hs, n, log[..|log| - 1], c) + Bit(ClassOf(hs, log[|log| - 1].key, n) == c)
  }

  ghost function Lost(log: seq<Insertion>, lefts: seq<Class>, c: Class): nat
    requires |lefts| == |log|
  {
    if log == [] then 0 else
      Lost(log[..|log| - 1], lefts[..|log| - 1], c) + Bit(!log[|log| - 1].ok && lefts[|log| - 1] == c)
  }

  ghost function Successes(log: seq<Insertion>): nat {
    if log == [] then 0 else Successes(log[..|log| - 1]) + Bit(log[|log| - 1].ok)
  }

  /** After any run, failures included: what is stored of each class is what was asked for minus what failures pushed
      out, and the occupied slots are exactly the successes. */
  lemma {:induction false} RunAccounts(hs: Hashing, states: seq<Buckets>, log: seq<Insertion>, lefts: seq<Class>,
                                       c: Class)
    requires Run(hs, states, log, lefts)
    ensures var end := states[|log|];
            && |end| == |states[0]|
            && Copies(hs, end, c) + Lost(log, lefts, c) == Asked(hs, |end|, log, c)
            && Occupied(end) == Successes(log)
    decreases |log|
  {
    if log != [] {
      var k := |log| - 1;
      assert Inserts(hs, states[k], states[k + 1], log[k], lefts[k]);
      RunPrefix(hs, states, log, lefts);
      RunAccounts(hs, states[..k + 1], log[..k], lefts[..k], c);
    }
  }

  lemma RunPrefix(hs: Hashing, states: seq<Buckets>, log: seq<Insertion>, lefts: seq<Class>)
    requires Run(hs, states, log, lefts) && log != []
    ensures var k := |log| - 1; Run(hs, states[..k + 1], log[..k], lefts[..k])
  {
    var k := |log| - 1;
    var states', log', lefts' := states[..k + 1], log[..k], lefts[..k];
    forall i | 0 <= i < k ensures Inserts(hs, states'[i], states'[i + 1], log'[i], lefts'[i]) {
      assert Inserts(hs, states[i], states[i + 1], log[i], lefts[i]);
    }
  }

  lemma {:induction false} AskedOf(hs: Hashing, n: nat, log: seq<Insertion>, i: nat)
    requires n > 0 && i < |log|
    ensures Asked(hs, n, log, ClassOf(hs, log[i].key, n)) > 0
  {
    if i < |log| - 1 { AskedOf(hs, n, log[..|log| - 1], i); }
  }

  lemma {:induction false} NothingLost(log: seq<Insertion>, lefts: seq<Class>, c: Class)
    requires |lefts| == |log| && forall i :: 0 <= i < |log| ==> log[i].ok || lefts[i] != c
    ensures Lost(log, lefts, c) == 0
  {
    if log != [] { NothingLost(log[..|log| - 1], lefts[..|log| - 1], c); }
  }

  /** No false negatives: a key asked for is found at the end unless some failed insertion pushed out an item of its
      very class. With no failures, every inserted key is found. */
  lemma NoFalseNegatives(hs: Hashing, states: seq<Buckets>, log: seq<Insertion>, lefts: seq<Class>, i: nat)
    requires Run(hs, states, log, lefts) && i < |log|
    ensures var end := states[|log|];
            var c := ClassOf(hs, log[i].key, |end|);
            |end| > 0 && ((forall j :: 0 <= j < |log| ==> log[j].ok || lefts[j] != c) ==> Copies(hs, end, c) > 0)
  {
    var end := states[|log|];
    var c := ClassOf(hs, log[i].key, |end|);
    RunAccounts(hs, states, log, lefts, c);
    AskedOf(hs, |end|, log, i);
    if forall j :: 0 <= j < |log| ==> log[j].ok || lefts[j] != c { NothingLost(log, lefts, c); }
  }

  lemma {:induction false} AskedBy(hs: Hashing, n: nat, log: seq<Insertion>, c: Class) returns (i: nat)
    requires n > 0 && Asked(hs, n, log, c) > 0
    ensures i < |log| && ClassOf(hs, log[i].key, n) == c
  {
    var k := |log| - 1;
    if ClassOf(hs, log[k].key, n) == c { i := k; } else { i := AskedBy(hs, n, log[..k], c); }
  }

  /** A key is only ever reported present because a key of the same class was asked for: collisions of fingerprint and
      bucket pair are the only false positives, failures or not. */
  lemma FalsePositivesCollide(hs: Hashing, states: seq<Buckets>, log: seq<Insertion>, lefts: seq<Class>, key: Key)
    requires Run(hs, states, log, lefts)
    requires Copies(hs, states[|log|], ClassOf(hs, key, |states[|log|]|)) > 0
    ensures exists i :: 0 <= i < |log| && ClassOf(hs, log[i].key, |states[0]|) == ClassOf(hs, key, |states[0]|)
  {
    var c := ClassOf(hs, key, |states[|log|]|);
    RunAccounts(hs, states, log, lefts, c);
    var i := AskedBy(hs, |states[0]|, log, c);
  }
}
