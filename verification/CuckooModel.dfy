/** Counting the occupied slots of a bucket table by label. */
module SlotCount {

  type Buckets = seq<seq<nat>>

  /** The buckets after writing `v` into one slot. */
  function Write(bs: Buckets, i: nat, s: nat, v: nat): Buckets
    requires i < |bs| && s < |bs[i]|
  {
    var b: seq<nat> := bs[i];
    bs[i := SetSlot(b, s, v)]
  }

  function SetSlot(b: seq<nat>, s: nat, v: nat): seq<nat>
    requires s < |b|
  {
    b[s := v]
  }

  /** One if the slot content is an item labelled `c`; zero marks an empty slot. */
  ghost function Tally<C>(at: (nat, nat) -> C, i: nat, fp: nat, c: C): nat {
    if fp != 0 && at(i, fp) == c then 1 else 0
  }

  ghost function CountIn<C>(at: (nat, nat) -> C, b: seq<nat>, i: nat, c: C): nat
    decreases |b|
  {
    if b == [] then 0 else CountIn(at, b[..|b| - 1], i, c) + Tally(at, i, b[|b| - 1], c)
  }

  /** Items labelled `c` in the first `k` buckets. */
  ghost function CountUpTo<C>(at: (nat, nat) -> C, bs: Buckets, k: nat, c: C): nat
    requires k <= |bs|
    decreases k
  {
    if k == 0 then 0 else CountUpTo(at, bs, k - 1, c) + CountIn(at, bs[k - 1], k - 1, c)
  }

  lemma {:induction false} CountInWrite<C>(at: (nat, nat) -> C, b: seq<nat>, i: nat, s: nat, v: nat, c: C)
    requires s < |b|
    ensures CountIn(at, SetSlot(b, s, v), i, c) == CountIn(at, b, i, c) - Tally(at, i, b[s], c) + Tally(at, i, v, c)
    decreases |b|
  {
    var b' := SetSlot(b, s, v);
    var last := |b| - 1;
    if s == last {
      assert b'[..last] == b[..last];
    } else {
      assert b'[..last] == SetSlot(b[..last], s, v);
      CountInWrite(at, b[..last], i, s, v, c);
    }
  }

  lemma {:induction false} CountUntouched<C>(at: (nat, nat) -> C, bs: Buckets, i: nat, b: seq<nat>, k: nat, c: C)
    requires k <= i < |bs|
    ensures CountUpTo(at, bs[i := b], k, c) == CountUpTo(at, bs, k, c)
    decreases k
  {
    if k > 0 { CountUntouched(at, bs, i, b, k - 1, c); }
  }

  /** Overwriting a slot trades the item it held for the item written. */
  lemma {:induction false} CountWrite<C>(at: (nat, nat) -> C, bs: Buckets, i: nat, s: nat, v: nat, k: nat, c: C)
    requires i < k <= |bs| && s < |bs[i]|
    ensures CountUpTo(at, Write(bs, i, s, v), k, c)
         == CountUpTo(at, bs, k, c) - Tally(at, i, bs[i][s], c) + Tally(at, i, v, c)
    decreases k
  {
    if k == i + 1 {
      CountUntouched(at, bs, i, SetSlot(bs[i], s, v), i, c);
      CountInWrite(at, bs[i], i, s, v, c);
    } else {
      CountWrite(at, bs, i, s, v, k - 1, c);
    }
  }

  /** The slot is occupied and its label is `c`. */
  ghost predicate Carries<C>(at: (nat, nat) -> C, bs: Buckets, i: nat, s: nat, c: C) {
    i < |bs| && s < |bs[i]| && bs[i][s] != 0 && at(i, bs[i][s]) == c
  }

  lemma {:induction false} FindIn<C>(at: (nat, nat) -> C, b: seq<nat>, i: nat, c: C) returns (s: nat)
    requires CountIn(at, b, i, c) > 0
    ensures s < |b| && b[s] != 0 && at(i, b[s]) == c
    decreases |b|
  {
    var last := |b| - 1;
    if Tally(at, i, b[last], c) > 0 { s := last; } else { s := FindIn(at, b[..last], i, c); }
  }

  /** A positive count points to a slot that carries the label... */
  lemma {:induction false} Find<C>(at: (nat, nat) -> C, bs: Buckets, k: nat, c: C) returns (i: nat, s: nat)
    requires k <= |bs| && CountUpTo(at, bs, k, c) > 0
    ensures Carries(at, bs, i, s, c)
    decreases k
  {
    if CountIn(at, bs[k - 1], k - 1, c) > 0 {
      i := k - 1;
      s := FindIn(at, bs[k - 1], k - 1, c);
    } else {
      i, s := Find(at, bs, k - 1, c);
    }
  }

  lemma {:induction false} CountedIn<C>(at: (nat, nat) -> C, b: seq<nat>, i: nat, s: nat)
    requires s < |b| && b[s] != 0
    ensures CountIn(at, b, i, at(i, b[s])) > 0
    decreases |b|
  {
    var last := |b| - 1;
    if s != last { CountedIn(at, b[..last], i, s); }
  }

  /** ... and every occupied slot is counted under its label. */
  lemma {:induction false} Counted<C>(at: (nat, nat) -> C, bs: Buckets, k: nat, i: nat, s: nat)
    requires i < k <= |bs| && s < |bs[i]| && bs[i][s] != 0
    ensures CountUpTo(at, bs, k, at(i, bs[i][s])) > 0
    decreases k
  {
    if i == k - 1 { CountedIn(at, bs[i], i, s); } else { Counted(at, bs, k - 1, i, s); }
  }

  lemma {:induction false} CountEmpty<C>(at: (nat, nat) -> C, bs: Buckets, k: nat, c: C)
    requires k <= |bs| && forall i, s :: 0 <= i < |bs| && 0 <= s < |bs[i]| ==> bs[i][s] == 0
    ensures CountUpTo(at, bs, k, c) == 0
  {
    if CountUpTo(at, bs, k, c) > 0 {
      var i, s := Find(at, bs, k, c);
    }
  }
}

/** What a cuckoo filter stores: how many items of each fingerprint class. */
module CuckooModel {
  import opened Bits
  import opened SlotCount

  const BUCKET_SIZE := 4
  const MAX_KICKS := 500
  const U16 := 0x1_0000
  const U32 := 0x1_0000_0000
  const U64 := 0x1_0000_0000_0000_0000

  type Key = seq<nat>
  /** A fingerprint together with its two candidate buckets, which may coincide. */
  type Class = (nat, set<nat>)

  /** The key hash and the fingerprint mixer. Every theorem holds for any choice of the two. */
  datatype Hashing = Hashing(hash64: Key -> nat, mix: nat -> nat)

  /** FNV-1a with 64 bits. */
  function Fnv1a(key: Key): nat {
    if key == [] then 14695981039346656037
    else Xor(Fnv1a(key[..|key| - 1]), key[|key| - 1] % 256) * 1099511628211 % U64
  }

  /** Murmur-style 32-bit mixing of a fingerprint. */
  function HashFingerprint(fp: nat): nat {
    var x := fp * 0x85ebca6b % U32;
    var y := Xor(x, x / 0x2000) * 0xc2b2ae35 % U32;
    Xor(y, y / 0x1_0000)
  }

  const SOURCE_HASHING := Hashing(Fnv1a, HashFingerprint)

  /** The low 16 bits of the hash, with zero replaced: zero marks an empty slot. */
  function Fingerprint(h: nat): nat {
    if h % U16 == 0 then 1 else h % U16
  }

  function Home(h: nat, n: nat): nat
    requires n > 0
  {
    And(h / U16 % U32, n - 1)
  }

  function Alternate(hs: Hashing, i: nat, fp: nat, n: nat): nat
    requires n > 0
  {
    And(Xor(i, hs.mix(fp)), n - 1)
  }

  /** An index that the mask leaves alone. */
  predicate Masked(i: nat, n: nat)
    requires n > 0
  {
    And(i, n - 1) == i
  }

  lemma HomeMasked(h: nat, n: nat)
    requires n > 0
    ensures Masked(Home(h, n), n) && Home(h, n) < n
  {
    AndIdempotent(h / U16 % U32, n - 1);
    AndAtMost(h / U16 % U32, n - 1);
  }

  /** The alternate of the alternate is where we started, whatever the number of buckets. */
  lemma AlternateInvolution(hs: Hashing, i: nat, fp: nat, n: nat)
    requires n > 0 && Masked(i, n)
    ensures var j := Alternate(hs, i, fp, n);
            Masked(j, n) && j < n && Alternate(hs, j, fp, n) == i
  {
    AndIdempotent(Xor(i, hs.mix(fp)), n - 1);
    AndAtMost(Xor(i, hs.mix(fp)), n - 1);
    MaskedXorInvolution(i, hs.mix(fp), n - 1);
  }

  ghost function ClassAt(hs: Hashing, i: nat, fp: nat, n: nat): Class
    requires n > 0
  {
    (fp, {i, Alternate(hs, i, fp, n)})
  }

  ghost function ClassOf(hs: Hashing, key: Key, n: nat): Class
    requires n > 0
  {
    ClassAt(hs, Home(hs.hash64(key), n), Fingerprint(hs.hash64(key)), n)
  }

  ghost predicate WellFormed(bs: Buckets) {
    |bs| > 0 && forall i :: 0 <= i < |bs| ==> |bs[i]| == BUCKET_SIZE
  }

  /** The class of an item, given where it sits. */
  ghost function Classes(hs: Hashing, n: nat): (nat, nat) -> Class
    requires n > 0
  {
    (i, fp) => ClassAt(hs, i, fp, n)
  }

  /** How many stored items belong to class `c`. */
  ghost function Copies(hs: Hashing, bs: Buckets, c: Class): nat
    requires |bs| > 0
  {
    CountUpTo(Classes(hs, |bs|), bs, |bs|, c)
  }

  /** How many slots are occupied. */
  ghost function Occupied(bs: Buckets): nat {
    CountUpTo(Any(), bs, |bs|, ())
  }

  ghost function Any(): (nat, nat) -> () {
    (i, fp) => ()
  }

  ghost predicate Holds(bs: Buckets, i: nat, fp: nat)
    requires i < |bs|
  {
    exists s :: 0 <= s < |bs[i]| && bs[i][s] == fp
  }

  /** Looking for the fingerprint in the two candidate buckets decides membership of the class, nothing more or less. */
  lemma LookupDecidesClass(hs: Hashing, bs: Buckets, i1: nat, fp: nat)
    requires WellFormed(bs) && Masked(i1, |bs|) && i1 < |bs| && fp != 0
    ensures var i2 := Alternate(hs, i1, fp, |bs|);
            i2 < |bs| && (Holds(bs, i1, fp) || Holds(bs, i2, fp) <==> Copies(hs, bs, ClassAt(hs, i1, fp, |bs|)) > 0)
  {
    var n := |bs|;
    var at := Classes(hs, n);
    var i2 := Alternate(hs, i1, fp, n);
    var c := ClassAt(hs, i1, fp, n);
    AlternateInvolution(hs, i1, fp, n);
    assert at(i1, fp) == c;
    assert at(i2, fp) == c by { assert {i2, i1} == {i1, i2}; }
    if Copies(hs, bs, c) > 0 {
      var i, s := Find(at, bs, n, c);
      assert c == ClassAt(hs, i, bs[i][s], n);
      assert i in c.1 && c.0 == bs[i][s];
    }
    if Holds(bs, i1, fp) {
      var s :| 0 <= s < |bs[i1]| && bs[i1][s] == fp;
      Counted(at, bs, n, i1, s);
    }
    if Holds(bs, i2, fp) {
      var s :| 0 <= s < |bs[i2]| && bs[i2][s] == fp;
      Counted(at, bs, n, i2, s);
    }
  }

  function Bit(b: bool): nat {
    if b then 1 else 0
  }

  /** One more item of class `c`, everything else as before. */
  ghost predicate Gains(hs: Hashing, old_: Buckets, new_: Buckets, c: Class)
    requires |old_| > 0
  {
    && |new_| == |old_|
    && Occupied(new_) == Occupied(old_) + 1
    && forall d: Class :: Copies(hs, new_, d) == Copies(hs, old_, d) + Bit(d == c)
  }

  /** An item of class `c` came in and one of class `left` went out. */
  ghost predicate Trades(hs: Hashing, old_: Buckets, new_: Buckets, c: Class, left: Class)
    requires |old_| > 0
  {
    && |new_| == |old_|
    && Occupied(new_) == Occupied(old_)
    && forall d: Class :: Copies(hs, new_, d) + Bit(d == left) == Copies(hs, old_, d) + Bit(d == c)
  }

  ghost predicate Full(b: seq<nat>) {
    forall s :: 0 <= s < |b| ==> b[s] != 0
  }

  lemma CopiesWrite(hs: Hashing, bs: Buckets, i: nat, s: nat, v: nat, d: Class)
    requires i < |bs| && s < |bs[i]|
    ensures Copies(hs, Write(bs, i, s, v), d)
         == Copies(hs, bs, d) - Bit(bs[i][s] != 0 && ClassAt(hs, i, bs[i][s], |bs|) == d)
            + Bit(v != 0 && ClassAt(hs, i, v, |bs|) == d)
  {
    CountWrite(Classes(hs, |bs|), bs, i, s, v, |bs|, d);
  }

  lemma OccupiedWrite(bs: Buckets, i: nat, s: nat, v: nat)
    requires i < |bs| && s < |bs[i]|
    ensures Occupied(Write(bs, i, s, v)) == Occupied(bs) - Bit(bs[i][s] != 0) + Bit(v != 0)
  {
    CountWrite(Any(), bs, i, s, v, |bs|, ());
  }

  /** Filling an empty slot with a new item. */
  lemma FillGains(hs: Hashing, bs: Buckets, i: nat, s: nat, fp: nat)
    requires i < |bs| && s < |bs[i]| && bs[i][s] == 0 && fp != 0
    ensures Gains(hs, bs, Write(bs, i, s, fp), ClassAt(hs, i, fp, |bs|))
  {
    OccupiedWrite(bs, i, s, fp);
    forall d: Class
      ensures Copies(hs, Write(bs, i, s, fp), d) == Copies(hs, bs, d) + Bit(d == ClassAt(hs, i, fp, |bs|))
    {
      CopiesWrite(hs, bs, i, s, fp, d);
    }
  }

  /** Putting the item in hand into an empty slot completes the insertion. */
  lemma FillCompletes(hs: Hashing, first: Buckets, bs: Buckets, c: Class, i: nat, s: nat, fp: nat)
    requires |first| > 0 && i < |bs| && s < |bs[i]| && bs[i][s] == 0 && fp != 0
    requires |bs| == |first| && Trades(hs, first, bs, c, ClassAt(hs, i, fp, |bs|))
    ensures Gains(hs, first, Write(bs, i, s, fp), c)
  {
    FillGains(hs, bs, i, s, fp);
    var bs' := Write(bs, i, s, fp);
    forall d: Class ensures Copies(hs, bs', d) == Copies(hs, first, d) + Bit(d == c) {
      assert Copies(hs, bs, d) + Bit(d == ClassAt(hs, i, fp, |bs|)) == Copies(hs, first, d) + Bit(d == c);
    }
  }

  /** Swapping the item in hand with an occupied slot keeps the books: the displaced item is now in hand,
      and it belongs to its alternate bucket just as well. */
  lemma SwapTrades(hs: Hashing, first: Buckets, bs: Buckets, c: Class, i: nat, s: nat, fp: nat)
    requires |first| > 0 && i < |bs| && s < |bs[i]| && bs[i][s] != 0 && fp != 0 && Masked(i, |bs|)
    requires |bs| == |first| && Trades(hs, first, bs, c, ClassAt(hs, i, fp, |bs|))
    ensures var j := Alternate(hs, i, bs[i][s], |bs|);
            Masked(j, |bs|) && j < |bs| && Trades(hs, first, Write(bs, i, s, fp), c, ClassAt(hs, j, bs[i][s], |bs|))
  {
    var out := bs[i][s];
    var j := Alternate(hs, i, out, |bs|);
    AlternateInvolution(hs, i, out, |bs|);
    assert ClassAt(hs, j, out, |bs|) == ClassAt(hs, i, out, |bs|) by { assert {j, i} == {i, j}; }
    OccupiedWrite(bs, i, s, fp);
    var bs' := Write(bs, i, s, fp);
    forall d: Class
      ensures Copies(hs, bs', d) + Bit(d == ClassAt(hs, j, out, |bs|)) == Copies(hs, first, d) + Bit(d == c)
    {
      CopiesWrite(hs, bs, i, s, fp, d);
      assert Copies(hs, bs, d) + Bit(d == ClassAt(hs, i, fp, |bs|)) == Copies(hs, first, d) + Bit(d == c);
    }
  }
}
