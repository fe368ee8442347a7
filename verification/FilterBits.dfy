/** The cuckoo filter on the bits of the hashes: which keys are taken for which. */
module FilterBits {
  import opened Bits
  import opened SlotCount
  import opened CuckooModel
  import opened CompactFilters

  lemma ModHalves(x: nat, m: nat)
    requires m > 0
    ensures x % (2 * m) == 2 * (x / 2 % m) + x % 2
  {
    var q, r := x / 2 / m, x / 2 % m;
    assert x / 2 == m * q + r;
    assert x == 2 * m * q + (2 * r + x % 2);
    ModUnique(2 * m, q, 2 * r + x % 2);
  }

  lemma MultipleGrows(m: int, k: int)
    requires m >= 0
    ensures (k >= 1 ==> m * k >= m) && (k <= -1 ==> m * k <= -m)
  {
    assert m * k == m + m * (k - 1) && m * k == -m + m * (k + 1);
  }

  lemma SmallMultiple(m: int, k: int)
    requires -m < m * k < m
    ensures k == 0
  {
    MultipleGrows(m, k);
  }

  lemma Euclid(n: int, m: int)
    requires m > 0
    ensures n == m * (n / m) + n % m && 0 <= n % m < m
  {
  }

  lemma ModUnique(m: nat, q: nat, r: nat)
    requires r < m
    ensures (m * q + r) % m == r
  {
    var n := m * q + r;
    Euclid(n, m);
    assert m * (n / m - q) == m * (n / m) - m * q;
    SmallMultiple(m, n / m - q);
  }

  /** A mask of ones is a remainder. */
  lemma {:induction false} MaskIsRemainder(x: nat, n: nat)
    requires PowerOfTwo(n)
    ensures And(x, n - 1) == x % n
    decreases n
  {
    if n == 1 {
      AndAtMost(x, 0);
    } else {
      Halves(x, n - 1);
      assert (n - 1) / 2 == n / 2 - 1 && (n - 1) % 2 == 1;
      MaskIsRemainder(x / 2, n / 2);
      ModHalves(x, n / 2);
    }
  }

  /** The low 16 bits, zero counting as one. */
  function Tag(h: nat): nat {
    if h % 0x1_0000 == 0 then 1 else h % 0x1_0000
  }

  ghost predicate SameTag(g: nat, h: nat) {
    g % 0x1_0000 == h % 0x1_0000 || (g % 0x1_0000 <= 1 && h % 0x1_0000 <= 1)
  }

  /** Bits 16 to 47 of the hash, modulo the number of buckets. */
  function Bucket(h: nat, n: nat): nat
    requires n > 0
  {
    h / 0x1_0000 % 0x1_0000_0000 % n
  }

  /** The hashes agree in the low 16 bits, and in the bucket or the one reached by exclusive-or with the mixed tag. */
  ghost predicate Alike(mix: nat -> nat, n: nat, g: nat, h: nat)
    requires n > 0
  {
    SameTag(g, h) && (Bucket(g, n) == Bucket(h, n) || Bucket(g, n) == Xor(Bucket(h, n), mix(Tag(h))) % n)
  }

  /** Two keys are of one class exactly if their hashes are alike. */
  lemma ClassExactly(hs: Hashing, k1: Key, k2: Key, n: nat)
    requires PowerOfTwo(n)
    ensures ClassOf(hs, k1, n) == ClassOf(hs, k2, n) <==> Alike(hs.mix, n, hs.hash64(k1), hs.hash64(k2))
  {
    var g, h := hs.hash64(k1), hs.hash64(k2);
    MaskIsRemainder(g / 0x1_0000 % 0x1_0000_0000, n);
    MaskIsRemainder(h / 0x1_0000 % 0x1_0000_0000, n);
    assert Home(g, n) == Bucket(g, n) && Home(h, n) == Bucket(h, n);
    assert Fingerprint(g) == Fingerprint(h) <==> SameTag(g, h);
    assert Fingerprint(h) == Tag(h);
    MaskIsRemainder(Xor(Bucket(h, n), hs.mix(Tag(h))), n);
    HomeMasked(h, n);
    HomeMasked(g, n);
    SameClass(hs, Home(g, n), Home(h, n), Fingerprint(g), Fingerprint(h), n);
  }

  lemma SameClass(hs: Hashing, i: nat, j: nat, f: nat, g: nat, n: nat)
    requires n > 0 && Masked(i, n) && Masked(j, n)
    ensures ClassAt(hs, i, f, n) == ClassAt(hs, j, g, n) <==> f == g && (i == j || i == Alternate(hs, j, g, n))
  {
    AlternateInvolution(hs, j, g, n);
    AlternateInvolution(hs, i, f, n);
    if f == g && i == Alternate(hs, j, g, n) {
      assert {i, j} == {j, i};
    }
    if ClassAt(hs, i, f, n) == ClassAt(hs, j, g, n) {
      assert i in ClassAt(hs, i, f, n).1;
      assert i in ClassAt(hs, j, g, n).1;
    }
  }

  /** After any run of insertions into a filter of a power of two of buckets, a key is found only if the hash of some
      key that was to be inserted is like its own. */
  lemma FoundOnlyAlike(hs: Hashing, states: seq<Buckets>, log: seq<Insertion>, lefts: seq<Class>, key: Key)
    requires Run(hs, states, log, lefts) && PowerOfTwo(|states[0]|)
    requires Copies(hs, states[|log|], ClassOf(hs, key, |states[|log|]|)) > 0
    ensures exists i :: 0 <= i < |log| && Alike(hs.mix, |states[0]|, hs.hash64(log[i].key), hs.hash64(key))
  {
    FalsePositivesCollide(hs, states, log, lefts, key);
    var n := |states[0]|;
    var i :| 0 <= i < |log| && ClassOf(hs, log[i].key, n) == ClassOf(hs, key, n);
    ClassExactly(hs, log[i].key, key, n);
  }

  /** So a filter into which no such key was to be inserted answers no. */
  lemma OthersNotFound(hs: Hashing, states: seq<Buckets>, log: seq<Insertion>, lefts: seq<Class>, key: Key)
    requires Run(hs, states, log, lefts) && PowerOfTwo(|states[0]|)
    requires forall i :: 0 <= i < |log| ==> !Alike(hs.mix, |states[0]|, hs.hash64(log[i].key), hs.hash64(key))
    ensures |states[|log|]| > 0 && Copies(hs, states[|log|], ClassOf(hs, key, |states[|log|]|)) == 0
  {
    if Copies(hs, states[|log|], ClassOf(hs, key, |states[|log|]|)) > 0 {
      FoundOnlyAlike(hs, states, log, lefts, key);
    }
  }

  /** Exclusive-or works on digits to the base 4, 16 and 256 separately, as on bits. */
  lemma XorBase4(a: nat, b: nat)
    ensures Xor(a, b) == 4 * Xor(a / 4, b / 4) + Xor(a % 4, b % 4)
  {
    assert Xor(a, b) == 2 * Xor(a / 2, b / 2) + (if a % 2 != b % 2 then 1 else 0);
    assert Xor(a / 2, b / 2) == 2 * Xor(a / 2 / 2, b / 2 / 2) + (if a / 2 % 2 != b / 2 % 2 then 1 else 0);
    assert a / 2 / 2 == a / 4 && b / 2 / 2 == b / 4;
    var x, y := a % 4, b % 4;
    assert Xor(x, y) == 2 * Xor(x / 2, y / 2) + (if x % 2 != y % 2 then 1 else 0);
    assert x / 2 == a / 2 % 2 && y / 2 == b / 2 % 2;
    assert Xor(x / 2, y / 2) == (if x / 2 != y / 2 then 1 else 0);
  }

  lemma XorBase16(a: nat, b: nat)
    ensures Xor(a, b) == 16 * Xor(a / 16, b / 16) + Xor(a % 16, b % 16)
  {
    XorBase4(a, b);
    XorBase4(a / 4, b / 4);
    XorBase4(a % 16, b % 16);
    assert a / 4 / 4 == a / 16 && b / 4 / 4 == b / 16;
    assert a % 16 / 4 == a / 4 % 4 && b % 16 / 4 == b / 4 % 4 && a % 16 % 4 == a % 4 && b % 16 % 4 == b % 4;
  }

  lemma XorBase256(a: nat, b: nat)
    ensures Xor(a, b) == 256 * Xor(a / 256, b / 256) + Xor(a % 256, b % 256)
  {
    XorBase16(a, b);
    XorBase16(a / 16, b / 16);
    XorBase16(a % 256, b % 256);
    assert a / 16 / 16 == a / 256 && b / 16 / 16 == b / 256;
    assert a % 256 / 16 == a / 16 % 16 && b % 256 / 16 == b / 16 % 16;
    assert a % 256 % 16 == a % 16 && b % 256 % 16 == b % 16;
  }

  lemma {:induction false} XorZero(a: nat)
    ensures Xor(a, 0) == a
  {
    if a > 0 { XorZero(a / 2); }
  }

  lemma XorByte(a: nat, b: nat)
    requires b < 256
    ensures Xor(a, b) == a - a % 256 + Xor(a % 256, b)
  {
    XorBase256(a, b);
    XorZero(a / 256);
  }

  /** One byte of the hash of a key, with the numbers worked out. */
  lemma FnvByte(key: Key, b: nat, h: nat, x: nat)
    requires Fnv1a(key) == h && b < 256 && x == Xor(h % 256, b)
    ensures Fnv1a(key + [b]) == (h - h % 256 + x) * 1099511628211 % 0x1_0000_0000_0000_0000
  {
    assert (key + [b])[..|key|] == key;
    XorByte(h, b);
  }

  /** The next hash, with the numbers worked out. */
  lemma FnvTo(key: Key, b: nat, h: nat, x: nat, next: nat)
    requires Fnv1a(key) == h && b < 256 && x == Xor(h % 256, b)
    requires next == (h - h % 256 + x) * 1099511628211 % 0x1_0000_0000_0000_0000
    ensures Fnv1a(key + [b]) == next
  {
    FnvByte(key, b, h, x);
  }

  lemma LastDigit(a: nat, x: nat)
    requires x < 16
    ensures (16 * a + x) / 16 == a && (16 * a + x) % 16 == x
  {
  }

  /** Exclusive-or of two numbers from that of their hexadecimal digits. */
  lemma XorDigits(a: nat, b: nat, q: nat, x: nat, y: nat, r: nat)
    requires x < 16 && y < 16 && r == Xor(x, y)
    requires q == Xor(a, b)
    ensures Xor(16 * a + x, 16 * b + y) == 16 * q + r
  {
    var u, v := 16 * a + x, 16 * b + y;
    LastDigit(a, x);
    LastDigit(b, y);
    XorBase16(u, v);
  }

  lemma FirstArithmetic()
    ensures 0xcbf29ce484222325 % 256 == 0x25
    ensures (0xcbf29ce484222325 - 0xcbf29ce484222325 % 256 + 0x43) * 1099511628211 % 0x1_0000_0000_0000_0000
            == 0xaf63db4c8601ead9
  {
  }

  lemma SecondArithmetic()
    ensures 0xaf63db4c8601ead9 % 256 == 0xd9
    ensures (0xaf63db4c8601ead9 - 0xaf63db4c8601ead9 % 256 + 0xb6) * 1099511628211 % 0x1_0000_0000_0000_0000
            == 0x8985907b541d342
  {
  }

  lemma HashDigits()
    ensures Xor(0x25, 0x66) == 0x43 && Xor(0xd9, 0x6f) == 0xb6
  {
    XorDigits(0x2, 0x6, 0x4, 0x5, 0x6, 0x3);
    XorDigits(0xd, 0x6, 0xb, 0x9, 0xf, 0x6);
  }

  /** Two of the published test values of FNV-1a: for the texts "f" and "fo". */
  lemma PublishedHashes()
    ensures Fnv1a([0x66]) == 0xaf63db4c8601ead9 && Fnv1a([0x66, 0x6f]) == 0x8985907b541d342
  {
    HashDigits();
    FirstArithmetic();
    FnvTo([], 0x66, 0xcbf29ce484222325, 0x43, 0xaf63db4c8601ead9);
    SecondArithmetic();
    assert [] + [0x66] == [0x66] && [0x66] + [0x6f] == [0x66, 0x6f];
    FnvTo([0x66], 0x6f, 0xaf63db4c8601ead9, 0xb6, 0x8985907b541d342);
  }

  lemma UpperHalf()
    ensures Xor(0x85eb, 0x4) == 0x85ef
  {
    XorZero(0x85e);
    XorDigits(0x85e, 0x0, 0x85e, 0xb, 0x4, 0xf);
  }

  lemma FirstMixing()
    ensures Xor(0x85ebca6b, 0x42f5e) == 0x85efe535
  {
    UpperHalf();
    XorDigits(0x85eb, 0x4, 0x85ef, 0xc, 0x2, 0xe);
    XorDigits(0x85ebc, 0x42, 0x85efe, 0xa, 0xf, 0x5);
    XorDigits(0x85ebca, 0x42f, 0x85efe5, 0x6, 0x5, 0x3);
    XorDigits(0x85ebca6, 0x42f5, 0x85efe53, 0xb, 0xe, 0x5);
  }

  lemma SecondMixing()
    ensures Xor(0x514e79f9, 0x514e) == 0x514e28b7
  {
    XorZero(0x514e);
    XorDigits(0x514e, 0x0, 0x514e, 0x7, 0x5, 0x2);
    XorDigits(0x514e7, 0x5, 0x514e2, 0x9, 0x1, 0x8);
    XorDigits(0x514e79, 0x51, 0x514e28, 0xf, 0x4, 0xb);
    XorDigits(0x514e79f, 0x514, 0x514e28b, 0x9, 0xe, 0x7);
  }

  lemma MixingArithmetic()
    ensures 0x85ebca6b % 0x1_0000_0000 == 0x85ebca6b && 0x85ebca6b / 0x2000 == 0x42f5e
    ensures 0x85efe535 * 0xc2b2ae35 % 0x1_0000_0000 == 0x514e79f9 && 0x514e79f9 / 0x1_0000 == 0x514e
  {
  }

  /** The mixer on the fingerprint 1. */
  lemma MixedOne()
    ensures HashFingerprint(1) == 0x514e28b7
  {
    MixingArithmetic();
    FirstMixing();
    SecondMixing();
  }
}
