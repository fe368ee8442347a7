/** Finite sums over maps and sequences, used to talk about ledgers, thread pools and batches. */
module Sums {

  datatype Option<+T> = None | Some(value: T)

  /** The sum of `f` over all values of `m`, each key counted once. */
  ghost function SumBy<K, T>(m: map<K, T>, f: T -> int): int
    decreases |m|
  {
    if m == map[] then 0 else
      var k :| k in m;
      f(m[k]) + SumBy(m - {k}, f)
  }

  /** Any key can be split off; the choice inside `SumBy` is immaterial. */
  lemma {:induction false} SumBySplit<K, T>(m: map<K, T>, k: K, f: T -> int)
    requires k in m
    ensures SumBy(m, f) == f(m[k]) + SumBy(m - {k}, f)
    decreases |m|
  {
    var j :| j in m && SumBy(m, f) == f(m[j]) + SumBy(m - {j}, f);
    if j != k {
      assert (m - {j}) - {k} == (m - {k}) - {j};
      SumBySplit(m - {j}, k, f);
      SumBySplit(m - {k}, j, f);
    }
  }

  /** Writing one key changes the sum by the difference at that key. */
  lemma SumByUpdate<K, T>(m: map<K, T>, k: K, v: T, f: T -> int)
    ensures SumBy(m[k := v], f) == SumBy(m, f) + f(v) - (if k in m then f(m[k]) else 0)
  {
    SumBySplit(m[k := v], k, f);
    if k in m {
      SumBySplit(m, k, f);
      assert m[k := v] - {k} == m - {k};
    } else {
      assert m[k := v] - {k} == m;
    }
  }

  /** A sum of non-negative terms is at least each of its terms. */
  lemma {:induction false} SumByAtLeast<K, T>(m: map<K, T>, k: K, f: T -> int)
    requires k in m
    requires forall j :: j in m ==> f(m[j]) >= 0
    ensures SumBy(m, f) >= f(m[k])
  {
    SumBySplit(m, k, f);
    SumByNonNegative(m - {k}, f);
  }

  lemma {:induction false} SumByNonNegative<K, T>(m: map<K, T>, f: T -> int)
    requires forall j :: j in m ==> f(m[j]) >= 0
    ensures SumBy(m, f) >= 0
    decreases |m|
  {
    if m != map[] {
      var k :| k in m && SumBy(m, f) == f(m[k]) + SumBy(m - {k}, f);
      SumByNonNegative(m - {k}, f);
    }
  }

  lemma {:induction false} SumByAdd<K, T>(m: map<K, T>, h: T -> int, f: T -> int, g: T -> int)
    requires forall j :: j in m ==> h(m[j]) == f(m[j]) + g(m[j])
    ensures SumBy(m, h) == SumBy(m, f) + SumBy(m, g)
    decreases |m|
  {
    if m != map[] {
      var k :| k in m;
      SumBySplit(m, k, h);
      SumBySplit(m, k, f);
      SumBySplit(m, k, g);
      SumByAdd(m - {k}, h, f, g);
    }
  }

  lemma Distribute(c: int, x: int, y: int)
    ensures c * (x + y) == c * x + c * y
  {
  }

  lemma {:induction false} SumByScale<K, T>(m: map<K, T>, h: T -> int, c: int, g: T -> int)
    requires forall j :: j in m ==> h(m[j]) == c * g(m[j])
    ensures SumBy(m, h) == c * SumBy(m, g)
    decreases |m|
  {
    if m != map[] {
      var k :| k in m;
      SumBySplit(m, k, h);
      SumBySplit(m, k, g);
      SumByScale(m - {k}, h, c, g);
      Distribute(c, g(m[k]), SumBy(m - {k}, g));
    }
  }

  lemma {:induction false} SumByZero<K, T>(m: map<K, T>, f: T -> int)
    requires forall j :: j in m ==> f(m[j]) == 0
    ensures SumBy(m, f) == 0
    decreases |m|
  {
    if m != map[] {
      var k :| k in m;
      SumBySplit(m, k, f);
      SumByZero(m - {k}, f);
    }
  }

  /** The sum of `f` along a sequence. */
  ghost function SumSeq<T>(s: seq<T>, f: T -> int): int {
    if s == [] then 0 else f(s[0]) + SumSeq(s[1..], f)
  }

  lemma {:induction false} SumSeqAppend<T>(s: seq<T>, t: seq<T>, f: T -> int)
    ensures SumSeq(s + t, f) == SumSeq(s, f) + SumSeq(t, f)
  {
    if s == [] {
      assert s + t == t;
    } else {
      assert (s + t)[1..] == s[1..] + t;
      SumSeqAppend(s[1..], t, f);
    }
  }

  /** `s` without its element at `i`. */
  ghost function Without<T>(s: seq<T>, i: nat): seq<T>
    requires i < |s|
  {
    s[..i] + s[i + 1..]
  }

  lemma WithoutMultiset<T>(s: seq<T>, i: nat)
    requires i < |s|
    ensures multiset(Without(s, i)) == multiset(s) - multiset{s[i]}
  {
    assert s == s[..i] + ([s[i]] + s[i + 1..]);
  }

  lemma {:induction false} SumSeqWithout<T>(s: seq<T>, i: nat, f: T -> int)
    requires i < |s|
    ensures SumSeq(s, f) == f(s[i]) + SumSeq(Without(s, i), f)
  {
    assert s == s[..i] + s[i..];
    SumSeqAppend(s[..i], s[i..], f);
    SumSeqAppend(s[..i], s[i + 1..], f);
  }

  /** The sum depends only on which elements occur and how often. */
  lemma {:induction false} SumSeqPermutation<T>(s: seq<T>, t: seq<T>, f: T -> int)
    requires multiset(s) == multiset(t)
    ensures SumSeq(s, f) == SumSeq(t, f)
  {
    if s == [] {
      assert |multiset(t)| == 0;
    } else {
      assert s[0] in multiset(t);
      var i :| 0 <= i < |t| && t[i] == s[0];
      assert Without(s, 0) == s[1..];
      WithoutMultiset(s, 0);
      WithoutMultiset(t, i);
      SumSeqPermutation(s[1..], Without(t, i), f);
      SumSeqWithout(t, i, f);
    }
  }
}
