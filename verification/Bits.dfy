/** Bitwise operations on natural numbers, bit by bit. */
module Bits {

  function Xor(a: nat, b: nat): nat
    decreases a + b
  {
    if a == 0 && b == 0 then 0
    else 2 * Xor(a / 2, b / 2) + (if a % 2 != b % 2 then 1 else 0)
  }

  function And(a: nat, b: nat): nat
    decreases a + b
  {
    if a == 0 && b == 0 then 0
    else 2 * And(a / 2, b / 2) + (if a % 2 == 1 && b % 2 == 1 then 1 else 0)
  }

  /** The low bit and the remaining bits of both operations. */
  lemma Halves(a: nat, b: nat)
    ensures Xor(a, b) / 2 == Xor(a / 2, b / 2) && (Xor(a, b) % 2 == 1 <==> a % 2 != b % 2)
    ensures And(a, b) / 2 == And(a / 2, b / 2) && (And(a, b) % 2 == 1 <==> a % 2 == 1 && b % 2 == 1)
  {
  }

  lemma {:induction false} AndAtMost(a: nat, m: nat)
    ensures And(a, m) <= m
    decreases a + m
  {
    if a != 0 || m != 0 { AndAtMost(a / 2, m / 2); }
  }

  /** Masking twice is masking once. */
  lemma {:induction false} AndIdempotent(a: nat, m: nat)
    ensures And(And(a, m), m) == And(a, m)
    decreases a + m
  {
    if a != 0 || m != 0 {
      Halves(a, m);
      Halves(And(a, m), m);
      AndIdempotent(a / 2, m / 2);
    }
  }

  /** Two numbers with equal low bit and equal remaining bits are equal. */
  lemma SameHalves(x: nat, y: nat)
    requires x / 2 == y / 2 && (x % 2 == 1 <==> y % 2 == 1)
    ensures x == y
  {
  }

  /** Exclusive-or with `h` under a mask undoes itself, for every mask. */
  lemma {:induction false} MaskedXorInvolution(i: nat, h: nat, m: nat)
    ensures And(Xor(And(Xor(i, h), m), h), m) == And(i, m)
    decreases i + h + m
  {
    if i != 0 || h != 0 || m != 0 {
      var x := And(Xor(i, h), m);
      Halves(i, h);
      Halves(Xor(i, h), m);
      Halves(x, h);
      Halves(Xor(x, h), m);
      Halves(i, m);
      MaskedXorInvolution(i / 2, h / 2, m / 2);
      SameHalves(And(Xor(x, h), m), And(i, m));
    }
  }
}
