/** Text made of fields with colons in between, none of them escaped: what can be read off it, and what cannot. */
module ColonTexts {

  const COLON := ':'
  const DASH := '-'

  /** Every id of an issued token starts like this. */
  const TOKEN_PREFIX := "TOK-"

  function DigitOf(d: nat): char
    requires d < 10
  {
    "0123456789"[d]
  }

  function Digits(n: nat): string {
    if n < 10 then [DigitOf(n)] else Digits(n / 10) + [DigitOf(n % 10)]
  }

  /** An integer as printed by %d. */
  function Decimal(n: int): string {
    if n < 0 then [DASH] + Digits(-n) else Digits(n)
  }

  /** Two pieces of text with a colon in between; nothing is escaped. */
  function Joined(x: string, y: string): string {
    x + [COLON] + y
  }

  /** Joining is associative, so a field that contains colons looks like several fields. */
  lemma Regroup(x: string, y: string, z: string)
    ensures Joined(Joined(x, y), z) == Joined(x, Joined(y, z))
  {
  }

  lemma {:induction false} DigitsPlain(n: nat)
    ensures |Digits(n)| > 0 && forall ch :: ch in Digits(n) ==> '0' <= ch <= '9'
  {
    if n >= 10 { DigitsPlain(n / 10); }
  }

  /** A printed number starts with a digit or a minus sign and holds no colon. */
  lemma DecimalPlain(n: int)
    ensures COLON !in Decimal(n) && |Decimal(n)| > 0
    ensures forall ch :: ch in Decimal(n) ==> ch == DASH || '0' <= ch <= '9'
  {
    DigitsPlain(if n < 0 then -n else n);
  }

  /** The number that a text of decimal digits stands for. */
  function ValueOf(s: string): int {
    if s == [] then 0 else 10 * ValueOf(s[..|s| - 1]) + (s[|s| - 1] as int - '0' as int)
  }

  lemma {:induction false} DigitsValue(n: nat)
    ensures ValueOf(Digits(n)) == n && (n >= 10 ==> Digits(n)[0] != '0') && |Digits(n)| > 0
  {
    var s := Digits(n);
    if n >= 10 {
      DigitsValue(n / 10);
      assert s[..|s| - 1] == Digits(n / 10);
      if n / 10 < 10 { assert s[0] == DigitOf(n / 10); }
    } else {
      assert s[..|s| - 1] == [];
    }
  }

  /** A printed number is a minus sign for a negative one, and digits of the right value without leading zeros. */
  lemma DecimalValue(n: int)
    ensures n >= 0 ==> ValueOf(Decimal(n)) == n && (n >= 10 ==> Decimal(n)[0] != '0')
    ensures n < 0 ==> Decimal(n)[0] == '-' && ValueOf(Decimal(n)[1..]) == -n && Decimal(n)[1] != '0'
  {
    DigitsValue(if n < 0 then -n else n);
    if n < 0 { assert Decimal(n)[1..] == Digits(-n); }
  }

  lemma DigitDecides(c: nat, d: nat)
    requires c < 10 && d < 10 && DigitOf(c) == DigitOf(d)
    ensures c == d
  {
  }

  lemma {:induction false} DigitsInjective(m: nat, n: nat)
    requires Digits(m) == Digits(n)
    ensures m == n
    decreases m
  {
    var s, k := Digits(m), |Digits(m)| - 1;
    DigitsPlain(m / 10);
    DigitsPlain(n / 10);
    assert s[k] == DigitOf(m % 10) && s[k] == DigitOf(n % 10);
    DigitDecides(m % 10, n % 10);
    if m >= 10 {
      assert s[..k] == Digits(m / 10);
      assert n >= 10;
      assert s[..k] == Digits(n / 10);
      DigitsInjective(m / 10, n / 10);
    } else {
      assert n < 10;
    }
  }

  /** Different numbers are printed differently. */
  lemma DecimalInjective(m: int, n: int)
    requires Decimal(m) == Decimal(n)
    ensures m == n
  {
    var x, y := if m < 0 then -m else m, if n < 0 then -n else n;
    DigitsPlain(x);
    DigitsPlain(y);
    assert Digits(x)[0] in Digits(x) && Digits(y)[0] in Digits(y);
    assert Decimal(m)[0] == Decimal(n)[0];
    assert (m < 0) == (n < 0);
    if m < 0 { assert Decimal(m)[1..] == Digits(x) && Decimal(n)[1..] == Digits(y); }
    DigitsInjective(x, y);
  }

  /** Reading one field off two texts that agree: the plain field ends where the first colon is. */
  lemma FirstField(d: string, r: string, x: string, t: string)
    requires COLON !in x && Joined(d, r) == Joined(x, t)
    ensures (d == x && r == t) || (|x| < |d| && COLON in d && d == Joined(x, d[|x| + 1..])
                                   && Joined(d[|x| + 1..], r) == t)
  {
    var whole := Joined(d, r);
    assert whole[|x|] == COLON && whole[|d|] == COLON;
    assert whole[..|d|] == d && whole[..|x|] == x;
    assert whole[|d| + 1..] == r && whole[|x| + 1..] == t;
    assert forall k :: 0 <= k < |x| ==> whole[k] == x[k];
    if |x| < |d| {
      assert d[|x|] == COLON && d[..|x|] == x;
      assert d == d[..|x|] + [d[|x|]] + d[|x| + 1..];
      assert whole[|x| + 1..] == Joined(d[|x| + 1..], r);
    }
  }

  /** A plain first field is the same in both readings. */
  lemma PlainFirst(d: string, r: string, x: string, t: string)
    requires COLON !in d && COLON !in x && Joined(d, r) == Joined(x, t)
    ensures d == x && r == t
  {
    FirstField(d, r, x, t);
  }

  /** Behind the separator in front of it, a text has no further one if its last piece has none. */
  lemma NoneBehind(sep: char, r: string, d: string, i: nat)
    requires sep !in d && i < |r + [sep] + d| && (r + [sep] + d)[i] == sep
    ensures i <= |r|
  {
    var whole := r + [sep] + d;
    assert forall k :: |r| < k < |whole| ==> whole[k] == d[k - |r| - 1] && d[k - |r| - 1] in d;
  }

  /** So is a last piece without the separator. */
  lemma LastPiece(sep: char, r: string, d: string, t: string, x: string)
    requires sep !in d && sep !in x && r + [sep] + d == t + [sep] + x
    ensures r == t && d == x
  {
    var whole := r + [sep] + d;
    assert whole[|r|] == sep && whole[|t|] == sep;
    NoneBehind(sep, r, d, |t|);
    NoneBehind(sep, t, x, |r|);
    assert whole[..|r|] == r && whole[|r| + 1..] == d;
    assert whole[..|t|] == t && whole[|t| + 1..] == x;
  }

  /** Of two equal texts, the one that is cut later continues the other one's head with the colon and part of its
      tail. */
  lemma LongerExtends(a: string, s: string, b: string, t: string)
    requires Joined(a, s) == Joined(b, t) && |a| < |b|
    ensures b[..|a|] == a && b[|a|] == COLON && Joined(b[|a| + 1..], t) == s
  {
    var whole := Joined(a, s);
    assert whole[..|a|] == a && whole[|a|] == COLON && whole[..|b|] == b;
    assert b[..|a|] == whole[..|b|][..|a|];
    assert whole[|a| + 1..] == s;
  }

  lemma CutAt(a: string, b: string)
    requires |a| < |b| && b[..|a|] == a && b[|a|] == COLON
    ensures b == Joined(a, b[|a| + 1..])
  {
    assert b == b[..|a|] + [b[|a|]] + b[|a| + 1..];
  }

  /** A text that starts like a token id still does when it is cut at any colon. */
  lemma PrefixKept(d: string, r: string)
    requires TOKEN_PREFIX <= Joined(d, r)
    ensures TOKEN_PREFIX <= d
  {
    var whole := Joined(d, r);
    assert whole[|d|] == COLON;
    assert forall k :: 0 <= k < 4 ==> whole[k] == TOKEN_PREFIX[k];
    assert COLON !in TOKEN_PREFIX;
    assert whole[..|d|] == d;
  }

  lemma StartsWithToken(z: string, r: string)
    requires TOKEN_PREFIX <= z
    ensures TOKEN_PREFIX <= Joined(z, r)
  {
    assert Joined(z, r)[..|z|] == z;
    assert Joined(z, r)[..4] == z[..4];
  }
}
