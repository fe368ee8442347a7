/** The text whose digest identifies a queued transaction, and which transaction ids it can tell apart. */
module PayloadText {
  import opened ColonTexts
  import opened Queue
  import opened LedgerModel

  /** Everything behind the id. */
  function Fields(tx: Tx): string {
    Numbers(tx.clientTimestamp, tx.sequenceNum, tx.seqNo, Names(tx.tokenId, tx.accountId, tx.merchantId, tx.amount))
  }

  function Numbers(timestamp: int, sequenceNum: int, seqNo: nat, rest: string): string {
    Joined(Decimal(timestamp), Joined(Decimal(sequenceNum), Joined(Decimal(seqNo), rest)))
  }

  function Names(tokenId: string, accountId: string, merchantId: string, amount: int): string {
    Joined(tokenId, Joined(accountId, Joined(merchantId, Decimal(amount))))
  }

  /** The string that is hashed. */
  function Raw(tx: Tx): string {
    Joined(tx.txId, Fields(tx))
  }

  /** Its eight fields, in order. */
  lemma RawLayout(tx: Tx)
    ensures Raw(tx) == tx.txId + ":" + Decimal(tx.clientTimestamp) + ":" + Decimal(tx.sequenceNum) + ":"
                       + Decimal(tx.seqNo) + ":" + tx.tokenId + ":" + tx.accountId + ":" + tx.merchantId + ":"
                       + Decimal(tx.amount)
  {
    Flat(tx.txId, Decimal(tx.clientTimestamp), Decimal(tx.sequenceNum), Decimal(tx.seqNo), tx.tokenId, tx.accountId,
         tx.merchantId, Decimal(tx.amount));
  }

  lemma Flat(a: string, b: string, c: string, d: string, e: string, f: string, g: string, h: string)
    ensures Joined(a, Joined(b, Joined(c, Joined(d, Joined(e, Joined(f, Joined(g, h)))))))
         == a + ":" + b + ":" + c + ":" + d + ":" + e + ":" + f + ":" + g + ":" + h
  {
    var ab := Joined(a, b);
    var abc := Joined(ab, c);
    var abcd := Joined(abc, d);
    var abcde := Joined(abcd, e);
    Regroup(a, b, Joined(c, Joined(d, Joined(e, Joined(f, Joined(g, h))))));
    Regroup(ab, c, Joined(d, Joined(e, Joined(f, Joined(g, h)))));
    Regroup(abc, d, Joined(e, Joined(f, Joined(g, h))));
    Regroup(abcd, e, Joined(f, Joined(g, h)));
    Regroup(abcde, f, Joined(g, h));
    Regroup(Joined(abcde, f), g, h);
  }

  /** A transaction as the gateway queues it: numbered by the authorizer, under a token of the authority, with a
      timestamp. */
  predicate Queueable(tx: Tx) {
    tx.sequenceNum > 0 && tx.clientTimestamp != 0 && TOKEN_PREFIX <= tx.tokenId
  }

  /** A positive amount with the reserve on neither side. */
  predicate Payable(tx: Tx) {
    tx.amount > 0 && tx.accountId != RESERVE && tx.merchantId != RESERVE
  }

  /** The text reads like the start of the fields of such a transaction, up to and into the token id. */
  ghost predicate ReadsLikeFields(d: string) {
    exists t: int, n: nat, k: nat, z: string :: t != 0 && n > 0 && TOKEN_PREFIX <= z && d == Numbers(t, n, k, z)
  }

  /** The id `b` is the id `a` with something behind it that reads like the fields of a transaction. */
  ghost predicate Confusable(a: string, b: string) {
    |a| < |b| && b[..|a|] == a && b[|a|] == COLON && ReadsLikeFields(b[|a| + 1..])
  }

  /** Two payments with one and the same text. */
  ghost predicate Collide(x: Tx, y: Tx) {
    Queueable(x) && Queueable(y) && Payable(x) && Payable(y) && y.amount == x.amount && Raw(x) == Raw(y)
  }

  /** One payment is the first that an authorizer numbers, the other a later one. */
  predicate Sequential(x: Tx, y: Tx) {
    (x.sequenceNum == 1 && y.sequenceNum > 1) || (y.sequenceNum == 1 && x.sequenceNum > 1)
  }

  /** One cent, no clock, no terminal, and a text of at most `n` characters. */
  ghost predicate Modest(tx: Tx, n: nat) {
    tx.amount == 1 && tx.vectorClock == map[] && tx.terminalId == "" && |Raw(tx)| <= n
  }

  /** Two modest payments under these ids, one of them the first of its authorizer, with one text. */
  ghost predicate CanCollide(a: string, b: string) {
    exists x: Tx, y: Tx :: x.txId == a && y.txId == b && Collide(x, y) && Sequential(x, y)
      && Modest(x, |b| + MARGIN) && Modest(y, |b| + MARGIN)
  }

  const MARGIN := 40

  /** A printed number does not start like a token id. */
  lemma NumberIsNoToken(n: int, r: string)
    ensures !(TOKEN_PREFIX <= Joined(Decimal(n), r))
  {
    DecimalPlain(n);
    var whole := Joined(Decimal(n), r);
    assert whole[0] == Decimal(n)[0] && Decimal(n)[0] in Decimal(n);
    assert whole[0] != TOKEN_PREFIX[0];
  }

  /** If the fields of `x` are `d` followed by the fields of `y`, then `d` reaches into the token id of `x`: a number of
      `y` cannot stand where a token id has to start. */
  lemma CollisionReadsLikeFields(d: string, y: Tx, x: Tx)
    requires Joined(d, Fields(y)) == Fields(x) && Queueable(x)
    ensures ReadsLikeFields(d)
  {
    var t, n, k := Decimal(x.clientTimestamp), Decimal(x.sequenceNum), Decimal(x.seqNo);
    var t', n', k' := Decimal(y.clientTimestamp), Decimal(y.sequenceNum), Decimal(y.seqNo);
    var rest, rest' := Names(x.tokenId, x.accountId, x.merchantId, x.amount),
        Names(y.tokenId, y.accountId, y.merchantId, y.amount);
    AllPlain(x);
    AllPlain(y);
    StartsWithToken(x.tokenId, Joined(x.accountId, Joined(x.merchantId, Decimal(x.amount))));
    FirstField(d, Fields(y), t, Joined(n, Joined(k, rest)));
    if d == t {
      PlainFirst(t', Joined(n', Joined(k', rest')), n, Joined(k, rest));
      PlainFirst(n', Joined(k', rest'), k, rest);
      NumberIsNoToken(y.seqNo, rest');
    } else {
      SecondCut(d[|t| + 1..], d, y, x);
    }
  }

  lemma AllPlain(x: Tx)
    ensures COLON !in Decimal(x.clientTimestamp) && COLON !in Decimal(x.sequenceNum) && COLON !in Decimal(x.seqNo)
  {
    DecimalPlain(x.clientTimestamp);
    DecimalPlain(x.sequenceNum);
    DecimalPlain(x.seqNo);
  }

  /** The cut lies behind the timestamp. */
  lemma SecondCut(d1: string, d: string, y: Tx, x: Tx)
    requires d == Joined(Decimal(x.clientTimestamp), d1) && Queueable(x)
    requires var rest := Names(x.tokenId, x.accountId, x.merchantId, x.amount);
             && TOKEN_PREFIX <= rest
             && Joined(d1, Fields(y)) == Joined(Decimal(x.sequenceNum), Joined(Decimal(x.seqNo), rest))
    ensures ReadsLikeFields(d)
  {
    var n, k := Decimal(x.sequenceNum), Decimal(x.seqNo);
    var t', n', k' := Decimal(y.clientTimestamp), Decimal(y.sequenceNum), Decimal(y.seqNo);
    var rest, rest' := Names(x.tokenId, x.accountId, x.merchantId, x.amount),
        Names(y.tokenId, y.accountId, y.merchantId, y.amount);
    AllPlain(x);
    AllPlain(y);
    FirstField(d1, Fields(y), n, Joined(k, rest));
    if d1 == n {
      PlainFirst(t', Joined(n', Joined(k', rest')), k, rest);
      NumberIsNoToken(y.sequenceNum, Joined(k', rest'));
    } else {
      var d2 := d1[|n| + 1..];
      FirstField(d2, Fields(y), k, rest);
      if d2 == k {
        NumberIsNoToken(y.clientTimestamp, Joined(n', Joined(k', rest')));
      } else {
        var z := d2[|k| + 1..];
        PrefixKept(z, Fields(y));
        assert d == Numbers(x.clientTimestamp, x.sequenceNum, x.seqNo, z);
      }
    }
  }

  /** Equal texts under a shorter and a longer id: the longer one extends the shorter one by text like fields. */
  lemma CollisionConfuses(x: Tx, y: Tx)
    requires Raw(x) == Raw(y) && |x.txId| < |y.txId| && Queueable(x)
    ensures Confusable(x.txId, y.txId)
  {
    LongerExtends(x.txId, Fields(x), y.txId, Fields(y));
    CollisionReadsLikeFields(y.txId[|x.txId| + 1..], y, x);
  }

  /** A transaction of one cent under `id` with the given numbers and names. */
  function Sketch(id: string, t: int, n: int, k: nat, token: string, account: string, merchant: string): Tx {
    Tx(id, t, n, k, map[], token, account, merchant, "", 1, PENDING, "")
  }

  lemma NotReserve(x: string, y: string, n: int)
    ensures Joined(x, y) != RESERVE && Decimal(n) != RESERVE
  {
    assert Joined(x, y)[|x|] == COLON;
    assert COLON !in RESERVE;
    DecimalPlain(n);
    assert 'A' !in Decimal(n) && RESERVE[0] == 'A' && RESERVE[0] in RESERVE;
  }

  /** Numbers and a token id in front of the fields of another transaction are the fields of a third one. */
  lemma FieldsNest(t: int, n: nat, k: nat, z: string, y: Tx)
    ensures Joined(Numbers(t, n, k, z), Fields(y))
         == Numbers(t, n, k, Joined(z, Joined(Decimal(y.clientTimestamp),
              Joined(Decimal(y.sequenceNum),
                     Joined(Decimal(y.seqNo), Names(y.tokenId, y.accountId, y.merchantId, y.amount))))))
  {
    Regroup(Decimal(t), Joined(Decimal(n), Joined(Decimal(k), z)), Fields(y));
    Regroup(Decimal(n), Joined(Decimal(k), z), Fields(y));
    Regroup(Decimal(k), z, Fields(y));
  }

  lemma CollidingPair(a: string, b: string) returns (x: Tx, y: Tx)
    requires Confusable(a, b)
    ensures x.txId == a && y.txId == b && Collide(x, y) && Sequential(x, y)
    ensures Modest(x, |b| + MARGIN) && Modest(y, |b| + MARGIN)
  {
    CutAt(a, b);
    var t: int, n: nat, k: nat, z: string :|
      t != 0 && n > 0 && TOKEN_PREFIX <= z && b[|a| + 1..] == Numbers(t, n, k, z);
    x, y := NestedPair(a, b, t, n, k, z);
    SameRaw(a, b[|a| + 1..], x, y);
  }

  lemma ConfusableCollide(a: string, b: string)
    requires Confusable(a, b)
    ensures CanCollide(a, b)
  {
    var x, y := CollidingPair(a, b);
  }

  lemma SameRaw(a: string, d: string, x: Tx, y: Tx)
    requires x.txId == a && y.txId == Joined(a, d) && Fields(x) == Joined(d, Fields(y))
    ensures Raw(x) == Raw(y)
  {
    Regroup(a, d, Fields(y));
  }

  /** Two transactions under the given ids: the fields of the first are the given ones and those of the second. */
  lemma NestedPair(a: string, b: string, t: int, n: nat, k: nat, z: string) returns (x: Tx, y: Tx)
    requires t != 0 && n > 0 && TOKEN_PREFIX <= z
    ensures Queueable(x) && Queueable(y) && Payable(x) && Payable(y) && x.txId == a && y.txId == b && Sequential(x, y)
    ensures x.amount == 1 && x.vectorClock == map[] && x.terminalId == "" && Modest(y, |b| + MARGIN)
    ensures Fields(x) == Joined(Numbers(t, n, k, z), Fields(y))
  {
    var m := if n == 1 then 2 else 1;
    var names := Joined(TOKEN_PREFIX, Joined("A", "M"));
    y := Sketch(b, 1, m, 0, TOKEN_PREFIX, "A", "M");
    x := Sketch(a, t, n, k, z, Decimal(1), Joined(Decimal(m), Joined(Decimal(0), names)));
    FieldsNest(t, n, k, z, y);
    NotReserve(Decimal(m), Joined(Decimal(0), names), 1);
    MerchantNests(m, names);
    SketchLength(b, m);
  }

  lemma SketchLength(b: string, m: nat)
    requires m < 10
    ensures |Raw(Sketch(b, 1, m, 0, TOKEN_PREFIX, "A", "M"))| <= |b| + MARGIN
  {
    assert |Decimal(m)| == 1 && |Decimal(0)| == 1 && |Decimal(1)| == 1;
  }

  lemma MerchantNests(m: nat, names: string)
    requires names == Joined(TOKEN_PREFIX, Joined("A", "M"))
    ensures Joined(Joined(Decimal(m), Joined(Decimal(0), names)), Decimal(1))
         == Joined(Decimal(m), Joined(Decimal(0), Names(TOKEN_PREFIX, "A", "M", 1)))
  {
    Regroup("A", "M", Decimal(1));
    Regroup(TOKEN_PREFIX, Joined("A", "M"), Decimal(1));
    Regroup(Decimal(0), names, Decimal(1));
    Regroup(Decimal(m), Joined(Decimal(0), names), Decimal(1));
  }

  /** No two ids of the set can be confused. */
  ghost predicate Unconfusable(ids: set<string>) {
    forall a, b :: a in ids && b in ids ==> !Confusable(a, b)
  }

  /** Within the set, the text tells the ids apart, whatever the other fields hold. */
  ghost predicate Separates(ids: set<string>) {
    forall x: Tx, y: Tx :: x.txId in ids && y.txId in ids && Queueable(x) && Queueable(y) && Raw(x) == Raw(y)
        ==> x.txId == y.txId
  }

  /** Exactly which sets of transaction ids are safe: those in which no id is another one followed by a colon, a
      timestamp, two sequence numbers and text that starts like a token id. */
  lemma SeparatesExactly(ids: set<string>)
    ensures Separates(ids) <==> Unconfusable(ids)
  {
    if Unconfusable(ids) {
      forall x: Tx, y: Tx | x.txId in ids && y.txId in ids && Queueable(x) && Queueable(y) && Raw(x) == Raw(y)
        ensures x.txId == y.txId
      {
        if |x.txId| < |y.txId| {
          CollisionConfuses(x, y);
        } else if |y.txId| < |x.txId| {
          CollisionConfuses(y, x);
        } else {
          assert Raw(x)[..|x.txId|] == x.txId && Raw(y)[..|y.txId|] == y.txId;
        }
      }
    } else {
      var a, b :| a in ids && b in ids && Confusable(a, b);
      ConfusableCollide(a, b);
      assert a != b;
    }
  }

  /** Ids without colons are safe. */
  lemma ColonFreeSafe(ids: set<string>)
    requires forall id :: id in ids ==> COLON !in id
    ensures Unconfusable(ids)
  {
  }

  ghost predicate HoldsToken(id: string) {
    exists i :: 0 <= i < |id| && id[i] == COLON && TOKEN_PREFIX <= id[i + 1..]
  }

  lemma TokenBehindColon(head: string, z: string)
    requires TOKEN_PREFIX <= z
    ensures HoldsToken(Joined(head, z))
  {
    var id := Joined(head, z);
    assert id[|head|] == COLON && id[|head| + 1..] == z;
  }

  lemma NumbersHoldToken(a: string, t: int, n: nat, k: nat, z: string)
    requires TOKEN_PREFIX <= z
    ensures HoldsToken(Joined(a, Numbers(t, n, k, z)))
  {
    RegroupFour(a, Decimal(t), Decimal(n), Decimal(k), z);
    TokenBehindColon(Joined(a, Joined(Decimal(t), Joined(Decimal(n), Decimal(k)))), z);
  }

  lemma RegroupFour(a: string, b: string, d: string, e: string, z: string)
    ensures Joined(Joined(a, Joined(b, Joined(d, e))), z) == Joined(a, Joined(b, Joined(d, Joined(e, z))))
  {
    Regroup(a, Joined(b, Joined(d, e)), z);
    Regroup(b, Joined(d, e), z);
    Regroup(d, e, z);
  }

  lemma ConfusableHoldsToken(a: string, b: string)
    requires Confusable(a, b)
    ensures HoldsToken(b)
  {
    CutAt(a, b);
    var t: int, n: nat, k: nat, z: string :| t != 0 && n > 0 && TOKEN_PREFIX <= z
        && b[|a| + 1..] == Numbers(t, n, k, z);
    NumbersHoldToken(a, t, n, k, z);
  }

  /** So are ids in which no token id stands behind a colon: a suffix such as `:1` does no harm. */
  lemma TokenFreeSafe(ids: set<string>)
    requires forall id :: id in ids ==> !HoldsToken(id)
    ensures Unconfusable(ids)
  {
    forall a, b | a in ids && b in ids ensures !Confusable(a, b) {
      if Confusable(a, b) { ConfusableHoldsToken(a, b); }
    }
  }

  /** The family of collisions: one merchant name that holds a whole second payment, and an id that holds a whole first
      one. With n = 1, m = 2 and amount 5, "t" and "t:1:1:1:TOK-a-9-1:A:M" are such ids. */
  lemma OneTextTwoIds(id: string, t: int, n: nat, k: nat, token: string, account: string, merchant: string,
                      t': int, m: nat, k': nat, token': string, account': string, merchant': string, amount: int)
    requires t != 0 && n > 0 && TOKEN_PREFIX <= token
    ensures var name := Joined(token, Joined(account, merchant));
            var longId := Joined(id, Numbers(t, n, k, name));
            var longName := Joined(merchant, Numbers(t', m, k', Joined(token', Joined(account', merchant'))));
            && Confusable(id, longId)
            && Raw(Tx(id, t, n, k, map[], token, account, longName, "", amount, PENDING, ""))
            == Raw(Tx(longId, t', m, k', map[], token', account', merchant', "", amount, PENDING, ""))
  {
    var name := Joined(token, Joined(account, merchant));
    var longId := Joined(id, Numbers(t, n, k, name));
    StartsWithToken(token, Joined(account, merchant));
    assert longId[|id| + 1..] == Numbers(t, n, k, name);
    var tail := Numbers(t', m, k', Names(token', account', merchant', amount));
    RegroupMany(id, Decimal(t), Decimal(n), Decimal(k), token, account, merchant, tail);
    RegroupMany(merchant, Decimal(t'), Decimal(m), Decimal(k'), token', account', merchant', Decimal(amount));
  }

  lemma RegroupMany(a: string, b: string, d: string, e: string, f: string, g: string, h: string, z: string)
    ensures Joined(Joined(a, Joined(b, Joined(d, Joined(e, Joined(f, Joined(g, h)))))), z)
         == Joined(a, Joined(b, Joined(d, Joined(e, Joined(f, Joined(g, Joined(h, z)))))))
  {
    Regroup(a, Joined(b, Joined(d, Joined(e, Joined(f, Joined(g, h))))), z);
    Regroup(b, Joined(d, Joined(e, Joined(f, Joined(g, h)))), z);
    Regroup(d, Joined(e, Joined(f, Joined(g, h))), z);
    Regroup(e, Joined(f, Joined(g, h)), z);
    Regroup(f, Joined(g, h), z);
    Regroup(g, h, z);
  }
}
