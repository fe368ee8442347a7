/** What a replay does to the money and to its own report. */
module SettlementBooks {
  import opened Sums
  import opened Queue
  import opened LedgerModel
  import opened LedgerConservation
  import opened WalModel
  import opened Tournaments
  import opened SettlementModel

  /** A transaction the reserve mode can always settle: if there is anything to pay, it is not to the reserve itself. */
  predicate Proper(tx: Tx) {
    tx.amount > 0 ==> tx.merchantId != RESERVE
  }

  /** What a settlement pays: a non-positive amount is booked as a deficit of nothing and moves nothing. */
  function Payout(tx: Tx): nat {
    if tx.amount > 0 then tx.amount else 0
  }

  function Wealth(m: Accounts, id: string): int {
    Get(m, id).online + Get(m, id).offline
  }

  /** What the reserve has to pay: nothing if there is nothing to pay or either bucket covers the amount alone, else
      all but the online balance. */
  function Shortfall(snap: Account, amount: int): int {
    if amount <= 0 || snap.offline >= amount || snap.online >= amount then 0
    else amount - (if snap.online < 0 then 0 else snap.online)
  }

  function Due(v: Verdict): int {
    if v.Short? then v.record.deficitAmount else 0
  }

  ghost predicate MovesMoney(l: State, n: State, tx: Tx, due: int, id: string) {
    && Wealth(n.accounts, id) == Wealth(l.accounts, id)
         + (if id == tx.merchantId then Payout(tx) else 0)
         - (if id == tx.accountId then Payout(tx) - due else 0)
         - (if id == RESERVE then due else 0)
    && Get(n.accounts, id).reserved == Get(l.accounts, id).reserved
    && (id != tx.accountId ==> Get(n.accounts, id).offline == Get(l.accounts, id).offline)
  }

  lemma CoverEffect(l: State, tx: Tx, id: string)
    requires Proper(tx)
    ensures var snap := Get(l.accounts, tx.accountId);
            var (n, ok) := TryCover(l, snap, tx);
            && ok == (tx.amount > 0 && Shortfall(snap, tx.amount) == 0)
            && (ok ==> MovesMoney(l, n, tx, 0, id))
            && (!ok ==> n == l)
  {
  }

  /** A direct commit that is covered moves online money and nothing else. */
  lemma DirectCommitMoves(l: State, from: string, to: string, amount: int, txId: string, id: string)
    requires amount > 0 && from in l.accounts && l.accounts[from].online >= amount
    ensures var (n, out) := DoDirectCommit(l, from, to, amount, txId);
            var a, b := Get(l.accounts, id), Get(n.accounts, id);
            && out == Done
            && b == a.(online := a.online + (if id == to then amount else 0) - (if id == from then amount else 0))
  {
  }

  lemma ReserveDebitMoves(l: State, to: string, amount: int, txId: string, id: string)
    requires amount > 0 && to != RESERVE
    ensures var (n, out) := DoDebitDeficitReserve(l, to, amount, txId);
            var a, b := Get(l.accounts, id), Get(n.accounts, id);
            && out == Done
            && b == a.(online := a.online + (if id == to then amount else 0) - (if id == RESERVE then amount else 0))
  {
  }

  lemma AbsorbEffect(l: State, tx: Tx, id: string)
    requires Proper(tx) && (tx.amount <= 0 || Shortfall(Get(l.accounts, tx.accountId), tx.amount) > 0)
    ensures var snap := Get(l.accounts, tx.accountId);
            var (n, v) := Absorb(l, snap, tx);
            && v == Short(RecordOf(tx, snap.online, Shortfall(snap, tx.amount)), false)
            && MovesMoney(l, n, tx, Shortfall(snap, tx.amount), id)
  {
    var covered := Clamp(Get(l.accounts, tx.accountId).online, tx.amount);
    if tx.amount <= 0 { return; }
    var l1 := l;
    if covered > 0 {
      DirectCommitMoves(l, tx.accountId, tx.merchantId, covered, tx.txId + USER_SUFFIX, id);
      l1 := DoDirectCommit(l, tx.accountId, tx.merchantId, covered, tx.txId + USER_SUFFIX).0;
    }
    ReserveDebitMoves(l1, tx.merchantId, tx.amount - covered, tx.txId + RESERVE_SUFFIX, id);
  }

  /** Settling in reserve mode: the merchant gets the whole amount, the customer pays all but the shortfall, the reserve
      pays the shortfall, and nothing else moves. The customer fails to cover exactly when there is a shortfall. */
  lemma SettleMoves(l: State, tx: Tx, id: string)
    requires Proper(tx)
    ensures var (n, v) := SettleOnLedger(true, l, tx);
            var due := Shortfall(Get(l.accounts, tx.accountId), tx.amount);
            && MovesMoney(l, n, tx, due, id) && Due(v) == due && 0 <= due <= Payout(tx)
            && (v.Reconciled? <==> tx.amount > 0 && due == 0)
            && (v.Short? ==> !v.hangs && v.record.accountId == tx.accountId)
            && !v.Hung?
  {
    CoverEffect(l, tx, id);
    if tx.amount <= 0 || Shortfall(Get(l.accounts, tx.accountId), tx.amount) > 0 { AbsorbEffect(l, tx, id); }
  }

  /** When a replay waits for a lock it holds: in reserve mode for a shortfall owed to the reserve itself, in legacy
      mode for an uncovered payment of an account to itself. Nothing else ever hangs. */
  lemma HangsExactly(l: State, tx: Tx)
    ensures var snap := Get(l.accounts, tx.accountId);
            var v := SettleOnLedger(true, l, tx).1;
            v.Hung? <==> tx.amount > 0 && tx.merchantId == RESERVE && Shortfall(snap, tx.amount) > 0
    ensures var v := SettleOnLedger(false, l, tx).1;
            !v.Hung? && (v.Short? && v.hangs <==>
              tx.accountId == tx.merchantId && (tx.amount <= 0
                                                || Shortfall(Get(l.accounts, tx.accountId), tx.amount) > 0))
  {
  }

  ghost function CreditTo(id: string): Tx -> int {
    (tx: Tx) => if tx.merchantId == id then Payout(tx) else 0
  }

  ghost function DebitOf(id: string): Tx -> int {
    (tx: Tx) => if tx.accountId == id then Payout(tx) else 0
  }

  ghost function AmountOf(): Tx -> int {
    (tx: Tx) => tx.amount
  }

  ghost function DueOf(id: string): DeficitRecord -> int {
    (d: DeficitRecord) => if d.accountId == id then d.deficitAmount else 0
  }

  ghost function DueAmount(): DeficitRecord -> int {
    (d: DeficitRecord) => d.deficitAmount
  }

  /** The wealth an account would have if the reserve had not stepped in for anybody in this report. */
  ghost function Unaided(w: World, id: string): int {
    Wealth(w.ledger.accounts, id) - SumSeq(w.report.records, DueOf(id))
    + (if id == RESERVE then SumSeq(w.report.records, DueAmount()) else 0)
  }

  /** How the world changes by settling the fresh transactions `news` out of a batch of `n`. */
  ghost predicate Booked(w: World, e: World, news: seq<Tx>, n: nat) {
    && e.hung == w.hung
    && w.report.totalProcessed == e.report.totalProcessed
    && e.report.successful + e.report.deficits + e.report.duplicates
       == w.report.successful + w.report.deficits + w.report.duplicates + n
    && e.report.successful + e.report.deficits == w.report.successful + w.report.deficits + |news|
    && e.report.totalReconciled + e.report.totalDeficit
       == w.report.totalReconciled + w.report.totalDeficit + SumSeq(news, AmountOf())
    && w.report.records <= e.report.records
    && e.logs == w.logs + e.report.records[|w.report.records|..]
    && |e.report.records| - e.report.deficits == |w.report.records| - w.report.deficits
  }

  ghost predicate MoneyBooked(w: World, e: World, news: seq<Tx>, id: string) {
    && Unaided(e, id) == Unaided(w, id) + SumSeq(news, CreditTo(id)) - SumSeq(news, DebitOf(id))
    && Get(e.ledger.accounts, id).reserved == Get(w.ledger.accounts, id).reserved
  }

  lemma SumOne<T>(x: T, f: T -> int)
    ensures SumSeq([x], f) == f(x)
  {
    assert [x][1..] == [];
  }

  lemma SettleOneBooked(c: Codec, w: World, tx: Tx)
    requires Proper(tx) && !w.hung
    ensures Booked(w, Settle(true, c, w, tx), Fresh(c, w.seen, [tx]), 1)
  {
    SettleMoves(w.ledger, tx, "");
    SumOne(tx, AmountOf());
    assert Fresh(c, w.seen, [tx]) == if HashOf(c, tx) in w.seen then [] else [tx];
    assert SumSeq<Tx>([], AmountOf()) == 0;
  }

  lemma SettleOneMoney(c: Codec, w: World, tx: Tx, id: string)
    requires Proper(tx) && !w.hung
    ensures MoneyBooked(w, Settle(true, c, w, tx), Fresh(c, w.seen, [tx]), id)
  {
    SettleMoves(w.ledger, tx, id);
    SumOne(tx, CreditTo(id));
    SumOne(tx, DebitOf(id));
    assert Fresh(c, w.seen, [tx]) == if HashOf(c, tx) in w.seen then [] else [tx];
    assert SumSeq<Tx>([], CreditTo(id)) == 0 && SumSeq<Tx>([], DebitOf(id)) == 0;
    var (l, v) := SettleOnLedger(true, w.ledger, tx);
    if HashOf(c, tx) !in w.seen && v.Short? {
      SumSeqAppend(w.report.records, [v.record], DueOf(id));
      SumSeqAppend(w.report.records, [v.record], DueAmount());
      SumOne(v.record, DueOf(id));
      SumOne(v.record, DueAmount());
    }
  }

  ghost predicate AllProper(batch: seq<Tx>) {
    forall i :: 0 <= i < |batch| ==> Proper(batch[i])
  }

  lemma SettleSees(c: Codec, useReserve: bool, w: World, tx: Tx)
    requires !w.hung
    ensures Settle(useReserve, c, w, tx).seen == w.seen + {HashOf(c, tx)}
  {
    if HashOf(c, tx) in w.seen { assert w.seen + {HashOf(c, tx)} == w.seen; }
  }

  lemma FreshHead(c: Codec, seen: set<string>, batch: seq<Tx>)
    requires batch != []
    ensures Fresh(c, seen, batch) == Fresh(c, seen, [batch[0]]) + Fresh(c, seen + {HashOf(c, batch[0])}, batch[1..])
  {
    var h := HashOf(c, batch[0]);
    assert [batch[0]][1..] == [];
    if h in seen {
      assert seen + {h} == seen;
      assert Fresh(c, seen, [batch[0]]) == [];
    } else {
      assert Fresh(c, seen, [batch[0]]) == [batch[0]];
    }
  }

  /** The fresh part of a batch is that of its first element and that of the rest. */
  lemma FreshSplit(c: Codec, useReserve: bool, w: World, batch: seq<Tx>)
    requires batch != [] && !w.hung
    ensures Fresh(c, w.seen, batch)
         == Fresh(c, w.seen, [batch[0]]) + Fresh(c, Settle(useReserve, c, w, batch[0]).seen, batch[1..])
  {
    SettleSees(c, useReserve, w, batch[0]);
    FreshHead(c, w.seen, batch);
  }

  lemma BookedTrans(w: World, m: World, e: World, f: seq<Tx>, g: seq<Tx>, j: nat, k: nat)
    requires Booked(w, m, f, j) && Booked(m, e, g, k)
    ensures Booked(w, e, f + g, j + k)
  {
    SumSeqAppend(f, g, AmountOf());
    var a, b, r := |w.report.records|, |m.report.records|, e.report.records;
    assert r[a..] == r[a..b] + r[b..];
    assert r[a..b] == m.report.records[a..];
  }

  lemma MoneyTrans(w: World, m: World, e: World, f: seq<Tx>, g: seq<Tx>, id: string)
    requires MoneyBooked(w, m, f, id) && MoneyBooked(m, e, g, id)
    ensures MoneyBooked(w, e, f + g, id)
  {
    SumSeqAppend(f, g, CreditTo(id));
    SumSeqAppend(f, g, DebitOf(id));
  }

  lemma {:induction false} SettleAllBooked(c: Codec, w: World, batch: seq<Tx>)
    requires AllProper(batch) && !w.hung
    ensures Booked(w, SettleAll(true, c, w, batch), Fresh(c, w.seen, batch), |batch|)
    decreases |batch|
  {
    if batch != [] {
      var m := Settle(true, c, w, batch[0]);
      SettleOneBooked(c, w, batch[0]);
      FreshSplit(c, true, w, batch);
      SettleAllBooked(c, m, batch[1..]);
      BookedTrans(w, m, SettleAll(true, c, m, batch[1..]), Fresh(c, w.seen, [batch[0]]),
                  Fresh(c, m.seen, batch[1..]), 1, |batch| - 1);
    }
  }

  lemma {:induction false} SettleAllMoney(c: Codec, w: World, batch: seq<Tx>, id: string)
    requires AllProper(batch) && !w.hung
    ensures MoneyBooked(w, SettleAll(true, c, w, batch), Fresh(c, w.seen, batch), id)
    decreases |batch|
  {
    if batch != [] {
      var m := Settle(true, c, w, batch[0]);
      SettleOneBooked(c, w, batch[0]);
      SettleOneMoney(c, w, batch[0], id);
      FreshSplit(c, true, w, batch);
      SettleAllMoney(c, m, batch[1..], id);
      MoneyTrans(w, m, SettleAll(true, c, m, batch[1..]), Fresh(c, w.seen, [batch[0]]), Fresh(c, m.seen, batch[1..]),
                 id);
    }
  }

  /** The report of a whole replay adds up: every transaction is counted once, the two totals make up the fresh amounts,
      and the deficit log grows by exactly the reported records. */
  lemma ReportAddsUp(c: Codec, r: Recon, l: State, wal: Store, batch: seq<Tx>)
    requires AllProper(batch)
    ensures var e := SettleAll(true, c, Opening(r, l, wal, |batch|), batch);
            && !e.hung
            && e.report.totalProcessed == e.report.successful + e.report.deficits + e.report.duplicates
            && e.report.totalReconciled + e.report.totalDeficit == SumSeq(Fresh(c, r.seen, batch), AmountOf())
            && e.report.deficits == |e.report.records|
            && e.logs == r.logs + e.report.records
  {
    SettleAllBooked(c, Opening(r, l, wal, |batch|), batch);
  }

  /** The money of a whole replay: every account ends with what it had, plus its fresh credits, minus its fresh debits,
      plus what the reserve paid in its stead; the reserve ends lower by exactly the deficits in the report. */
  lemma ReplayMoney(c: Codec, r: Recon, l: State, wal: Store, batch: seq<Tx>, id: string)
    requires AllProper(batch)
    ensures var e := SettleAll(true, c, Opening(r, l, wal, |batch|), batch);
            var news := Fresh(c, r.seen, batch);
            Wealth(e.ledger.accounts, id) == Wealth(l.accounts, id)
              + SumSeq(news, CreditTo(id)) - SumSeq(news, DebitOf(id))
              + SumSeq(e.report.records, DueOf(id))
              - (if id == RESERVE then SumSeq(e.report.records, DueAmount()) else 0)
  {
    SettleAllMoney(c, Opening(r, l, wal, |batch|), batch, id);
  }

  /** No fresh transaction of the batch draws on the account. */
  ghost predicate NotPayer(batch: seq<Tx>, id: string) {
    forall i :: 0 <= i < |batch| ==> batch[i].accountId != id
  }

  /** A merchant that pays for nothing in the batch and is not the reserve receives the full amount of each fresh
      transaction into its online balance; its other buckets do not move. */
  lemma SettleIncome(c: Codec, w: World, tx: Tx, id: string)
    requires Proper(tx) && !w.hung && tx.accountId != id && id != RESERVE
    ensures var e := Settle(true, c, w, tx);
            var a, b := Get(w.ledger.accounts, id), Get(e.ledger.accounts, id);
            b == a.(online := a.online + SumSeq(Fresh(c, w.seen, [tx]), CreditTo(id)))
  {
    SettleMoves(w.ledger, tx, id);
    SumOne(tx, CreditTo(id));
    assert Fresh(c, w.seen, [tx]) == if HashOf(c, tx) in w.seen then [] else [tx];
    assert SumSeq<Tx>([], CreditTo(id)) == 0;
  }

  lemma {:induction false} MerchantPaidInFull(c: Codec, w: World, batch: seq<Tx>, id: string)
    requires AllProper(batch) && !w.hung && NotPayer(batch, id) && id != RESERVE
    ensures var e := SettleAll(true, c, w, batch);
            var a, b := Get(w.ledger.accounts, id), Get(e.ledger.accounts, id);
            b == a.(online := a.online + SumSeq(Fresh(c, w.seen, batch), CreditTo(id)))
    decreases |batch|
  {
    if batch != [] {
      var m := Settle(true, c, w, batch[0]);
      SettleOneBooked(c, w, batch[0]);
      SettleIncome(c, w, batch[0], id);
      FreshSplit(c, true, w, batch);
      MerchantPaidInFull(c, m, batch[1..], id);
      SumSeqAppend(Fresh(c, w.seen, [batch[0]]), Fresh(c, m.seen, batch[1..]), CreditTo(id));
    }
  }

  ghost predicate DistinctHashes(c: Codec, batch: seq<Tx>) {
    forall i, j :: 0 <= i < j < |batch| ==> HashOf(c, batch[i]) != HashOf(c, batch[j])
  }

  ghost predicate Unseen(c: Codec, seen: set<string>, batch: seq<Tx>) {
    forall i :: 0 <= i < |batch| ==> HashOf(c, batch[i]) !in seen
  }

  /** Nothing is a duplicate: everything is fresh. */
  lemma {:induction false} AllFresh(c: Codec, seen: set<string>, batch: seq<Tx>)
    requires DistinctHashes(c, batch) && Unseen(c, seen, batch)
    ensures Fresh(c, seen, batch) == batch
    decreases |batch|
  {
    if batch != [] {
      var h := HashOf(c, batch[0]);
      forall i | 0 <= i < |batch[1..]| ensures HashOf(c, batch[1..][i]) !in seen + {h} {
        assert batch[1..][i] == batch[i + 1];
      }
      AllFresh(c, seen + {h}, batch[1..]);
    }
  }

  lemma {:induction false} TotalKept(useReserve: bool, c: Codec, w: World, batch: seq<Tx>)
    ensures Total(SettleAll(useReserve, c, w, batch).ledger.accounts) == Total(w.ledger.accounts)
    decreases |batch|
  {
    if batch != [] {
      SettleKeepsTotal(useReserve, w.ledger, batch[0]);
      TotalKept(useReserve, c, Settle(useReserve, c, w, batch[0]), batch[1..]);
    }
  }

  /** Settling never changes the system total, in either mode and whatever the transaction. */
  lemma SettleKeepsTotal(useReserve: bool, l: State, tx: Tx)
    ensures Total(SettleOnLedger(useReserve, l, tx).0.accounts) == Total(l.accounts)
  {
    var snap := Get(l.accounts, tx.accountId);
    CommitOfflineConserves(l, tx.accountId, tx.merchantId, tx.amount, tx.txId);
    var l0 := DoCommitOfflineAllowance(l, tx.accountId, tx.merchantId, tx.amount, tx.txId).0;
    DirectCommitConserves(l, tx.accountId, tx.merchantId, tx.amount, tx.txId);
    DirectCommitConserves(l0, tx.accountId, tx.merchantId, tx.amount, tx.txId);
    var l1 := TryCover(l, snap, tx).0;
    assert Total(l1.accounts) == Total(l.accounts);
    DeficitConserves(l1, tx.accountId, tx.merchantId, tx.amount, tx.txId);
    AbsorbKeepsTotal(l1, snap, tx);
  }

  lemma AbsorbKeepsTotal(l: State, snap: Account, tx: Tx)
    ensures Total(Absorb(l, snap, tx).0.accounts) == Total(l.accounts)
  {
    var covered := Clamp(snap.online, tx.amount);
    DirectCommitConserves(l, tx.accountId, tx.merchantId, covered, tx.txId + USER_SUFFIX);
    var l1 := if covered > 0 then DoDirectCommit(l, tx.accountId, tx.merchantId, covered, tx.txId + USER_SUFFIX).0
        else l;
    ReserveDebitConserves(l1, tx.merchantId, tx.amount - covered, tx.txId + RESERVE_SUFFIX);
  }

  lemma RearrangedBatch(c: Codec, seen: set<string>, p: seq<Tx>, q: seq<Tx>, id: string)
    requires multiset(p) == multiset(q)
    requires AllProper(p) && NotPayer(p, id) && DistinctHashes(c, p) && Unseen(c, seen, p)
    ensures AllProper(q) && NotPayer(q, id) && DistinctHashes(c, q) && Unseen(c, seen, q)
  {
    forall i | 0 <= i < |q| ensures q[i] in p { SameElements(p, q, q[i]); }
    DistinctRearranged(p, q);
    forall i, j | 0 <= i < j < |q| ensures HashOf(c, q[i]) != HashOf(c, q[j]) {
      var a :| 0 <= a < |p| && p[a] == q[i];
      var b :| 0 <= b < |p| && p[b] == q[j];
      assert a != b;
    }
  }

  /** Without any assumption on the comparator: whatever the order in which a batch of distinct new transactions is
      replayed, every pure merchant ends with the same buckets and the system with the same total. */
  lemma PayoutOrderIndependent(c: Codec, w: World, p: seq<Tx>, q: seq<Tx>, id: string)
    requires multiset(p) == multiset(q) && !w.hung && id != RESERVE
    requires AllProper(p) && NotPayer(p, id) && DistinctHashes(c, p) && Unseen(c, w.seen, p)
    ensures var d, e := SettleAll(true, c, w, p), SettleAll(true, c, w, q);
            && Get(d.ledger.accounts, id) == Get(e.ledger.accounts, id)
            && Total(d.ledger.accounts) == Total(e.ledger.accounts)
  {
    RearrangedBatch(c, w.seen, p, q, id);
    AllFresh(c, w.seen, p);
    AllFresh(c, w.seen, q);
    MerchantPaidInFull(c, w, p, id);
    MerchantPaidInFull(c, w, q, id);
    SumSeqPermutation(p, q, CreditTo(id));
    TotalKept(true, c, w, p);
    TotalKept(true, c, w, q);
  }

  lemma CoverStaysSolvent(l: State, snap: Account, tx: Tx)
    requires Solvent(l.accounts)
    ensures Solvent(TryCover(l, snap, tx).0.accounts)
  {
    CommitOfflineStaysSolvent(l, tx.accountId, tx.merchantId, tx.amount, tx.txId);
    var l0 := DoCommitOfflineAllowance(l, tx.accountId, tx.merchantId, tx.amount, tx.txId).0;
    DirectCommitStaysSolvent(l, tx.accountId, tx.merchantId, tx.amount, tx.txId);
    DirectCommitStaysSolvent(l0, tx.accountId, tx.merchantId, tx.amount, tx.txId);
  }

  lemma AbsorbStaysSolvent(l: State, snap: Account, tx: Tx)
    requires Solvent(l.accounts)
    ensures Solvent(Absorb(l, snap, tx).0.accounts)
  {
    var covered := Clamp(snap.online, tx.amount);
    DirectCommitStaysSolvent(l, tx.accountId, tx.merchantId, covered, tx.txId + USER_SUFFIX);
    var l1 := if covered > 0 then DoDirectCommit(l, tx.accountId, tx.merchantId, covered, tx.txId + USER_SUFFIX).0
        else l;
    ReserveDebitStaysSolvent(l1, tx.merchantId, tx.amount - covered, tx.txId + RESERVE_SUFFIX);
  }

  lemma SettleStaysSolvent(l: State, tx: Tx)
    requires Solvent(l.accounts)
    ensures Solvent(SettleOnLedger(true, l, tx).0.accounts)
  {
    var snap := Get(l.accounts, tx.accountId);
    CoverStaysSolvent(l, snap, tx);
    AbsorbStaysSolvent(TryCover(l, snap, tx).0, snap, tx);
  }

  /** In reserve mode no replay, of any batch whatsoever, drives a bucket below zero, the reserve's own excepted. */
  lemma {:induction false} ReplayStaysSolvent(c: Codec, w: World, batch: seq<Tx>)
    requires Solvent(w.ledger.accounts)
    ensures Solvent(SettleAll(true, c, w, batch).ledger.accounts)
    decreases |batch|
  {
    if batch != [] {
      SettleStaysSolvent(w.ledger, batch[0]);
      ReplayStaysSolvent(c, Settle(true, c, w, batch[0]), batch[1..]);
    }
  }

  /** A batch of which everything was settled before changes no balance and adds no deficit, in either mode. */
  lemma {:induction false} SecondReplayHarmless(useReserve: bool, c: Codec, w: World, batch: seq<Tx>)
    requires !w.hung && forall i :: 0 <= i < |batch| ==> HashOf(c, batch[i]) in w.seen
    ensures var e := SettleAll(useReserve, c, w, batch);
            && e.ledger == w.ledger && e.seen == w.seen && e.logs == w.logs && !e.hung
            && e.report == w.report.(duplicates := w.report.duplicates + |batch|)
    decreases |batch|
  {
    if batch != [] { SecondReplayHarmless(useReserve, c, Settle(useReserve, c, w, batch[0]), batch[1..]); }
  }
}
