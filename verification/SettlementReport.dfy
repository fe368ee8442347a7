/** What each settlement does to the books, and what the report of a replay says about it, in both modes. */
module SettlementReport {
  import opened Sums
  import opened Queue
  import opened LedgerModel
  import opened WalModel
  import PayloadText
  import opened ReplayOrder
  import opened SettlementModel
  import opened SettlementBooks
  import opened SettlementLog

  /** Either bucket covers the whole of a positive amount. */
  predicate Covers(payer: Account, amount: int) {
    amount > 0 && (payer.offline >= amount || payer.online >= amount)
  }

  /** The part of an uncovered amount that the customer still pays in reserve mode. */
  function OwnPart(payer: Account, amount: int): int {
    if amount <= 0 then amount
    else if payer.online <= 0 then 0
    else if payer.online <= amount then payer.online
    else amount
  }

  /** The deficit that goes on record for an uncovered amount. */
  function DeficitOf(useReserve: bool, payer: Account, amount: int): int {
    if useReserve then amount - OwnPart(payer, amount)
    else if payer.online > amount then amount
    else amount - payer.online
  }

  /** The account after it lost these amounts, if it is the payer, and gained that one, if it is the payee. */
  ghost function Moved(a: Account, payer: bool, payee: bool, offline: int, online: int, gain: int): Account {
    a.(offline := a.offline - (if payer then offline else 0),
       online := a.online - (if payer then online else 0) + (if payee then gain else 0))
  }

  /** A covered transaction: taken out of the allowance if that suffices, else out of the online balance, and booked
      with one entry. */
  lemma CoveredExactly(useReserve: bool, l: State, tx: Tx, id: string)
    requires Covers(Get(l.accounts, tx.accountId), tx.amount)
    ensures var a, b := tx.accountId, tx.merchantId;
            var (n, v) := SettleOnLedger(useReserve, l, tx);
            var allowed := Get(l.accounts, a).offline >= tx.amount;
            && v == Reconciled
            && n.entries == l.entries + [Entry(|l.entries| + 1, tx.txId, EntryCommit,
                                               if allowed then a + "_OFFLINE" else a, b, tx.amount)]
            && Get(n.accounts, id) == Moved(Get(l.accounts, id), id == a, id == b, if allowed then tx.amount else 0,
                                            if allowed then 0 else tx.amount, tx.amount)
  {
  }

  /** What the journal gets in reserve mode: the customer's part, then the reserve's, each if there is any. */
  ghost function AbsorbedEntries(k: nat, tx: Tx, own: int): seq<Entry> {
    var user := Entry(k + 1, tx.txId + "-USER", EntryCommit, tx.accountId, tx.merchantId, own);
    var first := if own > 0 then [user] else [];
    first + (if tx.amount > own
             then [Entry(k + |first| + 1, tx.txId + "-RESERVE", EntryDeficit, "ACC_MERCHANT_DEFICIT_RESERVE",
                         tx.merchantId, tx.amount - own)]
             else [])
  }

  /** An uncovered transaction in reserve mode: the customer pays what is online, the reserve the rest. */
  lemma AbsorbedMoves(l: State, tx: Tx, id: string)
    requires !Covers(Get(l.accounts, tx.accountId), tx.amount) && Proper(tx)
    ensures var n := SettleOnLedger(true, l, tx).0;
            var own := OwnPart(Get(l.accounts, tx.accountId), tx.amount);
            && (tx.amount <= 0 ==> n == l)
            && (tx.amount > 0 ==>
                  Get(n.accounts, id) ==
                    Moved(Moved(Get(l.accounts, id), id == tx.accountId, id == tx.merchantId, 0, own, own),
                          id == RESERVE, id == tx.merchantId, 0, tx.amount - own, tx.amount - own))
  {
  }

  /** Both parts are booked, and the whole of it is on record. */
  lemma AbsorbedExactly(l: State, tx: Tx)
    requires !Covers(Get(l.accounts, tx.accountId), tx.amount) && Proper(tx)
    ensures var payer := Get(l.accounts, tx.accountId);
            var own := OwnPart(payer, tx.amount);
            var (n, v) := SettleOnLedger(true, l, tx);
            && v == Short(DeficitRecord(tx.txId, tx.accountId, tx.merchantId, tx.amount, payer.online, tx.amount - own),
                          false)
            && n.entries == l.entries + AbsorbedEntries(|l.entries|, tx, own)
  {
  }

  /** An uncovered transaction in legacy mode: the customer pays all of it, below zero if need be. An account that would
      pay itself is on record, but the replay never gets any further. */
  lemma OverdrawnExactly(l: State, tx: Tx, id: string)
    requires !Covers(Get(l.accounts, tx.accountId), tx.amount)
    ensures var a, b := tx.accountId, tx.merchantId;
            var payer := Get(l.accounts, a);
            var (n, v) := SettleOnLedger(false, l, tx);
            && v == Short(DeficitRecord(tx.txId, a, b, tx.amount, payer.online, DeficitOf(false, payer, tx.amount)),
                          a == b)
            && n.entries == (if a == b then l.entries
                             else l.entries + [Entry(|l.entries| + 1, tx.txId, EntryDeficit, a, b, tx.amount)])
            && Get(n.accounts, id) == Moved(Get(l.accounts, id), id == a, id == b, 0, tx.amount, tx.amount)
  {
  }

  /** The customer of a transaction, as the replay finds the account. */
  ghost function PayerOf(w: World, tx: Tx): Account {
    Get(w.ledger.accounts, tx.accountId)
  }

  /** The digest that a transaction carries or, if it carries none, has. */
  ghost function DigestOf(c: Codec, tx: Tx): string {
    if tx.payloadHash != "" then tx.payloadHash else c.sha(PayloadText.Raw(tx))
  }

  ghost predicate IsNew(c: Codec, w: World, tx: Tx) {
    DigestOf(c, tx) !in w.seen
  }

  /** The record of a transaction that fell short: its own fields, the customer's online balance before, the deficit. */
  ghost function DeficitFor(useReserve: bool, w: World, tx: Tx): DeficitRecord {
    DeficitRecord(tx.txId, tx.accountId, tx.merchantId, tx.amount, PayerOf(w, tx).online,
                  DeficitOf(useReserve, PayerOf(w, tx), tx.amount))
  }

  /** The new transactions of a batch that are covered when their turn comes, in order. */
  ghost function CoveredIn(useReserve: bool, c: Codec, w: World, batch: seq<Tx>): seq<Tx>
    decreases |batch|
  {
    if batch == [] then []
    else (if IsNew(c, w, batch[0]) && Covers(PayerOf(w, batch[0]), batch[0].amount) then [batch[0]] else [])
         + CoveredIn(useReserve, c, Settle(useReserve, c, w, batch[0]), batch[1..])
  }

  /** The new transactions of a batch that are not covered when their turn comes, in order, and their records. */
  ghost function ShortIn(useReserve: bool, c: Codec, w: World, batch: seq<Tx>): seq<Tx>
    decreases |batch|
  {
    if batch == [] then []
    else (if IsNew(c, w, batch[0]) && !Covers(PayerOf(w, batch[0]), batch[0].amount) then [batch[0]] else [])
         + ShortIn(useReserve, c, Settle(useReserve, c, w, batch[0]), batch[1..])
  }

  ghost function DeficitsIn(useReserve: bool, c: Codec, w: World, batch: seq<Tx>): seq<DeficitRecord>
    decreases |batch|
  {
    if batch == [] then []
    else (if IsNew(c, w, batch[0]) && !Covers(PayerOf(w, batch[0]), batch[0].amount)
          then [DeficitFor(useReserve, w, batch[0])] else [])
         + DeficitsIn(useReserve, c, Settle(useReserve, c, w, batch[0]), batch[1..])
  }

  ghost function RecordAmount(): DeficitRecord -> int {
    (d: DeficitRecord) => d.amount
  }

  /** The report grown by these covered transactions, these records and so many duplicates. */
  ghost function Grown(r: Report, covered: seq<Tx>, records: seq<DeficitRecord>, duplicates: nat): Report {
    Report(r.totalProcessed, r.successful + |covered|, r.deficits + |records|, r.duplicates + duplicates,
           r.totalReconciled + SumSeq(covered, AmountOf()), r.totalDeficit + SumSeq(records, RecordAmount()),
           r.records + records)
  }

  lemma GrownTwice(r: Report, c1: seq<Tx>, c2: seq<Tx>, d1: seq<DeficitRecord>, d2: seq<DeficitRecord>, j: nat, k: nat)
    ensures Grown(Grown(r, c1, d1, j), c2, d2, k) == Grown(r, c1 + c2, d1 + d2, j + k)
  {
    SumSeqAppend(c1, c2, AmountOf());
    SumSeqAppend(d1, d2, RecordAmount());
  }

  /** How report and deficit log change from one state to another. */
  ghost predicate Reports(w: World, e: World, covered: seq<Tx>, records: seq<DeficitRecord>, duplicates: nat) {
    e.report == Grown(w.report, covered, records, duplicates) && e.logs == w.logs + records
  }

  lemma ReportsTrans(w: World, m: World, e: World, c1: seq<Tx>, c2: seq<Tx>, d1: seq<DeficitRecord>,
                     d2: seq<DeficitRecord>, j: nat, k: nat)
    requires Reports(w, m, c1, d1, j) && Reports(m, e, c2, d2, k)
    ensures Reports(w, e, c1 + c2, d1 + d2, j + k)
  {
    GrownTwice(w.report, c1, c2, d1, d2, j, k);
  }

  /** How many of a batch are duplicates. */
  ghost function Repeats(c: Codec, seen: set<string>, batch: seq<Tx>): nat {
    FreshAtMost(c, seen, batch);
    |batch| - |Fresh(c, seen, batch)|
  }

  lemma {:induction false} FreshAtMost(c: Codec, seen: set<string>, batch: seq<Tx>)
    ensures |Fresh(c, seen, batch)| <= |batch|
    decreases |batch|
  {
    if batch != [] {
      FreshAtMost(c, seen, batch[1..]);
      FreshAtMost(c, seen + {HashOf(c, batch[0])}, batch[1..]);
    }
  }

  lemma RepeatsHead(useReserve: bool, c: Codec, w: World, batch: seq<Tx>)
    requires batch != [] && !w.hung
    ensures Repeats(c, w.seen, batch) == (if IsNew(c, w, batch[0]) then 0 else 1)
                                         + Repeats(c, Settle(useReserve, c, w, batch[0]).seen, batch[1..])
  {
    FreshSplit(c, useReserve, w, batch);
    assert Fresh(c, w.seen, [batch[0]]) == One(IsNew(c, w, batch[0]), batch[0]);
  }

  /** The verdict on a transaction in either mode, whatever its amount. */
  lemma VerdictExactly(useReserve: bool, w: World, tx: Tx)
    ensures var v := SettleOnLedger(useReserve, w.ledger, tx).1;
            if Covers(PayerOf(w, tx), tx.amount) then v == Reconciled
            else v.Hung? || (v.Short? && v.record == DeficitFor(useReserve, w, tx))
  {
  }

  /** The status a transaction is given, in either mode. */
  ghost function StatusOf(c: Codec, w: World, tx: Tx): string {
    if !IsNew(c, w, tx) then "DUPLICATE" else if Covers(PayerOf(w, tx), tx.amount) then "RECONCILED" else "DEFICIT"
  }

  ghost function One<T>(there: bool, x: T): seq<T> {
    if there then [x] else []
  }

  lemma EmptySums()
    ensures SumSeq<Tx>([], AmountOf()) == 0 && SumSeq<DeficitRecord>([], RecordAmount()) == 0
  {
  }

  lemma BookReports(w: World, tx: Tx, l: State, d: DeficitRecord)
    requires !w.hung
    ensures Reports(w, Book(w, tx, l, Reconciled), [tx], [], 0)
    ensures d.amount == tx.amount ==> Reports(w, Book(w, tx, l, Short(d, false)), [], [d], 0)
  {
    SumOne(tx, AmountOf());
    SumOne(d, RecordAmount());
    EmptySums();
    assert w.logs + [] == w.logs && w.report.records + [] == w.report.records;
  }

  lemma RepeatReports(w: World, e: World)
    requires e.report == w.report.(duplicates := w.report.duplicates + 1) && e.logs == w.logs
    ensures Reports(w, e, [], [], 1)
  {
    EmptySums();
    assert w.logs + [] == w.logs && w.report.records + [] == w.report.records;
  }

  lemma ReportsSame(w: World, v: World, e: World, covered: seq<Tx>, records: seq<DeficitRecord>, n: nat)
    requires Reports(v, e, covered, records, n) && v.report == w.report && v.logs == w.logs
    ensures Reports(w, e, covered, records, n)
  {
  }

  lemma SettleOneReport(useReserve: bool, c: Codec, w: World, tx: Tx)
    requires !w.hung && !Settle(useReserve, c, w, tx).hung
    ensures var e := Settle(useReserve, c, w, tx);
            var covered, short := One(StatusOf(c, w, tx) == "RECONCILED", tx),
                                  One(StatusOf(c, w, tx) == "DEFICIT", DeficitFor(useReserve, w, tx));
            && Reports(w, e, covered, short, if IsNew(c, w, tx) then 0 else 1)
            && e.wal == UpdateStatus(w.wal, tx.txId, StatusOf(c, w, tx))
            && e.seen == w.seen + {DigestOf(c, tx)}
  {
    var e := Settle(useReserve, c, w, tx);
    SettleSees(c, useReserve, w, tx);
    if IsNew(c, w, tx) {
      var (l, v) := SettleOnLedger(useReserve, w.ledger, tx);
      var seen := w.(seen := w.seen + {HashOf(c, tx)});
      VerdictExactly(useReserve, w, tx);
      BookReports(seen, tx, l, DeficitFor(useReserve, w, tx));
      if v.Reconciled? { ReportsSame(w, seen, e, [tx], [], 0); }
      else { ReportsSame(w, seen, e, [], [DeficitFor(useReserve, w, tx)], 0); }
    } else {
      RepeatReports(w, e);
    }
  }

  /** What a replay in reserve mode leaves behind when it hangs, on a shortfall owed to the reserve: the hash is
      remembered and the customer's part paid and booked, but there is no record, no status and no count. */
  lemma HungExactly(c: Codec, w: World, tx: Tx, id: string)
    requires !w.hung && IsNew(c, w, tx) && !Covers(PayerOf(w, tx), tx.amount)
    requires tx.amount > 0 && tx.merchantId == RESERVE
    ensures var e := Settle(true, c, w, tx);
            var own := OwnPart(PayerOf(w, tx), tx.amount);
            && e == World(e.ledger, w.wal, w.seen + {DigestOf(c, tx)}, w.logs, w.report, true)
            && Get(e.ledger.accounts, id)
               == Moved(Get(w.ledger.accounts, id), id == tx.accountId, id == RESERVE, 0, own, own)
            && e.ledger.entries == w.ledger.entries + AbsorbedEntries(|w.ledger.entries|, tx.(amount := own), own)
  {
  }

  lemma {:induction false} HungStays(useReserve: bool, c: Codec, w: World, batch: seq<Tx>)
    requires w.hung
    ensures SettleAll(useReserve, c, w, batch).hung
    decreases |batch|
  {
    if batch != [] { HungStays(useReserve, c, w, batch[1..]); }
  }

  lemma FirstOf(useReserve: bool, c: Codec, w: World, batch: seq<Tx>)
    requires batch != []
    ensures var m, s := Settle(useReserve, c, w, batch[0]), StatusOf(c, w, batch[0]);
            && CoveredIn(useReserve, c, w, batch)
               == One(s == "RECONCILED", batch[0]) + CoveredIn(useReserve, c, m, batch[1..])
            && ShortIn(useReserve, c, w, batch) == One(s == "DEFICIT", batch[0]) + ShortIn(useReserve, c, m, batch[1..])
            && DeficitsIn(useReserve, c, w, batch)
               == One(s == "DEFICIT", DeficitFor(useReserve, w, batch[0])) + DeficitsIn(useReserve, c, m, batch[1..])
  {
  }

  /** What a replay that comes to its end adds to the report and the log of deficits: the covered transactions, the
      records of the others, and the duplicates. */
  lemma {:induction false} ReportExactly(useReserve: bool, c: Codec, w: World, batch: seq<Tx>)
    requires !w.hung && !SettleAll(useReserve, c, w, batch).hung
    ensures Reports(w, SettleAll(useReserve, c, w, batch), CoveredIn(useReserve, c, w, batch),
                    DeficitsIn(useReserve, c, w, batch), Repeats(c, w.seen, batch))
    decreases |batch|
  {
    if batch != [] {
      var tx, rest := batch[0], batch[1..];
      var m := Settle(useReserve, c, w, tx);
      if m.hung { HungStays(useReserve, c, m, rest); }
      SettleOneReport(useReserve, c, w, tx);
      ReportExactly(useReserve, c, m, rest);
      FirstOf(useReserve, c, w, batch);
      RepeatsHead(useReserve, c, w, batch);
      ReportsTrans(w, m, SettleAll(useReserve, c, m, rest),
                   One(StatusOf(c, w, tx) == "RECONCILED", tx), CoveredIn(useReserve, c, m, rest),
                   One(StatusOf(c, w, tx) == "DEFICIT", DeficitFor(useReserve, w, tx)),
                   DeficitsIn(useReserve, c, m, rest),
                   if IsNew(c, w, tx) then 0 else 1, Repeats(c, m.seen, rest));
    }
  }

  /** The transactions of a batch that the log shows with one of these statuses, in order. */
  ghost function Marked(batch: seq<Tx>, wal: Store, ss: set<string>): seq<Tx> {
    if batch == [] then []
    else One(batch[0].txId in wal.txMap && wal.txMap[batch[0].txId].status in ss, batch[0])
         + Marked(batch[1..], wal, ss)
  }

  /** A replay leaves the entries of other transactions alone. */
  lemma {:induction false} OthersUnmarked(useReserve: bool, c: Codec, w: World, batch: seq<Tx>, id: string)
    requires id in w.wal.txMap && !InBatch(batch, id)
    ensures var e := SettleAll(useReserve, c, w, batch); id in e.wal.txMap && e.wal.txMap[id] == w.wal.txMap[id]
    decreases |batch|
  {
    if batch != [] {
      var m := Settle(useReserve, c, w, batch[0]);
      BatchHead(batch, id);
      assert [batch[0]][0].txId != id;
      OneEntry(useReserve, c, w, batch[0], id);
      OthersUnmarked(useReserve, c, m, batch[1..], id);
    }
  }

  lemma OneEntry(useReserve: bool, c: Codec, w: World, tx: Tx, id: string)
    requires id in w.wal.txMap
    ensures var e := Settle(useReserve, c, w, tx);
            id in e.wal.txMap && (tx.txId != id ==> e.wal.txMap[id] == w.wal.txMap[id])
  {
  }

  ghost predicate AllIn(batch: seq<Tx>, wal: Store) {
    forall i :: 0 <= i < |batch| ==> batch[i].txId in wal.txMap
  }

  lemma RestIn(useReserve: bool, c: Codec, w: World, batch: seq<Tx>)
    requires batch != [] && AllIn(batch, w.wal) && DistinctIds(batch)
    ensures AllIn(batch[1..], Settle(useReserve, c, w, batch[0]).wal) && DistinctIds(batch[1..])
    ensures !InBatch(batch[1..], batch[0].txId)
  {
    forall i | 0 <= i < |batch[1..]| ensures batch[1..][i].txId in Settle(useReserve, c, w, batch[0]).wal.txMap {
      OneEntry(useReserve, c, w, batch[0], batch[1..][i].txId);
    }
  }

  lemma FirstStatus(useReserve: bool, c: Codec, w: World, batch: seq<Tx>)
    requires batch != [] && AllIn(batch, w.wal) && DistinctIds(batch)
    requires !w.hung && !Settle(useReserve, c, w, batch[0]).hung
    ensures var e := SettleAll(useReserve, c, w, batch);
            batch[0].txId in e.wal.txMap && e.wal.txMap[batch[0].txId].status == StatusOf(c, w, batch[0])
  {
    var m := Settle(useReserve, c, w, batch[0]);
    RestIn(useReserve, c, w, batch);
    SettleOneReport(useReserve, c, w, batch[0]);
    OthersUnmarked(useReserve, c, m, batch[1..], batch[0].txId);
  }

  lemma MarkedHead(batch: seq<Tx>, wal: Store, s: string, ss: set<string>)
    requires batch != [] && batch[0].txId in wal.txMap && wal.txMap[batch[0].txId].status == s
    ensures Marked(batch, wal, ss) == One(s in ss, batch[0]) + Marked(batch[1..], wal, ss)
  {
  }

  /** The statuses in the log after a replay that comes to its end tell how each transaction fared: the covered ones are
      reconciled, those that fell short are deficits, and these two together are the ones not seen before. */
  lemma {:induction false} StatusesExactly(useReserve: bool, c: Codec, w: World, batch: seq<Tx>)
    requires AllIn(batch, w.wal) && DistinctIds(batch)
    requires !w.hung && !SettleAll(useReserve, c, w, batch).hung
    ensures var e := SettleAll(useReserve, c, w, batch);
            && Marked(batch, e.wal, {"RECONCILED"}) == CoveredIn(useReserve, c, w, batch)
            && Marked(batch, e.wal, {"DEFICIT"}) == ShortIn(useReserve, c, w, batch)
            && Marked(batch, e.wal, {"RECONCILED", "DEFICIT"}) == Fresh(c, w.seen, batch)
    decreases |batch|
  {
    if batch != [] {
      var m, s := Settle(useReserve, c, w, batch[0]), StatusOf(c, w, batch[0]);
      var e := SettleAll(useReserve, c, w, batch);
      if m.hung { HungStays(useReserve, c, m, batch[1..]); }
      RestIn(useReserve, c, w, batch);
      StatusesExactly(useReserve, c, m, batch[1..]);
      FirstStatus(useReserve, c, w, batch);
      MarkedHead(batch, e.wal, s, {"RECONCILED"});
      MarkedHead(batch, e.wal, s, {"DEFICIT"});
      MarkedHead(batch, e.wal, s, {"RECONCILED", "DEFICIT"});
      FirstOf(useReserve, c, w, batch);
      FreshSplit(c, useReserve, w, batch);
      assert Fresh(c, w.seen, [batch[0]]) == One(IsNew(c, w, batch[0]), batch[0]);
    }
  }

  /** The record is about the transaction. */
  predicate IsAbout(d: DeficitRecord, tx: Tx) {
    d.txId == tx.txId && d.accountId == tx.accountId && d.merchantId == tx.merchantId && d.amount == tx.amount
  }

  lemma {:induction false} DeficitsAbout(useReserve: bool, c: Codec, w: World, batch: seq<Tx>)
    ensures var ds, txs := DeficitsIn(useReserve, c, w, batch), ShortIn(useReserve, c, w, batch);
            |ds| == |txs| && forall i :: 0 <= i < |ds| ==> IsAbout(ds[i], txs[i])
    decreases |batch|
  {
    if batch != [] {
      DeficitsAbout(useReserve, c, Settle(useReserve, c, w, batch[0]), batch[1..]);
      FirstOf(useReserve, c, w, batch);
    }
  }

  lemma {:induction false} SameAmounts(ds: seq<DeficitRecord>, txs: seq<Tx>)
    requires |ds| == |txs| && forall i :: 0 <= i < |ds| ==> IsAbout(ds[i], txs[i])
    ensures SumSeq(ds, RecordAmount()) == SumSeq(txs, AmountOf())
  {
    if ds != [] {
      assert IsAbout(ds[0], txs[0]);
      SameAmounts(ds[1..], txs[1..]);
    }
  }

  lemma {:induction false} MarkedCount(batch: seq<Tx>, wal: Store, s: string, t: string)
    requires s != t
    ensures |Marked(batch, wal, {s, t})| == |Marked(batch, wal, {s})| + |Marked(batch, wal, {t})|
  {
    if batch != [] { MarkedCount(batch[1..], wal, s, t); }
  }

  /** The report of a replay of this queue as the log shows it afterwards. The amounts of the transactions whose status
      became RECONCILED make up the reconciled total. The records are those of the transactions whose status became
      DEFICIT, in order, each with its own fields, and their amounts make up the deficit total. The rest are
      duplicates. */
  ghost predicate Describes(report: Report, queue: seq<Tx>, wal: Store) {
    var done, short := Marked(queue, wal, {"RECONCILED"}), Marked(queue, wal, {"DEFICIT"});
    && report.totalProcessed == |queue|
    && report.totalReconciled == SumSeq(done, AmountOf()) && report.successful == |done|
    && report.totalDeficit == SumSeq(report.records, RecordAmount()) == SumSeq(short, AmountOf())
    && report.deficits == |report.records| == |short|
    && (forall i :: 0 <= i < |short| ==> IsAbout(report.records[i], short[i]))
    && report.duplicates == |queue| - |done| - |short|
  }

  lemma GrownDescribes(queue: seq<Tx>, wal: Store, records: seq<DeficitRecord>, duplicates: nat)
    requires duplicates == |queue| - |Marked(queue, wal, {"RECONCILED", "DEFICIT"})|
    requires |records| == |Marked(queue, wal, {"DEFICIT"})|
    requires forall i :: 0 <= i < |records| ==> IsAbout(records[i], Marked(queue, wal, {"DEFICIT"})[i])
    ensures Describes(Grown(EmptyReport(|queue|), Marked(queue, wal, {"RECONCILED"}), records, duplicates), queue, wal)
  {
    SameAmounts(records, Marked(queue, wal, {"DEFICIT"}));
    MarkedCount(queue, wal, "RECONCILED", "DEFICIT");
    assert [] + records == records;
  }

  /** The report of a batch settled to its end, in either mode. Its records carry the customer's online balance as the
      settlement found it, and the deficit of the mode; the log of deficits grows by just these. */
  lemma BatchReport(c: Codec, r: Recon, l: State, wal: Store, batch: seq<Tx>)
    requires AllIn(batch, wal) && DistinctIds(batch)
    requires !SettleAll(r.useReserve, c, Opening(r, l, wal, |batch|), batch).hung
    ensures var w := Opening(r, l, wal, |batch|);
            var e := SettleAll(r.useReserve, c, w, batch);
            && Describes(e.report, batch, e.wal)
            && e.report.records == DeficitsIn(r.useReserve, c, w, batch)
            && e.logs == r.logs + e.report.records
  {
    var w := Opening(r, l, wal, |batch|);
    var e := SettleAll(r.useReserve, c, w, batch);
    ReportExactly(r.useReserve, c, w, batch);
    StatusesExactly(r.useReserve, c, w, batch);
    DeficitsAbout(r.useReserve, c, w, batch);
    GrownDescribes(batch, e.wal, DeficitsIn(r.useReserve, c, w, batch), Repeats(c, w.seen, batch));
  }
}
