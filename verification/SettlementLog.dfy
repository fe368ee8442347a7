/** What a replay does to the log's statuses and to the set of settled hashes, and why arrival order does not matter. */
module SettlementLog {
  import opened Queue
  import opened LedgerModel
  import opened WalModel
  import opened Tournaments
  import opened ReplayOrder
  import opened SettlementModel
  import opened SettlementBooks

  /** The entry of an id apart from its status. */
  function Unmarked(tx: Tx): Tx {
    tx.(status := "")
  }

  ghost predicate InBatch(batch: seq<Tx>, id: string) {
    exists i :: 0 <= i < |batch| && batch[i].txId == id
  }

  /** The replayed entries are marked, all others are as they were, and nothing but statuses has changed. */
  ghost predicate Marks(before: Store, after: Store, batch: seq<Tx>) {
    && after.file == before.file && after.order == before.order && after.seqNumber == before.seqNumber
    && after.txMap.Keys == before.txMap.Keys
    && forall id :: id in before.txMap ==>
         && Unmarked(after.txMap[id]) == Unmarked(before.txMap[id])
         && (if InBatch(batch, id) then !IsPending(after.txMap[id]) else after.txMap[id] == before.txMap[id])
  }

  /** The status a transaction ends with: a duplicate, reconciled if there was something to pay and its account
      covered it, a deficit otherwise. */
  function FinalStatus(c: Codec, w: World, tx: Tx): string {
    if HashOf(c, tx) in w.seen then DUPLICATE
    else if tx.amount > 0 && Shortfall(Get(w.ledger.accounts, tx.accountId), tx.amount) == 0 then RECONCILED
    else DEFICIT
  }

  lemma SettleStatus(c: Codec, w: World, tx: Tx)
    requires Proper(tx) && !w.hung
    ensures Settle(true, c, w, tx).wal == UpdateStatus(w.wal, tx.txId, FinalStatus(c, w, tx))
  {
    SettleMoves(w.ledger, tx, "");
  }

  lemma StatusMarks(st: Store, tx: Tx, s: string)
    requires s in [RECONCILED, DEFICIT, DUPLICATE]
    ensures Marks(st, UpdateStatus(st, tx.txId, s), [tx])
  {
    assert InBatch([tx], tx.txId) by { assert [tx][0].txId == tx.txId; }
  }

  lemma SettleMarks(c: Codec, w: World, tx: Tx)
    requires Proper(tx) && !w.hung
    ensures Marks(w.wal, Settle(true, c, w, tx).wal, [tx])
  {
    SettleStatus(c, w, tx);
    StatusMarks(w.wal, tx, FinalStatus(c, w, tx));
  }

  lemma MarksTrans(a: Store, b: Store, d: Store, batch: seq<Tx>)
    requires batch != [] && Marks(a, b, [batch[0]]) && Marks(b, d, batch[1..])
    ensures Marks(a, d, batch)
  {
    forall id | id in a.txMap
      ensures Unmarked(d.txMap[id]) == Unmarked(a.txMap[id])
      ensures if InBatch(batch, id) then !IsPending(d.txMap[id]) else d.txMap[id] == a.txMap[id]
    {
      BatchHead(batch, id);
    }
  }

  lemma BatchHead(batch: seq<Tx>, id: string)
    requires batch != []
    ensures InBatch(batch, id) <==> InBatch([batch[0]], id) || InBatch(batch[1..], id)
  {
    if InBatch(batch, id) {
      var i :| 0 <= i < |batch| && batch[i].txId == id;
      if i == 0 { assert [batch[0]][0].txId == id; } else { assert batch[1..][i - 1].txId == id; }
    }
    if InBatch(batch[1..], id) {
      var i :| 0 <= i < |batch[1..]| && batch[1..][i].txId == id;
      assert batch[i + 1].txId == id;
    }
    if InBatch([batch[0]], id) { assert batch[0].txId == id; }
  }

  /** After a replay nothing of the batch is pending any more. */
  lemma {:induction false} SettleAllMarks(c: Codec, w: World, batch: seq<Tx>)
    requires AllProper(batch) && !w.hung
    ensures Marks(w.wal, SettleAll(true, c, w, batch).wal, batch)
    decreases |batch|
  {
    if batch != [] {
      var m := Settle(true, c, w, batch[0]);
      SettleMarks(c, w, batch[0]);
      SettleOneBooked(c, w, batch[0]);
      SettleAllMarks(c, m, batch[1..]);
      MarksTrans(w.wal, m.wal, SettleAll(true, c, m, batch[1..]).wal, batch);
    }
  }

  ghost function Hashes(c: Codec, batch: seq<Tx>): set<string> {
    set i | 0 <= i < |batch| :: HashOf(c, batch[i])
  }

  lemma HashesHead(c: Codec, batch: seq<Tx>)
    requires batch != []
    ensures Hashes(c, batch) == {HashOf(c, batch[0])} + Hashes(c, batch[1..])
  {
    forall h | h in Hashes(c, batch) ensures h in {HashOf(c, batch[0])} + Hashes(c, batch[1..]) {
      var i :| 0 <= i < |batch| && h == HashOf(c, batch[i]);
      if i > 0 { assert batch[1..][i - 1] == batch[i]; }
    }
    forall h | h in Hashes(c, batch[1..]) ensures h in Hashes(c, batch) {
      var i :| 0 <= i < |batch[1..]| && h == HashOf(c, batch[1..][i]);
      assert batch[i + 1] == batch[1..][i];
    }
  }

  /** Every hash of the batch is remembered, fresh or not. */
  lemma {:induction false} SettleAllSees(c: Codec, w: World, batch: seq<Tx>)
    requires AllProper(batch) && !w.hung
    ensures SettleAll(true, c, w, batch).seen == w.seen + Hashes(c, batch)
    decreases |batch|
  {
    if batch != [] {
      var m := Settle(true, c, w, batch[0]);
      SettleOneBooked(c, w, batch[0]);
      SettleSees(c, true, w, batch[0]);
      SettleAllSees(c, m, batch[1..]);
      HashesHead(c, batch);
    }
  }

  /** Two logs that hold the same pending transactions in different arrival orders. If no three of them are
      inconsistent, their replays agree in everything: balances, journal, hashes, deficits and report. */
  lemma ArrivalInvisible(c: Codec, r: Recon, l: State, wal1: Store, wal2: Store)
    requires var p, q := Pending(wal1.txMap, wal1.order), Pending(wal2.txMap, wal2.order);
             multiset(p) == multiset(q) && DistinctIds(p) && NoInconsistentTriple(p)
    ensures var d, e := Replay(c, r, l, wal1), Replay(c, r, l, wal2);
            d.ledger == e.ledger && d.seen == e.seen && d.logs == e.logs && d.report == e.report && d.hung == e.hung
  {
    var p, q := Pending(wal1.txMap, wal1.order), Pending(wal2.txMap, wal2.order);
    DeterministicExactly(p);
    assert Sort(Before, q) == Sort(Before, p);
    var queue := ReplayQueue(wal1);
    LogImmaterial(r.useReserve, c, Opening(r, l, wal1, |queue|), Opening(r, l, wal2, |queue|), queue);
  }

  ghost predicate SameBooks(d: World, e: World) {
    d.ledger == e.ledger && d.seen == e.seen && d.logs == e.logs && d.report == e.report && d.hung == e.hung
  }

  /** The log's index is written but never consulted while settling. */
  lemma {:induction false} LogImmaterial(useReserve: bool, c: Codec, d: World, e: World, batch: seq<Tx>)
    requires SameBooks(d, e)
    ensures SameBooks(SettleAll(useReserve, c, d, batch), SettleAll(useReserve, c, e, batch))
    decreases |batch|
  {
    if batch != [] {
      LogImmaterial(useReserve, c, Settle(useReserve, c, d, batch[0]), Settle(useReserve, c, e, batch[0]), batch[1..]);
    }
  }
}
