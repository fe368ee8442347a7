/** The reconciler as the mutable object of the source, driving the ledger and the write-ahead log. */
module Reconcilers {
  import opened Queue
  import opened LedgerModel
  import opened Ledger
  import opened WalModel
  import opened WalStores
  import opened ReplayOrder
  import opened SettlementModel

  /** Settling the rest of the queue from `w` completes what was begun at `start`. */
  ghost predicate Resumes(useReserve: bool, c: Codec, start: World, queue: seq<Tx>, w: World, i: nat)
    requires i <= |queue|
  {
    SettleAll(useReserve, c, start, queue) == SettleAll(useReserve, c, w, queue[i..])
  }

  lemma ResumesNext(useReserve: bool, c: Codec, start: World, queue: seq<Tx>, w: World, i: nat)
    requires i < |queue| && Resumes(useReserve, c, start, queue, w, i)
    ensures Resumes(useReserve, c, start, queue, Settle(useReserve, c, w, queue[i]), i + 1)
  {
    assert queue[i..][0] == queue[i] && queue[i..][1..] == queue[i + 1..];
  }

  lemma ResumesEnd(useReserve: bool, c: Codec, start: World, queue: seq<Tx>, w: World)
    requires Resumes(useReserve, c, start, queue, w, |queue|)
    ensures SettleAll(useReserve, c, start, queue) == w
  {
  }

  lemma {:induction false} StaysHung(useReserve: bool, c: Codec, w: World, batch: seq<Tx>)
    requires w.hung
    ensures SettleAll(useReserve, c, w, batch) == w
    decreases |batch|
  {
    if batch != [] { StaysHung(useReserve, c, w, batch[1..]); }
  }

  class Reconciler {
    const ledger: ConservingLedger
    var seenHashes: set<string>
    var deficitLogs: seq<DeficitRecord>
    var useDeficitReserve: bool

    ghost function Value(): Recon
      reads this
    {
      Recon(seenHashes, deficitLogs, useDeficitReserve)
    }

    constructor (ledger: ConservingLedger)
      ensures this.ledger == ledger && Value() == Recon({}, [], false)
    {
      this.ledger := ledger;
      seenHashes, deficitLogs, useDeficitReserve := {}, [], false;
    }

    method SetUseDeficitReserve(enabled: bool)
      modifies this`useDeficitReserve
      ensures Value() == old(Value()).(useReserve := enabled)
    {
      useDeficitReserve := enabled;
    }

    /** Commits from the allowance or the online balance, going by one snapshot. */
    method Cover(snap: Account, tx: Tx) returns (covered: bool)
      requires ledger.Valid()
      modifies ledger
      ensures ledger.Valid() && (ledger.Value(), covered) == TryCover(old(ledger.Value()), snap, tx)
    {
      if snap.offline >= tx.amount {
        var out := ledger.CommitOfflineAllowance(tx.accountId, tx.merchantId, tx.amount, tx.txId);
        if out.Done? {
          return true;
        }
      }
      if snap.online >= tx.amount {
        var out := ledger.DirectCommit(tx.accountId, tx.merchantId, tx.amount, tx.txId);
        return out.Done?;
      }
      covered := false;
    }

    method ChargeReserve(snap: Account, tx: Tx) returns (v: Verdict)
      requires ledger.Valid()
      modifies ledger
      ensures ledger.Valid() && (ledger.Value(), v) == Absorb(old(ledger.Value()), snap, tx)
    {
      var customerCovered := snap.online;
      if customerCovered < 0 {
        customerCovered := 0;
      }
      if customerCovered > tx.amount {
        customerCovered := tx.amount;
      }
      var uncoveredDelta := tx.amount - customerCovered;
      if customerCovered > 0 {
        var _ := ledger.DirectCommit(tx.accountId, tx.merchantId, customerCovered, tx.txId + USER_SUFFIX);
      }
      if uncoveredDelta > 0 {
        var out := ledger.DebitDeficitReserve(tx.merchantId, uncoveredDelta, tx.txId + RESERVE_SUFFIX);
        if out.Hangs? {
          return Hung;
        }
      }
      v := Short(RecordOf(tx, snap.online, uncoveredDelta), false);
    }

    method ChargeCustomer(snap: Account, tx: Tx) returns (v: Verdict)
      requires ledger.Valid()
      modifies ledger
      ensures ledger.Valid() && (ledger.Value(), v) == Overdraw(old(ledger.Value()), snap, tx)
    {
      var deficit := tx.amount - snap.online;
      if deficit < 0 {
        deficit := tx.amount;
      }
      var out := ledger.RecordDeficit(tx.accountId, tx.merchantId, tx.amount, tx.txId);
      v := Short(RecordOf(tx, snap.online, deficit), out.Hangs?);
    }

    method SettleOne(tx: Tx) returns (v: Verdict)
      requires ledger.Valid()
      modifies ledger
      ensures ledger.Valid() && (ledger.Value(), v) == SettleOnLedger(useDeficitReserve, old(ledger.Value()), tx)
    {
      var found := ledger.GetAccount(tx.accountId);
      var snap := if found.Some? then found.value else EMPTY_ACCOUNT;
      var covered := Cover(snap, tx);
      if covered {
        return Reconciled;
      }
      if useDeficitReserve {
        v := ChargeReserve(snap, tx);
      } else {
        v := ChargeCustomer(snap, tx);
      }
    }

    /** The world as it stands, with the report so far. */
    ghost function Snapshot(store: WALStore, report: Report, hung: bool): World
      reads this, ledger, store
    {
      World(ledger.Value(), store.Value(), seenHashes, deficitLogs, report, hung)
    }

    /** One turn of the loop. */
    method Process(store: WALStore, tx: Tx, report: Report) returns (next: Report, hung: bool)
      requires ledger.Valid() && store.Valid()
      modifies this`seenHashes, this`deficitLogs, ledger, store`txMap
      ensures ledger.Valid() && store.Valid()
      ensures Snapshot(store, next, hung)
           == Settle(useDeficitReserve, store.codec, old(Snapshot(store, report, false)), tx)
    {
      next, hung := report, false;
      var hash := if tx.payloadHash == "" then ComputeHash(store.codec, tx) else tx.payloadHash;
      if hash in seenHashes {
        next := next.(duplicates := next.duplicates + 1);
        store.UpdateStatus(tx.txId, DUPLICATE);
        return;
      }
      seenHashes := seenHashes + {hash};
      var v := SettleOne(tx);
      match v
      case Reconciled =>
        next := next.(successful := next.successful + 1, totalReconciled := next.totalReconciled + tx.amount);
        store.UpdateStatus(tx.txId, RECONCILED);
      case Short(record, hangs) =>
        deficitLogs := deficitLogs + [record];
        next := next.(deficits := next.deficits + 1, totalDeficit := next.totalDeficit + tx.amount,
                      records := next.records + [record]);
        hung := hangs;
        if !hangs {
          store.UpdateStatus(tx.txId, DEFICIT);
        }
      case Hung =>
        hung := true;
    }

    /** Settles the queue in order; a replay that hangs gets no further. */
    method ProcessAll(store: WALStore, queue: seq<Tx>) returns (report: Report, hung: bool)
      requires ledger.Valid() && store.Valid()
      modifies this`seenHashes, this`deficitLogs, ledger, store`txMap
      ensures ledger.Valid() && store.Valid()
      ensures Snapshot(store, report, hung)
           == SettleAll(useDeficitReserve, store.codec, old(Snapshot(store, EmptyReport(|queue|), false)), queue)
    {
      report, hung := EmptyReport(|queue|), false;
      ghost var start := Snapshot(store, report, false);
      for i := 0 to |queue|
        invariant ledger.Valid() && store.Valid()
        invariant Resumes(useDeficitReserve, store.codec, start, queue, Snapshot(store, report, hung), i)
      {
        if hung {
          StaysHung(useDeficitReserve, store.codec, Snapshot(store, report, hung), queue[i..]);
          return;
        }
        ResumesNext(useDeficitReserve, store.codec, start, queue, Snapshot(store, report, hung), i);
        report, hung := Process(store, queue[i], report);
      }
      ResumesEnd(useDeficitReserve, store.codec, start, queue, Snapshot(store, report, hung));
    }

    /** Sorts the pending transactions and settles them in that order. */
    method Replay(store: WALStore) returns (report: Report, hung: bool)
      requires ledger.Valid() && store.Valid()
      modifies this`seenHashes, this`deficitLogs, ledger, store`txMap
      ensures ledger.Valid() && store.Valid()
      ensures Snapshot(store, report, hung)
           == SettlementModel.Replay(store.codec, old(Value()), old(ledger.Value()), old(store.Value()))
    {
      var pending := store.ReadAllPending();
      var queued := new Tx[|pending|](i requires 0 <= i < |pending| => pending[i]);
      assert queued[..] == pending;
      SortTransactionsVectorClock(queued);
      report, hung := ProcessAll(store, queued[..]);
    }
  }
}
