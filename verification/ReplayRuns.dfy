/** Whole runs seen from the replay queue: one terminal's payments are replayed in the order of their authorization. */
module ReplayRuns {
  import opened Queue
  import opened WalModel
  import opened WalDurability
  import opened Tournaments
  import opened ReplayOrder
  import opened LedgerModel
  import opened SettlementModel
  import opened SettlementReport
  import opened GatewayModel
  import opened PartitionRuns
  import opened OfflineCeiling

  lemma NextSequenced(c: Codec, g: Gateway, recs: seq<Rec>, a: Action)
    requires Sequenced(g, recs)
    ensures Sequenced(Next(c, g, a), Recorded(c, g, recs, a))
  {
    if a.Payment? { PaymentSequenced(c, g, recs, a.req, a.env); }
  }

  /** In every run the queued sequence numbers rise strictly. */
  lemma {:induction false} RunSequenced(c: Codec, g: Gateway, recs: seq<Rec>, acts: seq<Action>)
    requires Sequenced(g, recs)
    ensures Sequenced(RunFrom(c, g, acts), RecordedRun(c, g, recs, acts))
    decreases |acts|
  {
    if acts != [] {
      NextSequenced(c, g, recs, acts[0]);
      RunHead(c, g, recs, [], acts);
      RunSequenced(c, Next(c, g, acts[0]), Recorded(c, g, recs, acts[0]), acts[1..]);
    }
  }

  ghost predicate Rising(p: seq<Tx>) {
    forall i, j :: 0 <= i < j < |p| ==> p[i].sequenceNum < p[j].sequenceNum
  }

  ghost predicate RecordsRise(recs: seq<Rec>) {
    forall i, j :: 0 <= i < j < |recs| ==> recs[i].tx.sequenceNum < recs[j].tx.sequenceNum
  }

  /** Without clocks and with one terminal sequence number: nothing but the authorizer's numbers tells them apart. */
  predicate Bare(tx: Tx, seqNo: nat) {
    tx.vectorClock == map[] && tx.seqNo == seqNo
  }

  ghost predicate AllBare(recs: seq<Rec>, seqNo: nat) {
    forall i :: 0 <= i < |recs| ==> Bare(recs[i].tx, seqNo)
  }

  /** The pending list follows the records: the same fields but for the status, in the same order. */
  lemma {:induction false} PendingRises(txMap: map<string, Tx>, recs: seq<Rec>, seqNo: nat)
    requires AllIndexed(txMap, recs) && RecordsRise(recs) && AllBare(recs, seqNo)
    ensures var p := Pending(txMap, Ids(recs));
            && Rising(p) && (forall i :: 0 <= i < |p| ==> Bare(p[i], seqNo))
            && (recs == [] ==> p == [])
            && (recs != [] ==> forall i :: 0 <= i < |p| ==> p[i].sequenceNum <= recs[|recs| - 1].tx.sequenceNum)
    decreases |recs|
  {
    if recs != [] {
      var k := |recs| - 1;
      var init := recs[..k];
      assert Ids(recs)[..k] == Ids(init);
      assert Indexed(txMap, recs[k]);
      forall i | 0 <= i < |init| ensures Indexed(txMap, init[i]) { assert Indexed(txMap, recs[i]); }
      forall i | 0 <= i < |init| ensures Bare(init[i].tx, seqNo) { assert Bare(recs[i].tx, seqNo); }
      PendingRises(txMap, init, seqNo);
      assert Bare(recs[k].tx, seqNo);
    }
  }

  lemma NoClocksConcurrent()
    ensures !Precedes(map[], map[])
  {
  }

  lemma RisingSettled(p: seq<Tx>, seqNo: nat)
    requires Rising(p) && forall i :: 0 <= i < |p| ==> Bare(p[i], seqNo)
    ensures Sort(Before, p) == p
  {
    NoClocksConcurrent();
    forall i | 0 <= i < |p| - 1 ensures !Before(p[i + 1], p[i]) {
      assert Bare(p[i], seqNo) && Bare(p[i + 1], seqNo);
    }
    SortSettled(Before, p);
  }

  lemma IndexedReplay(st: Store, recs: seq<Rec>, seqNo: nat)
    requires st.order == Ids(recs) && AllIndexed(st.txMap, recs) && RecordsRise(recs) && AllBare(recs, seqNo)
    ensures ReplayQueue(st) == Pending(st.txMap, st.order) && Rising(ReplayQueue(st))
  {
    PendingRises(st.txMap, recs, seqNo);
    RisingSettled(Pending(st.txMap, st.order), seqNo);
  }

  /** After every run, payments without clocks and with one terminal sequence number wait in the order in which they
      were authorized, and are replayed in that order. */
  lemma ReplayInOrder(c: Codec, g: Gateway, acts: seq<Action>, seqNo: nat)
    requires Faithful(c) && Initial(g) && AllAdmissible(c, g, acts) && |RecordedRun(c, g, [], acts)| < U64
    requires AllBare(RecordedRun(c, g, [], acts), seqNo)
    ensures var st := RunFrom(c, g, acts).wal;
            ReplayQueue(st) == Pending(st.txMap, st.order) && Rising(ReplayQueue(st))
  {
    NeverTwice(c, g, acts);
    RunSequenced(c, g, [], acts);
    IndexedReplay(RunFrom(c, g, acts).wal, RecordedRun(c, g, [], acts), seqNo);
  }

  /** What waits to be replayed: the listed transactions whose status is PENDING or empty. */
  lemma QueueExactly(st: Store, x: Tx)
    ensures x in ReplayQueue(st) <==>
              exists i :: 0 <= i < |st.order| && st.order[i] in st.txMap && st.txMap[st.order[i]] == x
                          && x.status in {"PENDING", ""}
  {
    InPending(st.txMap, st.order, x);
    SortContents(Before, Pending(st.txMap, st.order));
    SameElements(Pending(st.txMap, st.order), ReplayQueue(st), x);
  }

  /** Each id is listed once and leads to a transaction of that id. */
  ghost predicate Keyed(st: Store) {
    && (forall i, j :: 0 <= i < j < |st.order| ==> st.order[i] != st.order[j])
    && (forall id :: id in st.txMap ==> st.txMap[id].txId == id)
  }

  lemma {:induction false} PendingDistinct(txMap: map<string, Tx>, order: seq<string>)
    requires Keyed(Store([], txMap, order, 0))
    ensures DistinctIds(Pending(txMap, order))
    decreases |order|
  {
    if order != [] {
      var k := |order| - 1;
      var p := Pending(txMap, order[..k]);
      assert Keyed(Store([], txMap, order[..k], 0));
      PendingDistinct(txMap, order[..k]);
      forall i | 0 <= i < |p| ensures p[i].txId != order[k] {
        InPending(txMap, order[..k], p[i]);
      }
    }
  }

  lemma QueueKeyed(st: Store)
    requires Keyed(st)
    ensures AllIn(ReplayQueue(st), st) && DistinctIds(ReplayQueue(st))
  {
    var p, q := Pending(st.txMap, st.order), ReplayQueue(st);
    assert Keyed(Store([], st.txMap, st.order, 0));
    PendingDistinct(st.txMap, st.order);
    SortContents(Before, p);
    DistinctRearranged(p, q);
    forall i | 0 <= i < |q| ensures q[i].txId in st.txMap && st.txMap[q[i].txId] == q[i] {
      SameElements(p, q, q[i]);
      InPending(st.txMap, st.order, q[i]);
    }
  }

  /** The report of every replay that comes to its end, in either mode, whatever was pending. */
  lemma ReplayReport(c: Codec, r: Recon, l: State, wal: Store)
    requires Keyed(wal) && !Replay(c, r, l, wal).hung
    ensures var queue, e := ReplayQueue(wal), Replay(c, r, l, wal);
            && Describes(e.report, queue, e.wal)
            && e.report.records == DeficitsIn(r.useReserve, c, Opening(r, l, wal, |queue|), queue)
            && e.logs == r.logs + e.report.records
  {
    QueueKeyed(wal);
    BatchReport(c, r, l, wal, ReplayQueue(wal));
  }

  lemma ListedKeyed(st: Store, recs: seq<Rec>)
    requires Listed(st, recs)
    ensures Keyed(st)
  {
    forall id | id in st.txMap ensures st.txMap[id].txId == id {
      var i :| 0 <= i < |st.order| && st.order[i] == id;
      assert Indexed(st.txMap, recs[i]);
    }
  }

  /** After every run, a replay comes to its end and its report is right. */
  lemma ReportAfterRun(c: Codec, g: Gateway, acts: seq<Action>)
    requires Faithful(c) && Initial(g) && AllAdmissible(c, g, acts) && |RecordedRun(c, g, [], acts)| < U64
    ensures var st := RunFrom(c, g, acts);
            var (e, report, hung) := TriggerReconciliation(c, st);
            !hung && Describes(report, ReplayQueue(st.wal), e.wal) && e.recon.logs == st.recon.logs + report.records
  {
    var st, recs := RunFrom(c, g, acts), RecordedRun(c, g, [], acts);
    RunInv(c, g, acts);
    ListedKeyed(st.wal, recs);
    QueueOfReplay(c, st.wal, st.recon.seen, recs, SettledRun(c, g, acts), Restarts(acts));
    ReconcileEffect(c, st);
    ReplayReport(c, st.recon, st.ledger, st.wal);
  }
}
