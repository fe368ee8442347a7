/** Replay of queued transactions onto the ledger: deduplicate, settle, charge shortfalls. */
module SettlementModel {
  import opened Queue
  import opened LedgerModel
  import opened WalModel
  import opened ReplayOrder
  import opened Tournaments

  datatype DeficitRecord = DeficitRecord(
    txId: string, accountId: string, merchantId: string, amount: int, availableOnCore: int, deficitAmount: int)

  datatype Report = Report(
    totalProcessed: nat, successful: nat, deficits: nat, duplicates: nat,
    totalReconciled: int, totalDeficit: int, records: seq<DeficitRecord>)

  /** Everything a replay reads and writes. `hung` marks a replay that waits for a lock it holds itself. */
  datatype World = World(
    ledger: State, wal: Store, seen: set<string>, logs: seq<DeficitRecord>, report: Report, hung: bool)

  /** How one transaction fared on the ledger. A legacy deficit is logged before the ledger is called, so it may be on
      record and yet hang. */
  datatype Verdict = Reconciled | Short(record: DeficitRecord, hangs: bool) | Hung

  function HashOf(c: Codec, tx: Tx): string {
    if tx.payloadHash == "" then ComputeHash(c, tx) else tx.payloadHash
  }

  function RecordOf(tx: Tx, available: int, deficit: int): DeficitRecord {
    DeficitRecord(tx.txId, tx.accountId, tx.merchantId, tx.amount, available, deficit)
  }

  /** The offline allowance first, then the online balance; both tests look at the same snapshot. */
  function TryCover(l: State, snap: Account, tx: Tx): (State, bool) {
    var (l1, ok1) := if snap.offline >= tx.amount
                     then var (n, out) :=
                            DoCommitOfflineAllowance(l, tx.accountId, tx.merchantId, tx.amount, tx.txId);
                          (n, out.Done?)
                     else (l, false);
    if ok1 then (l1, true)
    else if snap.online >= tx.amount
    then var (n, out) := DoDirectCommit(l1, tx.accountId, tx.merchantId, tx.amount, tx.txId); (n, out.Done?)
    else (l1, false)
  }

  /** What the customer pays of an uncovered transaction: the online balance, kept between zero and the amount. */
  function Clamp(online: int, amount: int): int {
    var floor := if online < 0 then 0 else online;
    if floor > amount then amount else floor
  }

  const USER_SUFFIX := "-USER"
  const RESERVE_SUFFIX := "-RESERVE"

  /** The customer pays what is there, the deficit reserve the rest; errors of the two commits are ignored. */
  function Absorb(l: State, snap: Account, tx: Tx): (State, Verdict) {
    var covered := Clamp(snap.online, tx.amount);
    var uncovered := tx.amount - covered;
    var l1 := if covered > 0 then DoDirectCommit(l, tx.accountId, tx.merchantId, covered, tx.txId + USER_SUFFIX).0
        else l;
    var (l2, out) := if uncovered > 0 then DoDebitDeficitReserve(l1, tx.merchantId, uncovered, tx.txId + RESERVE_SUFFIX)
                     else (l1, Done);
    (l2, if out.Hangs? then Hung else Short(RecordOf(tx, snap.online, uncovered), false))
  }

  /** Legacy mode: the customer's balance goes negative. */
  function Overdraw(l: State, snap: Account, tx: Tx): (State, Verdict) {
    var deficit := if tx.amount - snap.online < 0 then tx.amount else tx.amount - snap.online;
    var (l1, out) := DoRecordDeficit(l, tx.accountId, tx.merchantId, tx.amount, tx.txId);
    (l1, Short(RecordOf(tx, snap.online, deficit), out.Hangs?))
  }

  function SettleOnLedger(useReserve: bool, l: State, tx: Tx): (State, Verdict) {
    var snap := Get(l.accounts, tx.accountId);
    var (l1, covered) := TryCover(l, snap, tx);
    if covered then (l1, Reconciled)
    else if useReserve then Absorb(l1, snap, tx)
    else Overdraw(l1, snap, tx)
  }

  /** Books the verdict in the report, the logs and the log's status field. */
  function Book(w: World, tx: Tx, l: State, v: Verdict): World {
    match v
    case Reconciled =>
      w.(ledger := l, wal := UpdateStatus(w.wal, tx.txId, RECONCILED),
         report := w.report.(successful := w.report.successful + 1,
                             totalReconciled := w.report.totalReconciled + tx.amount))
    case Short(record, hangs) =>
      w.(ledger := l, wal := if hangs then w.wal else UpdateStatus(w.wal, tx.txId, DEFICIT),
         logs := w.logs + [record], hung := hangs,
         report := w.report.(deficits := w.report.deficits + 1, totalDeficit := w.report.totalDeficit + tx.amount,
                             records := w.report.records + [record]))
    case Hung => w.(ledger := l, hung := true)
  }

  /** One turn of the replay loop. */
  function Settle(useReserve: bool, c: Codec, w: World, tx: Tx): World {
    var h := HashOf(c, tx);
    if w.hung then w
    else if h in w.seen then
      w.(wal := UpdateStatus(w.wal, tx.txId, DUPLICATE), report := w.report.(duplicates := w.report.duplicates + 1))
    else
      var (l, v) := SettleOnLedger(useReserve, w.ledger, tx);
      Book(w.(seen := w.seen + {h}), tx, l, v)
  }

  function SettleAll(useReserve: bool, c: Codec, w: World, batch: seq<Tx>): World
    decreases |batch|
  {
    if batch == [] then w else SettleAll(useReserve, c, Settle(useReserve, c, w, batch[0]), batch[1..])
  }

  /** What survives between replays: the hashes already settled, the log of deficits, and the mode. */
  datatype Recon = Recon(seen: set<string>, logs: seq<DeficitRecord>, useReserve: bool)

  function EmptyReport(n: nat): Report {
    Report(n, 0, 0, 0, 0, 0, [])
  }

  ghost function ReplayQueue(wal: Store): seq<Tx> {
    Sort(Before, Pending(wal.txMap, wal.order))
  }

  function Opening(r: Recon, l: State, wal: Store, n: nat): World {
    World(l, wal, r.seen, r.logs, EmptyReport(n), false)
  }

  /** A whole replay: read the pending transactions, sort them, settle them one by one. */
  ghost function Replay(c: Codec, r: Recon, l: State, wal: Store): World {
    var queue := ReplayQueue(wal);
    SettleAll(r.useReserve, c, Opening(r, l, wal, |queue|), queue)
  }

  /** The transactions of a batch that are not duplicates of something settled before, in order. */
  function Fresh(c: Codec, seen: set<string>, batch: seq<Tx>): seq<Tx>
    decreases |batch|
  {
    if batch == [] then []
    else if HashOf(c, batch[0]) in seen then Fresh(c, seen, batch[1..])
    else [batch[0]] + Fresh(c, seen + {HashOf(c, batch[0])}, batch[1..])
  }
}
