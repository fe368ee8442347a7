/** Whole sequential runs of the gateway through partitions: every offline authorization is settled exactly once. */
module PartitionRuns {
  import opened Queue
  import opened LedgerModel
  import opened LedgerConservation
  import opened WalModel
  import opened PayloadText
  import opened WalRecovery
  import opened WalDurability
  import opened Tournaments
  import opened ReplayOrder
  import opened SettlementModel
  import opened SettlementBooks
  import opened SettlementLog
  import opened GatewayModel
  import opened TokenTexts
  import Auth = OfflineAuth

  datatype Action =
    | Payment(req: Request, env: Surroundings)
    | NetworkChange(status: NetworkStatus)
    | ScreeningChange(enabled: bool)
    | Administer(op: Op)
    | Reconcile
    | Restart
    | ResetSpent

  /** Operations an administrator issues: opening, funding, setting an allowance aside. */
  predicate Administrative(op: Op) {
    op.CreateAccount? || op.FundAccount? || op.AllocateOfflineAllowance?
  }

  /** One step of the whole system. A restart reopens the log from its file; statuses live in memory only. */
  ghost function Next(c: Codec, g: Gateway, a: Action): Gateway {
    match a
    case Payment(req, env) => ProcessPayment(c, g, req, env).0
    case NetworkChange(status) => g.(network := status)
    case ScreeningChange(enabled) => g.(screening := enabled)
    case Administer(op) => if Administrative(op) then g.(ledger := Step(g.ledger, op).0) else g
    case Reconcile => TriggerReconciliation(c, g).0
    case Restart => g.(wal := Recover(c, g.wal.file))
    case ResetSpent => g.(auth := g.auth.(spent := map[]))
  }

  ghost function RunFrom(c: Codec, g: Gateway, acts: seq<Action>): Gateway
    decreases |acts|
  {
    if acts == [] then g else RunFrom(c, Next(c, g, acts[0]), acts[1..])
  }

  /** The authorizer's answer to a request that reaches it. */
  function Asked(g: Gateway, req: Request, token: Token, env: Surroundings): (Auth.Authorizer, Auth.Decision) {
    Auth.Authorize(g.auth, token, req.amount, Auth.Checks(env.tokenRevoked, env.tokenGenuine, env.seconds))
  }

  /** The request reaches the edge authorizer and is granted. */
  predicate ReachesLog(g: Gateway, req: Request, env: Surroundings) {
    && !Cached(g, req) && env.dynamicQrValid && g.network.Disconnected? && req.token.Some?
    && Asked(g, Completed(req, env), req.token.value, env).1.Granted?
  }

  function QueuedBy(c: Codec, g: Gateway, req: Request, env: Surroundings): Tx
    requires ReachesLog(g, req, env)
  {
    Queued(c, Completed(req, env), req.token.value, Asked(g, Completed(req, env), req.token.value, env).1.sequenceNum)
  }

  /** The records on disk after one step. */
  ghost function Recorded(c: Codec, g: Gateway, recs: seq<Rec>, a: Action): seq<Rec> {
    if a.Payment? && ReachesLog(g, a.req, a.env) then Written(c, g.wal, recs, Appended(QueuedBy(c, g, a.req, a.env)))
    else recs
  }

  ghost function RecordedRun(c: Codec, g: Gateway, recs: seq<Rec>, acts: seq<Action>): seq<Rec>
    decreases |acts|
  {
    if acts == [] then recs else RecordedRun(c, Next(c, g, acts[0]), Recorded(c, g, recs, acts[0]), acts[1..])
  }

  /** The transactions a step settles on the ledger: the fresh ones of a replay. */
  ghost function SettledBy(c: Codec, g: Gateway, a: Action): seq<Tx> {
    if a.Reconcile? then Fresh(c, g.recon.seen, ReplayQueue(g.wal)) else []
  }

  ghost function SettledRun(c: Codec, g: Gateway, acts: seq<Action>): seq<Tx>
    decreases |acts|
  {
    if acts == [] then [] else SettledBy(c, g, acts[0]) + SettledRun(c, Next(c, g, acts[0]), acts[1..])
  }

  /** The request pays nothing to the reserve. */
  predicate ProperRequest(req: Request) {
    req.amount > 0 ==> req.merchantId != RESERVE
  }

  /** The request is granted under an id that is new to the log. */
  predicate Enqueues(g: Gateway, req: Request, env: Surroundings) {
    ReachesLog(g, req, env) && Completed(req, env).txId !in g.wal.txMap
  }

  /** What the step adds to the log, if anything, is small enough for it and pays nothing to the reserve. */
  ghost predicate Admissible(c: Codec, g: Gateway, a: Action) {
    match a
    case Payment(req, env) =>
      Enqueues(g, req, env) ==> ProperRequest(req) && |c.encode(QueuedBy(c, g, req, env))| < U32 - HEADER
    case Administer(op) => Prudent(op)
    case _ => true
  }

  /** Every step of the run is admissible where it is taken. */
  ghost predicate AllAdmissible(c: Codec, g: Gateway, acts: seq<Action>)
    decreases |acts|
  {
    acts == [] || (Admissible(c, g, acts[0]) && AllAdmissible(c, Next(c, g, acts[0]), acts[1..]))
  }

  lemma AdmissibleHead(c: Codec, g: Gateway, acts: seq<Action>)
    requires acts != [] && AllAdmissible(c, g, acts)
    ensures Admissible(c, g, acts[0]) && AllAdmissible(c, Next(c, g, acts[0]), acts[1..])
  {
  }

  /** A record as the gateway queues it. */
  ghost predicate AsQueued(c: Codec, tx: Tx) {
    Proper(tx) && tx.sequenceNum > 0 && tx.status == PENDING && tx.payloadHash == ComputeHash(c, tx)
  }

  /** A record is indexed as it was queued, or else it was replayed: then its hash is remembered and it is not
      pending. */
  ghost predicate Kept(txMap: map<string, Tx>, seen: set<string>, tx: Tx) {
    tx.txId in txMap && (txMap[tx.txId] == tx || (tx.payloadHash in seen && !IsPending(txMap[tx.txId])))
  }

  ghost predicate AllKept(txMap: map<string, Tx>, seen: set<string>, recs: seq<Rec>) {
    forall i :: 0 <= i < |recs| ==> Kept(txMap, seen, recs[i].tx)
  }

  ghost predicate HasHash(txs: seq<Tx>, h: string) {
    exists i :: 0 <= i < |txs| && txs[i].payloadHash == h
  }

  /** Each remembered hash stands for exactly one settled transaction, and each settled transaction for one hash. */
  ghost predicate OneEach(seen: set<string>, settled: seq<Tx>) {
    && (forall i, j :: 0 <= i < j < |settled| ==> settled[i].payloadHash != settled[j].payloadHash)
    && (forall i :: 0 <= i < |settled| ==> settled[i].payloadHash in seen)
    && (forall h :: h in seen ==> HasHash(settled, h))
  }

  ghost predicate IsRecord(recs: seq<Rec>, t: Tx) {
    exists i :: 0 <= i < |recs| && recs[i].tx == t
  }

  /** Only records are settled, and unless the log was restarted none of them is pending any more. */
  ghost predicate SettledRecords(txMap: map<string, Tx>, recs: seq<Rec>, settled: seq<Tx>, restarted: bool) {
    && (forall t :: t in settled ==> IsRecord(recs, t))
    && (!restarted ==> forall t :: t in settled ==> t.txId in txMap && !IsPending(txMap[t.txId]))
  }

  /** The index lists exactly the records, each under its own id. */
  ghost predicate Listed(st: Store, recs: seq<Rec>) {
    && st.order == Ids(recs)
    && (forall i, j :: 0 <= i < j < |recs| ==> recs[i].tx.txId != recs[j].tx.txId)
    && (forall i :: 0 <= i < |recs| ==> Indexed(st.txMap, recs[i]))
    && (forall id :: id in st.txMap ==> id in st.order)
  }

  ghost predicate AllAsQueued(c: Codec, recs: seq<Rec>) {
    forall i :: 0 <= i < |recs| ==> AsQueued(c, recs[i].tx)
  }

  /** What matters of the state for settling: the index, the hashes, the records and what was settled. */
  ghost predicate SettledOnce(c: Codec, st: Store, seen: set<string>, recs: seq<Rec>, settled: seq<Tx>,
                              restarted: bool) {
    && Listed(st, recs) && AllAsQueued(c, recs)
    && AllKept(st.txMap, seen, recs) && OneEach(seen, settled) && SettledRecords(st.txMap, recs, settled, restarted)
  }

  ghost predicate Inv(c: Codec, g: Gateway, recs: seq<Rec>, settled: seq<Tx>, restarted: bool) {
    && Mirrors(c, g.wal, recs) && g.recon.useReserve && Solvent(g.ledger.accounts)
    && SettledOnce(c, g.wal, g.recon.seen, recs, settled, restarted)
  }

  lemma MirrorsListed(c: Codec, st: Store, recs: seq<Rec>)
    requires Mirrors(c, st, recs)
    ensures Listed(st, recs)
  {
  }

  lemma QueuedAsQueued(c: Codec, g: Gateway, req: Request, env: Surroundings)
    requires Enqueues(g, req, env) && Admissible(c, g, Payment(req, env))
    ensures var tx := QueuedBy(c, g, req, env); AsQueued(c, tx) && Loggable(c, Appended(tx))
  {
  }

  lemma HashedAsQueued(c: Codec, tx: Tx)
    requires AsQueued(c, tx)
    ensures Hashed(c, tx) == tx && HashOf(c, tx) == tx.payloadHash
  {
    assert Raw(tx.(payloadHash := tx.payloadHash)) == Raw(tx);
  }

  lemma OnlineLeavesLog(g: Gateway, req: Request, env: Surroundings)
    ensures var e := PayOnline(g, req, env).0; e.recon == g.recon && e.wal == g.wal && e.auth == g.auth
  {
  }

  lemma OfflineLog(c: Codec, g: Gateway, req: Request, env: Surroundings)
    ensures var e := PayOffline(c, g, req, env).0;
            && e.recon == g.recon
            && (if req.token.Some? && Asked(g, req, req.token.value, env).1.Granted?
                then e.wal == Append(c, g.wal,
                                     Queued(c, req, req.token.value,
                                            Asked(g, req, req.token.value, env).1.sequenceNum)).0
                else e.wal == g.wal)
  {
  }

  /** The gateway as a request finds it, counted. */
  ghost function Counted(g: Gateway): Gateway {
    g.(requestCounter := g.requestCounter + 1)
  }

  /** A payment is answered from the cache, or taken to the end of its path and then remembered. */
  lemma PaymentCases(c: Codec, g: Gateway, req: Request, env: Surroundings)
    ensures var e := ProcessPayment(c, g, req, env).0;
            if Cached(g, req) then e == Counted(g)
            else var m := Pay(c, Counted(g), Completed(req, env), env).0; e == m.(idempotency := e.idempotency)
  {
  }

  lemma PayLog(c: Codec, g: Gateway, req: Request, env: Surroundings)
    ensures var e := Pay(c, g, req, env).0;
            && e.recon == g.recon
            && (if env.dynamicQrValid && g.network.Disconnected? && req.token.Some?
                && Asked(g, req, req.token.value, env).1.Granted?
                then e.wal == Append(c, g.wal,
                                     Queued(c, req, req.token.value,
                                            Asked(g, req, req.token.value, env).1.sequenceNum)).0
                else e.wal == g.wal)
  {
    OnlineLeavesLog(g, req, env);
    OfflineLog(c, g, req, env);
  }

  /** What a payment does to the log. */
  lemma PaymentLog(c: Codec, g: Gateway, req: Request, env: Surroundings)
    ensures var e := ProcessPayment(c, g, req, env).0;
            && e.recon == g.recon
            && (if ReachesLog(g, req, env) then e.wal == Append(c, g.wal, QueuedBy(c, g, req, env)).0
                else e.wal == g.wal)
  {
    PaymentCases(c, g, req, env);
    PayLog(c, Counted(g), Completed(req, env), env);
  }

  /** How a payment changes the authorizer. */
  lemma PaymentAuth(c: Codec, g: Gateway, req: Request, env: Surroundings)
    ensures var e := ProcessPayment(c, g, req, env).0;
            e.auth == if ReachesLog(g, req, env) then Asked(g, Completed(req, env), req.token.value, env).0 else g.auth
  {
  }

  lemma NewKept(c: Codec, st: Store, seen: set<string>, recs: seq<Rec>, settled: seq<Tx>, restarted: bool, r: Rec)
    requires SettledOnce(c, st, seen, recs, settled, restarted) && AsQueued(c, r.tx) && r.tx.txId !in st.txMap
    ensures AllKept(st.txMap[r.tx.txId := r.tx], seen, recs + [r]) && AllAsQueued(c, recs + [r])
    ensures SettledRecords(st.txMap[r.tx.txId := r.tx], recs + [r], settled, restarted)
  {
    var all, m := recs + [r], st.txMap[r.tx.txId := r.tx];
    forall i | 0 <= i < |all| ensures Kept(m, seen, all[i].tx) && AsQueued(c, all[i].tx) {
      if i < |recs| { assert Kept(st.txMap, seen, recs[i].tx) && AsQueued(c, recs[i].tx); }
    }
    forall t | t in settled ensures IsRecord(all, t) {
      assert IsRecord(recs, t);
      var i :| 0 <= i < |recs| && recs[i].tx == t;
      assert all[i].tx == t;
    }
  }

  /** Queueing a new transaction: unsettled, pending, and nobody else's business. */
  lemma QueueKeepsInv(c: Codec, g: Gateway, e: Gateway, recs: seq<Rec>, settled: seq<Tx>, restarted: bool, tx: Tx)
    requires Inv(c, g, recs, settled, restarted) && |recs| + 1 < U64 && tx.txId !in g.wal.txMap
    requires AsQueued(c, tx) && Loggable(c, Appended(tx))
    requires e.recon == g.recon && Solvent(e.ledger.accounts) && e.wal == Append(c, g.wal, tx).0
    ensures Inv(c, e, Written(c, g.wal, recs, Appended(tx)), settled, restarted)
  {
    HashedAsQueued(c, tx);
    AppendMirrors(c, g.wal, recs, tx);
    var all := Written(c, g.wal, recs, Appended(tx));
    MirrorsListed(c, e.wal, all);
    NewKept(c, g.wal, g.recon.seen, recs, settled, restarted, NextRec(c, g.wal, tx));
  }

  /** A step that leaves log and reconciler alone keeps the invariant as long as the ledger stays solvent. */
  lemma OtherKeepsInv(c: Codec, g: Gateway, e: Gateway, recs: seq<Rec>, settled: seq<Tx>, restarted: bool)
    requires Inv(c, g, recs, settled, restarted)
    requires e.wal == g.wal && e.recon == g.recon && Solvent(e.ledger.accounts)
    ensures Inv(c, e, recs, settled, restarted)
  {
  }

  /** A payment leaves every bucket but the reserve's non-negative. */
  lemma PaymentStaysSolvent(c: Codec, g: Gateway, req: Request, env: Surroundings)
    requires Solvent(g.ledger.accounts)
    ensures Solvent(ProcessPayment(c, g, req, env).0.ledger.accounts)
  {
    var full := Completed(req, env);
    var e := ProcessPayment(c, g, req, env).0;
    if e.ledger != g.ledger {
      LedgerPaymentSolvent(g.ledger, full);
      assert e.ledger == PayFromLedger(g.ledger, full).0;
    }
  }

  lemma LedgerPaymentSolvent(l: State, req: Request)
    requires Solvent(l.accounts)
    ensures Solvent(PayFromLedger(l, req).0.accounts)
  {
    if req.amount <= 0 { return; }
    StepStaysSolvent(l, ReserveFunds(req.accountId, req.amount, req.txId));
    var l1 := DoReserveFunds(l, req.accountId, req.amount, req.txId).0;
    CommitHoldStaysSolvent(l1, req.accountId, req.merchantId, req.amount, req.txId);
    var l2 := DoCommitHold(l1, req.accountId, req.merchantId, req.amount, req.txId).0;
    StepStaysSolvent(l2, ReleaseHold(req.accountId, req.amount, req.txId));
  }

  lemma PaymentKeepsInv(c: Codec, g: Gateway, recs: seq<Rec>, settled: seq<Tx>, restarted: bool, req: Request,
                        env: Surroundings)
    requires Inv(c, g, recs, settled, restarted) && |Recorded(c, g, recs, Payment(req, env))| < U64
    requires Admissible(c, g, Payment(req, env))
    ensures Inv(c, ProcessPayment(c, g, req, env).0, Recorded(c, g, recs, Payment(req, env)), settled, restarted)
  {
    PaymentLog(c, g, req, env);
    PaymentStaysSolvent(c, g, req, env);
    var e := ProcessPayment(c, g, req, env).0;
    if Enqueues(g, req, env) {
      QueuedAsQueued(c, g, req, env);
      QueueKeepsInv(c, g, e, recs, settled, restarted, QueuedBy(c, g, req, env));
    } else {
      OtherKeepsInv(c, g, e, recs, settled, restarted);
    }
  }

  lemma Reopening(c: Codec, st: Store, recs: seq<Rec>) returns (re: Store)
    requires Faithful(c) && Mirrors(c, st, recs)
    ensures re == Recover(c, st.file) && Mirrors(c, re, recs) && re.txMap == WalScan.LoadAll(EMPTY, recs).txMap
  {
    re := Recover(c, st.file);
    NothingEnds(c);
    assert st.file + [] == st.file;
    ReopenMirrors(c, recs, []);
    RecoverFrames(c, recs, []);
  }

  lemma RestartNext(c: Codec, g: Gateway, re: Store)
    requires re == Recover(c, g.wal.file)
    ensures Next(c, g, Restart) == g.(wal := re)
  {
  }

  lemma ReloadedKept(seen: set<string>, recs: seq<Rec>)
    requires forall a, b :: 0 <= a < b < |recs| ==> recs[a].tx.txId != recs[b].tx.txId
    ensures AllKept(WalScan.LoadAll(EMPTY, recs).txMap, seen, recs)
  {
    forall i | 0 <= i < |recs| ensures Kept(WalScan.LoadAll(EMPTY, recs).txMap, seen, recs[i].tx) {
      ReloadedEntry(recs, EMPTY, i);
    }
  }

  lemma ReloadedKeepsInv(c: Codec, g: Gateway, st: Store, recs: seq<Rec>, settled: seq<Tx>, restarted: bool)
    requires Inv(c, g, recs, settled, restarted)
    requires Mirrors(c, st, recs) && st.txMap == WalScan.LoadAll(EMPTY, recs).txMap
    ensures Inv(c, g.(wal := st), recs, settled, true)
  {
    MirrorsListed(c, st, recs);
    ReloadedKept(g.recon.seen, recs);
  }

  /** Reopening the log forgets statuses but neither records nor settled hashes. */
  lemma RestartKeepsInv(c: Codec, g: Gateway, recs: seq<Rec>, settled: seq<Tx>, restarted: bool)
    requires Faithful(c) && Inv(c, g, recs, settled, restarted) && |recs| < U64
    ensures Inv(c, Next(c, g, Restart), recs, settled, true)
  {
    var re := Reopening(c, g.wal, recs);
    ReloadedKeepsInv(c, g, re, recs, settled, restarted);
    RestartNext(c, g, re);
  }

  /** Loading distinct records indexes each as it was written. */
  lemma {:induction false} ReloadedEntry(recs: seq<Rec>, st: Store, i: nat)
    requires i < |recs| && forall a, b :: 0 <= a < b < |recs| ==> recs[a].tx.txId != recs[b].tx.txId
    ensures var m := WalScan.LoadAll(st, recs).txMap; recs[i].tx.txId in m && m[recs[i].tx.txId] == recs[i].tx
    decreases |recs|
  {
    var k := |recs| - 1;
    assert recs == recs[..k] + [recs[k]];
    LoadSnoc(st, recs[..k], recs[k]);
    if i < k { ReloadedEntry(recs[..k], st, i); }
  }

  /** The pending list holds exactly the pending entries of the listed ids. */
  lemma {:induction false} InPending(txMap: map<string, Tx>, order: seq<string>, x: Tx)
    ensures x in Pending(txMap, order)
       <==> exists i :: 0 <= i < |order| && order[i] in txMap && txMap[order[i]] == x && IsPending(x)
    decreases |order|
  {
    if order != [] {
      var k := |order| - 1;
      InPending(txMap, order[..k], x);
      if i :| 0 <= i < |order| && order[i] in txMap && txMap[order[i]] == x && IsPending(x) {
        if i < k { assert order[..k][i] == order[i]; }
      }
      if x in Pending(txMap, order[..k]) {
        var i :| 0 <= i < k && order[..k][i] in txMap && txMap[order[..k][i]] == x && IsPending(x);
        assert order[i] == order[..k][i];
      }
    }
  }

  /** Whatever is pending is a record as it was queued. */
  lemma PendingIsRecord(c: Codec, st: Store, seen: set<string>, recs: seq<Rec>, settled: seq<Tx>, restarted: bool,
                        x: Tx)
    requires SettledOnce(c, st, seen, recs, settled, restarted) && x in Pending(st.txMap, st.order)
    ensures IsRecord(recs, x)
  {
    InPending(st.txMap, st.order, x);
    var i :| 0 <= i < |st.order| && st.order[i] in st.txMap && st.txMap[st.order[i]] == x && IsPending(x);
    assert Kept(st.txMap, seen, recs[i].tx);
    assert recs[i].tx == x;
  }

  /** A record that is indexed as queued is pending. */
  lemma RecordIsPending(c: Codec, st: Store, recs: seq<Rec>, i: nat)
    requires Listed(st, recs) && AllAsQueued(c, recs) && i < |recs| && AsWritten(st, recs[i])
    ensures recs[i].tx in Pending(st.txMap, st.order)
  {
    InPending(st.txMap, st.order, recs[i].tx);
    assert AsQueued(c, recs[i].tx);
    assert st.order[i] == recs[i].tx.txId;
  }

  /** The index holds the record just as it was queued. */
  ghost predicate AsWritten(st: Store, r: Rec) {
    r.tx.txId in st.txMap && st.txMap[r.tx.txId] == r.tx
  }

  /** The queue of a replay: distinct pending records, all of them. */
  ghost predicate QueueOf(c: Codec, st: Store, recs: seq<Rec>, queue: seq<Tx>) {
    && AllProper(queue)
    && (forall i :: 0 <= i < |queue| ==> IsRecord(recs, queue[i]) && HashOf(c, queue[i]) == queue[i].payloadHash)
    && (forall i :: 0 <= i < |recs| && AsWritten(st, recs[i]) ==> recs[i].tx in queue)
  }

  lemma QueueOfReplay(c: Codec, st: Store, seen: set<string>, recs: seq<Rec>, settled: seq<Tx>, restarted: bool)
    requires SettledOnce(c, st, seen, recs, settled, restarted)
    ensures QueueOf(c, st, recs, ReplayQueue(st))
  {
    var pending, queue := Pending(st.txMap, st.order), ReplayQueue(st);
    SortContents(Before, pending);
    forall i | 0 <= i < |queue| ensures IsRecord(recs, queue[i]) {
      SameElements(pending, queue, queue[i]);
      PendingIsRecord(c, st, seen, recs, settled, restarted, queue[i]);
    }
    QueueHashes(c, recs, queue);
    forall i | 0 <= i < |recs| && AsWritten(st, recs[i]) ensures recs[i].tx in queue {
      RecordIsPending(c, st, recs, i);
      SameElements(pending, queue, recs[i].tx);
    }
  }

  /** The state after dealing with the first of a batch: settled if it is fresh. */
  lemma FreshUnfold(c: Codec, seen: set<string>, settled: seq<Tx>, batch: seq<Tx>)
    requires batch != []
    ensures var b, h, rest := batch[0], HashOf(c, batch[0]), batch[1..];
            if h in seen then
              seen + Hashes(c, batch) == seen + Hashes(c, rest) && Fresh(c, seen, batch) == Fresh(c, seen, rest)
            else
              && seen + Hashes(c, batch) == (seen + {h}) + Hashes(c, rest)
              && settled + Fresh(c, seen, batch) == (settled + [b]) + Fresh(c, seen + {h}, rest)
  {
    HashesHead(c, batch);
  }

  ghost predicate HashesStored(c: Codec, batch: seq<Tx>) {
    forall i :: 0 <= i < |batch| ==> HashOf(c, batch[i]) == batch[i].payloadHash
  }

  lemma NothingFresh(c: Codec, seen: set<string>, settled: seq<Tx>)
    ensures seen + Hashes(c, []) == seen && settled + Fresh(c, seen, []) == settled
  {
  }

  /** Settling the fresh ones of a batch and remembering all its hashes keeps one hash per settled transaction. */
  lemma {:induction false} FreshOneEach(c: Codec, seen: set<string>, settled: seq<Tx>, batch: seq<Tx>)
    requires OneEach(seen, settled) && HashesStored(c, batch)
    ensures OneEach(seen + Hashes(c, batch), settled + Fresh(c, seen, batch))
    decreases |batch|
  {
    if batch == [] {
      NothingFresh(c, seen, settled);
    } else {
      var b := batch[0];
      assert HashOf(c, b) == b.payloadHash;
      FreshUnfold(c, seen, settled, batch);
      if b.payloadHash in seen {
        FreshOneEach(c, seen, settled, batch[1..]);
      } else {
        OneMore(seen, settled, b);
        FreshOneEach(c, seen + {b.payloadHash}, settled + [b], batch[1..]);
      }
    }
  }

  lemma OneMore(seen: set<string>, settled: seq<Tx>, b: Tx)
    requires OneEach(seen, settled) && b.payloadHash !in seen
    ensures OneEach(seen + {b.payloadHash}, settled + [b])
  {
    var all := settled + [b];
    forall h | h in seen + {b.payloadHash} ensures HasHash(all, h) {
      if h in seen {
        assert HasHash(settled, h);
        var i :| 0 <= i < |settled| && settled[i].payloadHash == h;
        assert all[i].payloadHash == h;
      } else {
        assert all[|settled|].payloadHash == h;
      }
    }
  }

  lemma QueueHashes(c: Codec, recs: seq<Rec>, queue: seq<Tx>)
    requires AllAsQueued(c, recs)
    requires forall i :: 0 <= i < |queue| ==> IsRecord(recs, queue[i])
    ensures AllProper(queue)
    ensures forall i :: 0 <= i < |queue| ==> HashOf(c, queue[i]) == queue[i].payloadHash
  {
    forall i | 0 <= i < |queue| ensures AsQueued(c, queue[i]) && HashOf(c, queue[i]) == queue[i].payloadHash {
      assert IsRecord(recs, queue[i]);
      var k :| 0 <= k < |recs| && recs[k].tx == queue[i];
      assert AsQueued(c, recs[k].tx);
      HashedAsQueued(c, queue[i]);
    }
  }

  /** All a replay does to log and reconciler. */
  lemma ReconcileEffect(c: Codec, g: Gateway)
    requires g.recon.useReserve && AllProper(ReplayQueue(g.wal)) && Solvent(g.ledger.accounts)
    ensures var e := Next(c, g, Reconcile);
            var queue := ReplayQueue(g.wal);
            && Marks(g.wal, e.wal, queue) && e.recon.seen == g.recon.seen + Hashes(c, queue)
            && e.recon.useReserve && Solvent(e.ledger.accounts) && !TriggerReconciliation(c, g).2
  {
    var queue := ReplayQueue(g.wal);
    var w := Opening(g.recon, g.ledger, g.wal, |queue|);
    SettleAllMarks(c, w, queue);
    SettleAllSees(c, w, queue);
    SettleAllBooked(c, w, queue);
    ReplayStaysSolvent(c, w, queue);
  }

  /** After a replay with this queue the record's hash is remembered, and it is not pending if it was replayed. */
  lemma RecordReplayed(c: Codec, st: Store, st': Store, seen: set<string>, tx: Tx, queue: seq<Tx>)
    requires Kept(st.txMap, seen, tx) && IsPending(tx) && Marks(st, st', queue)
             && (st.txMap[tx.txId] == tx ==> tx in queue)
    requires HashOf(c, tx) == tx.payloadHash
    ensures tx.payloadHash in seen + Hashes(c, queue)
    ensures Kept(st'.txMap, seen + Hashes(c, queue), tx)
  {
    if tx in queue {
      var k :| 0 <= k < |queue| && queue[k] == tx;
      assert HashOf(c, queue[k]) in Hashes(c, queue);
      assert InBatch(queue, tx.txId);
    }
  }

  lemma {:induction false} FreshWithin(c: Codec, seen: set<string>, batch: seq<Tx>, x: Tx)
    requires x in Fresh(c, seen, batch)
    ensures x in batch
    decreases |batch|
  {
    if HashOf(c, batch[0]) in seen { FreshWithin(c, seen, batch[1..], x); }
    else if x != batch[0] { FreshWithin(c, seen + {HashOf(c, batch[0])}, batch[1..], x); }
  }

  /** What is settled are records, and a replay leaves none of them pending. */
  lemma ReplayedRecords(c: Codec, st: Store, st': Store, seen: set<string>, recs: seq<Rec>, settled: seq<Tx>,
                        restarted: bool, queue: seq<Tx>)
    requires SettledRecords(st.txMap, recs, settled, restarted) && QueueOf(c, st, recs, queue) && Marks(st, st', queue)
    requires forall i :: 0 <= i < |recs| ==> recs[i].tx.txId in st.txMap
    ensures SettledRecords(st'.txMap, recs, settled + Fresh(c, seen, queue), restarted)
  {
    forall t | t in settled + Fresh(c, seen, queue)
      ensures IsRecord(recs, t) && (!restarted ==> t.txId in st'.txMap && !IsPending(st'.txMap[t.txId]))
    {
      if t !in settled {
        FreshWithin(c, seen, queue, t);
        var k :| 0 <= k < |queue| && queue[k] == t;
        assert InBatch(queue, t.txId) && IsRecord(recs, t);
      }
    }
  }

  /** Marking statuses keeps the log in step with the disk. */
  lemma MarkedMirrors(c: Codec, a: Store, b: Store, batch: seq<Tx>, recs: seq<Rec>)
    requires Mirrors(c, a, recs) && Marks(a, b, batch)
    ensures Mirrors(c, b, recs)
  {
    forall i | 0 <= i < |recs| ensures Indexed(b.txMap, recs[i]) {
      assert Indexed(a.txMap, recs[i]);
      var id := recs[i].tx.txId;
      assert Unmarked(b.txMap[id]) == Unmarked(a.txMap[id]);
      assert b.txMap[id].(status := recs[i].tx.status) == Unmarked(b.txMap[id]).(status := recs[i].tx.status);
      assert a.txMap[id].(status := recs[i].tx.status) == Unmarked(a.txMap[id]).(status := recs[i].tx.status);
    }
  }

  lemma MarkedOnce(c: Codec, st: Store, st': Store, seen: set<string>, recs: seq<Rec>, settled: seq<Tx>,
                   restarted: bool, queue: seq<Tx>)
    requires SettledOnce(c, st, seen, recs, settled, restarted)
    requires QueueOf(c, st, recs, queue) && Marks(st, st', queue) && Listed(st', recs)
    ensures SettledOnce(c, st', seen + Hashes(c, queue), recs, settled + Fresh(c, seen, queue), restarted)
    ensures forall i :: 0 <= i < |recs| ==> recs[i].tx.payloadHash in seen + Hashes(c, queue)
  {
    forall i | 0 <= i < |recs|
      ensures Kept(st'.txMap, seen + Hashes(c, queue), recs[i].tx)
      ensures recs[i].tx.payloadHash in seen + Hashes(c, queue)
    {
      assert Kept(st.txMap, seen, recs[i].tx) && AsQueued(c, recs[i].tx);
      HashedAsQueued(c, recs[i].tx);
      assert AsWritten(st, recs[i]) ==> recs[i].tx in queue;
      RecordReplayed(c, st, st', seen, recs[i].tx, queue);
    }
    FreshOneEach(c, seen, settled, queue);
    ReplayedRecords(c, st, st', seen, recs, settled, restarted, queue);
  }

  lemma ReconcileKeepsInv(c: Codec, g: Gateway, recs: seq<Rec>, settled: seq<Tx>, restarted: bool)
    requires Inv(c, g, recs, settled, restarted)
    ensures Inv(c, Next(c, g, Reconcile), recs, settled + SettledBy(c, g, Reconcile), restarted)
    ensures !TriggerReconciliation(c, g).2
    ensures forall i :: 0 <= i < |recs| ==> recs[i].tx.payloadHash in Next(c, g, Reconcile).recon.seen
  {
    var queue := ReplayQueue(g.wal);
    QueueOfReplay(c, g.wal, g.recon.seen, recs, settled, restarted);
    ReconcileEffect(c, g);
    var e := Next(c, g, Reconcile);
    MarkedMirrors(c, g.wal, e.wal, queue, recs);
    MirrorsListed(c, e.wal, recs);
    MarkedOnce(c, g.wal, e.wal, g.recon.seen, recs, settled, restarted, queue);
  }

  /** Everything but payments, replays and restarts leaves log and reconciler alone. */
  lemma OtherNext(c: Codec, g: Gateway, recs: seq<Rec>, a: Action)
    requires !a.Payment? && !a.Reconcile? && !a.Restart? && Admissible(c, g, a) && Solvent(g.ledger.accounts)
    ensures var e := Next(c, g, a); e.wal == g.wal && e.recon == g.recon && Solvent(e.ledger.accounts)
    ensures Recorded(c, g, recs, a) == recs && SettledBy(c, g, a) == []
  {
    if a.Administer? && Administrative(a.op) { StepStaysSolvent(g.ledger, a.op); }
  }

  lemma PaymentNext(c: Codec, g: Gateway, a: Action)
    requires a.Payment?
    ensures Next(c, g, a) == ProcessPayment(c, g, a.req, a.env).0 && SettledBy(c, g, a) == []
  {
  }

  lemma RecordedGrows(c: Codec, g: Gateway, recs: seq<Rec>, a: Action)
    ensures recs <= Recorded(c, g, recs, a) && |Recorded(c, g, recs, a)| <= |recs| + 1
    ensures !a.Payment? ==> Recorded(c, g, recs, a) == recs
  {
  }

  lemma NextKeepsInv(c: Codec, g: Gateway, recs: seq<Rec>, settled: seq<Tx>, restarted: bool, a: Action)
    requires Faithful(c) && Inv(c, g, recs, settled, restarted) && |Recorded(c, g, recs, a)| < U64
             && Admissible(c, g, a)
    ensures Inv(c, Next(c, g, a), Recorded(c, g, recs, a), settled + SettledBy(c, g, a), restarted || a.Restart?)
    ensures recs <= Recorded(c, g, recs, a) && |Recorded(c, g, recs, a)| <= |recs| + 1
  {
    assert settled + [] == settled;
    RecordedGrows(c, g, recs, a);
    if a.Payment? {
      PaymentNext(c, g, a);
      PaymentKeepsInv(c, g, recs, settled, restarted, a.req, a.env);
    } else if a.Reconcile? {
      ReconcileKeepsInv(c, g, recs, settled, restarted);
    } else if a.Restart? {
      RestartKeepsInv(c, g, recs, settled, restarted);
    } else {
      OtherNext(c, g, recs, a);
      OtherKeepsInv(c, g, Next(c, g, a), recs, settled, restarted);
    }
  }

  ghost predicate Restarts(acts: seq<Action>) {
    exists i :: 0 <= i < |acts| && acts[i].Restart?
  }

  lemma RestartsHead(acts: seq<Action>)
    requires acts != []
    ensures Restarts(acts) <==> acts[0].Restart? || Restarts(acts[1..])
  {
    if Restarts(acts[1..]) {
      var i :| 0 <= i < |acts[1..]| && acts[1..][i].Restart?;
      assert acts[i + 1].Restart?;
    }
    if Restarts(acts) && !acts[0].Restart? {
      var i :| 0 <= i < |acts| && acts[i].Restart?;
      assert acts[1..][i - 1].Restart?;
    }
  }

  lemma Regroup<T>(x: seq<T>, y: seq<T>, z: seq<T>)
    ensures x + (y + z) == (x + y) + z
  {
  }

  lemma RunHead(c: Codec, g: Gateway, recs: seq<Rec>, settled: seq<Tx>, acts: seq<Action>)
    requires acts != []
    ensures var e := Next(c, g, acts[0]);
            && RunFrom(c, g, acts) == RunFrom(c, e, acts[1..])
            && RecordedRun(c, g, recs, acts) == RecordedRun(c, e, Recorded(c, g, recs, acts[0]), acts[1..])
            && settled + SettledRun(c, g, acts) == (settled + SettledBy(c, g, acts[0])) + SettledRun(c, e, acts[1..])
  {
    Regroup(settled, SettledBy(c, g, acts[0]), SettledRun(c, Next(c, g, acts[0]), acts[1..]));
  }

  lemma {:induction false} RecordedRunGrows(c: Codec, g: Gateway, recs: seq<Rec>, acts: seq<Action>)
    ensures recs <= RecordedRun(c, g, recs, acts)
    decreases |acts|
  {
    if acts != [] {
      RecordedGrows(c, g, recs, acts[0]);
      RecordedRunGrows(c, Next(c, g, acts[0]), Recorded(c, g, recs, acts[0]), acts[1..]);
    }
  }

  /** The first step of a run leaves no more records than the whole of it. */
  lemma FirstRecorded(c: Codec, g: Gateway, recs: seq<Rec>, acts: seq<Action>)
    requires acts != []
    ensures |Recorded(c, g, recs, acts[0])| <= |RecordedRun(c, g, recs, acts)|
  {
    RecordedRunGrows(c, Next(c, g, acts[0]), Recorded(c, g, recs, acts[0]), acts[1..]);
  }

  lemma {:induction false} RunKeepsInv(c: Codec, g: Gateway, recs: seq<Rec>, settled: seq<Tx>, restarted: bool,
                                       acts: seq<Action>)
    requires Faithful(c) && Inv(c, g, recs, settled, restarted) && |RecordedRun(c, g, recs, acts)| < U64
    requires AllAdmissible(c, g, acts)
    ensures Inv(c, RunFrom(c, g, acts), RecordedRun(c, g, recs, acts), settled + SettledRun(c, g, acts),
                restarted || Restarts(acts))
    decreases |acts|
  {
    if acts == [] {
      assert settled + [] == settled;
    } else {
      AdmissibleHead(c, g, acts);
      FirstRecorded(c, g, recs, acts);
      NextKeepsInv(c, g, recs, settled, restarted, acts[0]);
      RunHead(c, g, recs, settled, acts);
      RestartsHead(acts);
      RunKeepsInv(c, Next(c, g, acts[0]), Recorded(c, g, recs, acts[0]), settled + SettledBy(c, g, acts[0]),
                  restarted || acts[0].Restart?, acts[1..]);
    }
  }

  /** A gateway before its first payment: an empty log, nothing settled, no bucket overdrawn, reserve mode on. */
  ghost predicate Initial(g: Gateway) {
    g.wal == EMPTY && g.recon.seen == {} && g.recon.useReserve && Solvent(g.ledger.accounts)
  }

  lemma InitialInv(c: Codec, g: Gateway)
    requires Initial(g)
    ensures Inv(c, g, [], [], false)
  {
    assert FileOf(c, []) == [];
  }

  /** The invariant at the end of a run from an initial gateway. */
  lemma RunInv(c: Codec, g: Gateway, acts: seq<Action>)
    requires Faithful(c) && Initial(g) && AllAdmissible(c, g, acts) && |RecordedRun(c, g, [], acts)| < U64
    ensures Inv(c, RunFrom(c, g, acts), RecordedRun(c, g, [], acts), SettledRun(c, g, acts), Restarts(acts))
  {
    InitialInv(c, g);
    RunKeepsInv(c, g, [], [], false, acts);
    assert [] + SettledRun(c, g, acts) == SettledRun(c, g, acts);
  }

  /** In every sequential run of payments, network and screening changes, allocations, replays and restarts of the log,
      whatever the hash function and the transaction ids: what was accepted offline is on disk for good; nothing but
      records is settled, no two settled ones share a hash, and the hashes remembered are exactly theirs; a record whose
      hash is not remembered is pending; and unless the log was restarted, nothing settled is pending. */
  lemma NeverTwice(c: Codec, g: Gateway, acts: seq<Action>)
    requires Faithful(c) && Initial(g) && AllAdmissible(c, g, acts) && |RecordedRun(c, g, [], acts)| < U64
    ensures var e := RunFrom(c, g, acts);
            var recs := RecordedRun(c, g, [], acts);
            var settled := SettledRun(c, g, acts);
            && Mirrors(c, e.wal, recs) && Solvent(e.ledger.accounts)
            && AllKept(e.wal.txMap, e.recon.seen, recs)
            && OneEach(e.recon.seen, settled)
            && SettledRecords(e.wal.txMap, recs, settled, Restarts(acts))
  {
    RunInv(c, g, acts);
  }

  /** The records carry different hashes. */
  ghost predicate DistinctPayloads(recs: seq<Rec>) {
    forall i, j :: 0 <= i < j < |recs| ==> recs[i].tx.payloadHash != recs[j].tx.payloadHash
  }

  ghost predicate CountedOnce(recs: seq<Rec>, settled: seq<Tx>) {
    forall i :: 0 <= i < |recs| ==> multiset(settled)[recs[i].tx] == 1
  }

  /** Settled transactions with different hashes are counted at most once, and exactly once if present. */
  lemma {:induction false} HashCount(settled: seq<Tx>, x: Tx)
    requires forall i, j :: 0 <= i < j < |settled| ==> settled[i].payloadHash != settled[j].payloadHash
    ensures multiset(settled)[x] == if x in settled then 1 else 0
    decreases |settled|
  {
    if settled != [] {
      var k := |settled| - 1;
      HashCount(settled[..k], x);
      assert settled == settled[..k] + [settled[k]];
      assert forall i :: 0 <= i < k ==> settled[..k][i] != settled[k];
    }
  }

  /** A record is settled once if its hash is remembered and no other record has that hash, and not at all if its hash
      is not remembered. */
  lemma RecordCounted(seen: set<string>, recs: seq<Rec>, settled: seq<Tx>, i: nat)
    requires OneEach(seen, settled) && DistinctPayloads(recs) && i < |recs|
    requires forall t :: t in settled ==> IsRecord(recs, t)
    ensures multiset(settled)[recs[i].tx] == if recs[i].tx.payloadHash in seen then 1 else 0
  {
    var tx := recs[i].tx;
    HashCount(settled, tx);
    if tx.payloadHash in seen {
      assert HasHash(settled, tx.payloadHash);
      var k :| 0 <= k < |settled| && settled[k].payloadHash == tx.payloadHash;
      assert settled[k] in settled && IsRecord(recs, settled[k]);
      var j :| 0 <= j < |recs| && recs[j].tx == settled[k];
      assert i == j;
    }
  }

  /** Of two transactions with one hash, at most one is settled. */
  lemma OneOfTwo(settled: seq<Tx>, x: Tx, y: Tx)
    requires forall i, j :: 0 <= i < j < |settled| ==> settled[i].payloadHash != settled[j].payloadHash
    requires x.payloadHash == y.payloadHash && x != y
    ensures x !in settled || y !in settled
  {
  }

  /** With every hash remembered, all records are counted once if and only if their hashes differ. */
  lemma CountedExactly(st: Store, seen: set<string>, recs: seq<Rec>, settled: seq<Tx>)
    requires OneEach(seen, settled) && Listed(st, recs) && (forall t :: t in settled ==> IsRecord(recs, t))
    requires forall i :: 0 <= i < |recs| ==> recs[i].tx.payloadHash in seen
    ensures CountedOnce(recs, settled) <==> DistinctPayloads(recs)
  {
    if DistinctPayloads(recs) {
      forall i | 0 <= i < |recs| ensures multiset(settled)[recs[i].tx] == 1 {
        RecordCounted(seen, recs, settled, i);
      }
    } else {
      var i, j :| 0 <= i < j < |recs| && recs[i].tx.payloadHash == recs[j].tx.payloadHash;
      OneOfTwo(settled, recs[i].tx, recs[j].tx);
    }
  }

  /** From any reachable state: a replay leaves no hash unsettled, and a further one, even from a restarted log,
      changes no balance. */
  lemma ReplayCompletes(c: Codec, g: Gateway, recs: seq<Rec>, settled: seq<Tx>, restarted: bool)
    requires Faithful(c) && Inv(c, g, recs, settled, restarted) && |recs| < U64
    ensures var e := Next(c, g, Reconcile);
            && (CountedOnce(recs, settled + SettledBy(c, g, Reconcile)) <==> DistinctPayloads(recs))
            && (forall i :: 0 <= i < |recs| ==> recs[i].tx.payloadHash in e.recon.seen)
            && Next(c, e, Reconcile).ledger == e.ledger
            && Next(c, Next(c, e, Restart), Reconcile).ledger == e.ledger
  {
    var e, all := Next(c, g, Reconcile), settled + SettledBy(c, g, Reconcile);
    ReconcileKeepsInv(c, g, recs, settled, restarted);
    CountedExactly(e.wal, e.recon.seen, recs, all);
    IdleReplay(c, e, recs, all, restarted);
    IdleRestart(c, e, recs, all, restarted);
  }

  lemma RestartKeepsBooks(c: Codec, g: Gateway)
    ensures Next(c, g, Restart).ledger == g.ledger && Next(c, g, Restart).recon == g.recon
  {
  }

  lemma IdleRestart(c: Codec, g: Gateway, recs: seq<Rec>, settled: seq<Tx>, restarted: bool)
    requires Faithful(c) && Inv(c, g, recs, settled, restarted) && |recs| < U64
    requires forall i :: 0 <= i < |recs| ==> recs[i].tx.payloadHash in g.recon.seen
    ensures Next(c, Next(c, g, Restart), Reconcile).ledger == g.ledger
  {
    RestartKeepsBooks(c, g);
    RestartKeepsInv(c, g, recs, settled, restarted);
    IdleReplay(c, Next(c, g, Restart), recs, settled, true);
  }

  /** A replay at the end of any such run leaves no hash unsettled, and a second one, even from a restarted log, changes
      no balance. Every record has then been settled exactly once if and only if no two records share a hash. */
  lemma ReplaySettlesEverything(c: Codec, g: Gateway, acts: seq<Action>)
    requires Faithful(c) && Initial(g) && AllAdmissible(c, g, acts) && |RecordedRun(c, g, [], acts)| < U64
    ensures var e := RunFrom(c, g, acts);
            var recs := RecordedRun(c, g, [], acts);
            var e1 := Next(c, e, Reconcile);
            && (CountedOnce(recs, SettledRun(c, g, acts) + SettledBy(c, e, Reconcile)) <==> DistinctPayloads(recs))
            && (forall i :: 0 <= i < |recs| ==> recs[i].tx.payloadHash in e1.recon.seen)
            && Next(c, e1, Reconcile).ledger == e1.ledger
            && Next(c, Next(c, e1, Restart), Reconcile).ledger == e1.ledger
  {
    RunInv(c, g, acts);
    ReplayCompletes(c, RunFrom(c, g, acts), RecordedRun(c, g, [], acts), SettledRun(c, g, acts), Restarts(acts));
  }

  /** A replay whose whole queue was settled before leaves the ledger alone. */
  lemma HarmlessReplay(c: Codec, g: Gateway)
    requires forall i :: 0 <= i < |ReplayQueue(g.wal)| ==> HashOf(c, ReplayQueue(g.wal)[i]) in g.recon.seen
    ensures Next(c, g, Reconcile).ledger == g.ledger
  {
    var queue := ReplayQueue(g.wal);
    SecondReplayHarmless(g.recon.useReserve, c, Opening(g.recon, g.ledger, g.wal, |queue|), queue);
  }

  lemma QueueSeen(c: Codec, st: Store, seen: set<string>, recs: seq<Rec>, queue: seq<Tx>)
    requires QueueOf(c, st, recs, queue)
    requires forall i :: 0 <= i < |recs| ==> recs[i].tx.payloadHash in seen
    ensures forall i :: 0 <= i < |queue| ==> HashOf(c, queue[i]) in seen
  {
    forall i | 0 <= i < |queue| ensures HashOf(c, queue[i]) in seen {
      assert IsRecord(recs, queue[i]);
    }
  }

  /** With every record settled, a replay finds only duplicates. */
  lemma IdleReplay(c: Codec, g: Gateway, recs: seq<Rec>, settled: seq<Tx>, restarted: bool)
    requires Inv(c, g, recs, settled, restarted)
    requires forall i :: 0 <= i < |recs| ==> recs[i].tx.payloadHash in g.recon.seen
    ensures Next(c, g, Reconcile).ledger == g.ledger
  {
    QueueOfReplay(c, g.wal, g.recon.seen, recs, settled, restarted);
    QueueSeen(c, g.wal, g.recon.seen, recs, ReplayQueue(g.wal));
    HarmlessReplay(c, g);
  }

  lemma AuthorizedWhen(c: Codec, g: Gateway, req: Request, env: Surroundings)
    requires !Cached(g, req)
    ensures ProcessPayment(c, g, req, env).1.OfflineAuthorized?
       <==> ReachesLog(g, req, env) && QueuedBy(c, g, req, env).txId !in g.wal.txMap
  {
  }

  /** An offline approval is given exactly for a transaction that has just been recorded as asked. */
  lemma AuthorizedIsRecorded(c: Codec, g: Gateway, recs: seq<Rec>, req: Request, env: Surroundings)
    requires !Cached(g, req)
    ensures var full := Completed(req, env);
            var all := Recorded(c, g, recs, Payment(req, env));
            && (ProcessPayment(c, g, req, env).1.OfflineAuthorized? <==> |all| == |recs| + 1)
            && (|all| == |recs| + 1 ==>
                  && all[|recs|].tx.txId == full.txId && all[|recs|].tx.accountId == full.accountId
                  && all[|recs|].tx.merchantId == full.merchantId && all[|recs|].tx.amount == full.amount)
  {
    AuthorizedWhen(c, g, req, env);
  }

  /** The offline payments a run authorizes; an answer from the cache authorizes nothing anew. */
  ghost function Authorizations(c: Codec, g: Gateway, acts: seq<Action>): nat
    decreases |acts|
  {
    if acts == [] then 0
    else Authorizes(c, g, acts[0]) + Authorizations(c, Next(c, g, acts[0]), acts[1..])
  }

  ghost function Authorizes(c: Codec, g: Gateway, a: Action): nat {
    if a.Payment? && !Cached(g, a.req) && ProcessPayment(c, g, a.req, a.env).1.OfflineAuthorized? then 1 else 0
  }

  lemma StepAuthorized(c: Codec, g: Gateway, recs: seq<Rec>, a: Action)
    ensures |Recorded(c, g, recs, a)| == |recs| + Authorizes(c, g, a)
  {
    if a.Payment? && !Cached(g, a.req) {
      AuthorizedIsRecorded(c, g, recs, a.req, a.env);
      RecordedGrows(c, g, recs, a);
    }
  }

  /** In every run there are exactly as many records as offline payments were authorized. */
  lemma {:induction false} EveryAuthorizationRecorded(c: Codec, g: Gateway, recs: seq<Rec>, acts: seq<Action>)
    ensures |RecordedRun(c, g, recs, acts)| == |recs| + Authorizations(c, g, acts)
    decreases |acts|
  {
    if acts != [] {
      StepAuthorized(c, g, recs, acts[0]);
      EveryAuthorizationRecorded(c, Next(c, g, acts[0]), Recorded(c, g, recs, acts[0]), acts[1..]);
    }
  }

  ghost predicate Remembers(g: Gateway, key: string, resp: Response) {
    key in g.idempotency && g.idempotency[key] == resp
  }

  lemma OnlineLeavesCache(g: Gateway, req: Request, env: Surroundings)
    ensures PayOnline(g, req, env).0.idempotency == g.idempotency
  {
  }

  lemma OfflineLeavesCache(c: Codec, g: Gateway, req: Request, env: Surroundings)
    ensures PayOffline(c, g, req, env).0.idempotency == g.idempotency
  {
  }

  /** An answer once remembered is never replaced: a request with its key is answered from the cache. */
  lemma NextRemembers(c: Codec, g: Gateway, a: Action, key: string, resp: Response)
    requires key != "" && Remembers(g, key, resp)
    ensures Remembers(Next(c, g, a), key, resp)
  {
    if a.Payment? && !Cached(g, a.req) {
      var g0, full := g.(requestCounter := g.requestCounter + 1), Completed(a.req, a.env);
      OnlineLeavesCache(g0, full, a.env);
      OfflineLeavesCache(c, g0, full, a.env);
    }
  }

  lemma {:induction false} RunRemembers(c: Codec, g: Gateway, acts: seq<Action>, key: string, resp: Response)
    requires key != "" && Remembers(g, key, resp)
    ensures Remembers(RunFrom(c, g, acts), key, resp)
    decreases |acts|
  {
    if acts != [] {
      NextRemembers(c, g, acts[0], key, resp);
      RunRemembers(c, Next(c, g, acts[0]), acts[1..], key, resp);
    }
  }

  /** However much later a request with a used idempotency key comes, whatever it asks for and whatever happened in
      between, it gets the first answer and changes nothing but the count of requests. */
  lemma RepeatMovesNothing(c: Codec, g: Gateway, req: Request, env: Surroundings, acts: seq<Action>, again: Request,
                           env2: Surroundings)
    requires req.idempotencyKey != "" && again.idempotencyKey == req.idempotencyKey
    ensures var (e, resp) := ProcessPayment(c, g, req, env);
            var later := RunFrom(c, e, acts);
            ProcessPayment(c, later, again, env2) == (later.(requestCounter := later.requestCounter + 1), resp)
  {
    var (e, resp) := ProcessPayment(c, g, req, env);
    RunRemembers(c, e, acts, req.idempotencyKey, resp);
  }
}
