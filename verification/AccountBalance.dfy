/** Whole runs seen from any account, payer, merchant or reserve: where its money came from and where it went. */
module AccountBalances {
  import opened Sums
  import opened Queue
  import opened LedgerModel
  import opened LedgerConservation
  import opened WalModel
  import opened SettlementModel
  import opened SettlementBooks
  import opened GatewayModel
  import opened PartitionRuns
  import opened MerchantIncome

  ghost function DrawnOn(id: string): Request -> int {
    (req: Request) => if req.accountId == id then req.amount else 0
  }

  /** All buckets of an account together. */
  function Holdings(m: Accounts, id: string): int {
    Wealth(m, id) + Get(m, id).reserved
  }

  /** What an account would hold, all buckets together, had the reserve never stepped in for anybody. */
  ghost function Standing(accounts: Accounts, logs: seq<DeficitRecord>, id: string): int {
    Holdings(accounts, id) - Aid(logs, id, id == RESERVE)
  }

  /** What the reserve paid in the account's stead; for the reserve, less all it paid. */
  ghost function Aid(logs: seq<DeficitRecord>, id: string, isReserve: bool): int {
    SumSeq(logs, DueOf(id)) - (if isReserve then SumSeq(logs, DueAmount()) else 0)
  }

  /** The money an administrator's step brings in from outside for this account. */
  ghost function BroughtBy(g: Gateway, a: Action, id: string): int {
    if a.Administer? && Administrative(a.op) && a.op.id == id then Minted(g.ledger, a.op) else 0
  }

  ghost function BroughtRun(c: Codec, g: Gateway, acts: seq<Action>, id: string): int
    decreases |acts|
  {
    if acts == [] then 0 else BroughtBy(g, acts[0], id) + BroughtRun(c, Next(c, g, acts[0]), acts[1..], id)
  }

  /** Settled credits less settled debits, approved receipts less approved payments. */
  ghost function Flow(settled: seq<Tx>, approved: seq<Request>, id: string): int {
    SumSeq(settled, CreditTo(id)) - SumSeq(settled, DebitOf(id)) + SumSeq(approved, AskedFor(id))
        - SumSeq(approved, DrawnOn(id))
  }

  lemma FlowAppend(s1: seq<Tx>, r1: seq<Request>, s2: seq<Tx>, r2: seq<Request>, id: string)
    ensures Flow(s1 + s2, r1 + r2, id) == Flow(s1, r1, id) + Flow(s2, r2, id)
  {
    SumSeqAppend(s1, s2, CreditTo(id));
    SumSeqAppend(s1, s2, DebitOf(id));
    SumSeqAppend(r1, r2, AskedFor(id));
    SumSeqAppend(r1, r2, DrawnOn(id));
  }

  lemma NoFlow(id: string)
    ensures Flow([], [], id) == 0
  {
  }

  /** An online payment moves the amount from payer to merchant if it is approved and nothing otherwise. */
  lemma LedgerPaymentMoves(l: State, req: Request, id: string)
    ensures var (e, resp) := PayFromLedger(l, req);
            Holdings(e.accounts, id) == Holdings(l.accounts, id)
              + (if resp.Approved? then (if req.merchantId == id then req.amount else 0)
                 - (if req.accountId == id then req.amount else 0)
                 else 0)
  {
  }

  lemma OneApproved(req: Request, id: string)
    ensures Flow([], [req], id) == AskedFor(id)(req) - DrawnOn(id)(req)
  {
    SumOne(req, AskedFor(id));
    SumOne(req, DrawnOn(id));
  }

  lemma PaymentMoves(c: Codec, g: Gateway, req: Request, env: Surroundings, id: string)
    ensures Holdings(ProcessPayment(c, g, req, env).0.ledger.accounts, id)
         == Holdings(g.ledger.accounts, id) + Flow([], ApprovedBy(c, g, Payment(req, env)), id)
  {
    PaymentLedger(c, g, req, env);
    NoFlow(id);
    OneApproved(req, id);
    var full := Completed(req, env);
    assert full.accountId == req.accountId && full.merchantId == req.merchantId && full.amount == req.amount;
    LedgerPaymentMoves(g.ledger, full, id);
  }

  lemma AidAppend(logs: seq<DeficitRecord>, more: seq<DeficitRecord>, id: string, isReserve: bool)
    ensures Aid(logs + more, id, isReserve) == Aid(logs, id, isReserve) + Aid(more, id, isReserve)
  {
    SumSeqAppend(logs, more, DueOf(id));
    SumSeqAppend(logs, more, DueAmount());
  }

  lemma ReplayMoves(c: Codec, r: Recon, l: State, wal: Store, queue: seq<Tx>, id: string)
    requires AllProper(queue)
    ensures var e := SettleAll(true, c, Opening(r, l, wal, |queue|), queue);
            Standing(e.ledger.accounts, e.logs, id)
                == Standing(l.accounts, r.logs, id) + Flow(Fresh(c, r.seen, queue), [], id)
  {
    var w := Opening(r, l, wal, |queue|);
    var e := SettleAll(true, c, w, queue);
    SettleAllMoney(c, w, queue, id);
    SettleAllBooked(c, w, queue);
    AidAppend(r.logs, e.report.records, id, id == RESERVE);
  }

  lemma ReconcileMoves(c: Codec, g: Gateway, id: string)
    requires g.recon.useReserve && AllProper(ReplayQueue(g.wal))
    ensures var e := Next(c, g, Reconcile);
            Standing(e.ledger.accounts, e.recon.logs, id)
            == Standing(g.ledger.accounts, g.recon.logs, id) + Flow(SettledBy(c, g, Reconcile), [], id)
  {
    ReplayMoves(c, g.recon, g.ledger, g.wal, ReplayQueue(g.wal), id);
  }

  lemma AdministerMoves(l: State, op: Op, id: string)
    requires Administrative(op)
    ensures Holdings(Step(l, op).0.accounts, id)
            == Holdings(l.accounts, id) + (if op.id == id then Minted(l, op) else 0)
  {
  }

  lemma OtherMoves(c: Codec, g: Gateway, a: Action, id: string)
    requires !a.Payment? && !a.Reconcile?
    ensures var e := Next(c, g, a);
            && e.recon == g.recon && Holdings(e.ledger.accounts, id)
               == Holdings(g.ledger.accounts, id) + BroughtBy(g, a, id)
            && SettledBy(c, g, a) == [] && ApprovedBy(c, g, a) == []
  {
    if a.Administer? && Administrative(a.op) { AdministerMoves(g.ledger, a.op, id); }
  }

  /** The account's standing changed by these settlements, approvals and deposits. */
  ghost predicate Moved(x: int, y: int, settled: seq<Tx>, approved: seq<Request>, brought: int, id: string) {
    y == x + Flow(settled, approved, id) + brought
  }

  ghost function StandingIn(g: Gateway, id: string): int {
    Standing(g.ledger.accounts, g.recon.logs, id)
  }

  lemma NextMoves(c: Codec, g: Gateway, recs: seq<Rec>, settled: seq<Tx>, restarted: bool, a: Action, id: string)
    requires Inv(c, g, recs, settled, restarted) && Admissible(c, g, a)
    ensures Moved(StandingIn(g, id), StandingIn(Next(c, g, a), id), SettledBy(c, g, a), ApprovedBy(c, g, a),
                  BroughtBy(g, a, id), id)
  {
    NoFlow(id);
    if a.Payment? {
      PaymentLog(c, g, a.req, a.env);
      PaymentMoves(c, g, a.req, a.env, id);
    } else if a.Reconcile? {
      QueueOfReplay(c, g.wal, g.recon.seen, recs, settled, restarted);
      ReconcileMoves(c, g, id);
    } else {
      OtherMoves(c, g, a, id);
    }
  }

  ghost predicate Accounted(c: Codec, g: Gateway, recs: seq<Rec>, settled: seq<Tx>, approved: seq<Request>,
                            brought: int, restarted: bool, id: string, start: int) {
    Inv(c, g, recs, settled, restarted) && Moved(start, StandingIn(g, id), settled, approved, brought, id)
  }

  lemma StepAccounted(c: Codec, g: Gateway, recs: seq<Rec>, settled: seq<Tx>, approved: seq<Request>, brought: int,
                      restarted: bool, a: Action, id: string, start: int)
    requires Faithful(c) && Accounted(c, g, recs, settled, approved, brought, restarted, id, start)
    requires |Recorded(c, g, recs, a)| < U64
    requires Admissible(c, g, a)
    ensures Accounted(c, Next(c, g, a), Recorded(c, g, recs, a), settled + SettledBy(c, g, a),
                      approved + ApprovedBy(c, g, a),
                      brought + BroughtBy(g, a, id), restarted || a.Restart?, id, start)
  {
    NextKeepsInv(c, g, recs, settled, restarted, a);
    NextMoves(c, g, recs, settled, restarted, a, id);
    FlowAppend(settled, approved, SettledBy(c, g, a), ApprovedBy(c, g, a), id);
  }

  /** The first step of a run, with all that the rest of the run needs. */
  lemma FirstStepAccounted(c: Codec, g: Gateway, recs: seq<Rec>, settled: seq<Tx>, approved: seq<Request>, brought: int,
                           restarted: bool, acts: seq<Action>, id: string, start: int)
    returns (e: Gateway, recs1: seq<Rec>, settled1: seq<Tx>, approved1: seq<Request>, brought1: int)
    requires Faithful(c) && Accounted(c, g, recs, settled, approved, brought, restarted, id, start)
    requires |RecordedRun(c, g, recs, acts)| < U64
    requires acts != [] && AllAdmissible(c, g, acts)
    ensures Accounted(c, e, recs1, settled1, approved1, brought1, restarted || acts[0].Restart?, id, start)
    ensures RecordedRun(c, g, recs, acts) == RecordedRun(c, e, recs1, acts[1..])
    ensures AllAdmissible(c, e, acts[1..]) && RunFrom(c, g, acts) == RunFrom(c, e, acts[1..])
    ensures settled + SettledRun(c, g, acts) == settled1 + SettledRun(c, e, acts[1..])
    ensures approved + ApprovedRun(c, g, acts) == approved1 + ApprovedRun(c, e, acts[1..])
    ensures brought + BroughtRun(c, g, acts, id) == brought1 + BroughtRun(c, e, acts[1..], id)
  {
    var a := acts[0];
    e, recs1, brought1 := Next(c, g, a), Recorded(c, g, recs, a), brought + BroughtBy(g, a, id);
    settled1, approved1 := settled + SettledBy(c, g, a), approved + ApprovedBy(c, g, a);
    AdmissibleHead(c, g, acts);
    FirstRecorded(c, g, recs, acts);
    StepAccounted(c, g, recs, settled, approved, brought, restarted, a, id, start);
    RunHead(c, g, recs, settled, acts);
    ApprovedHead(c, g, approved, acts);
  }

  lemma NothingMore(settled: seq<Tx>, approved: seq<Request>)
    ensures settled + [] == settled && approved + [] == approved
  {
  }

  lemma {:induction false} RunAccounted(c: Codec, g: Gateway, recs: seq<Rec>, settled: seq<Tx>, approved: seq<Request>,
                                        brought: int, restarted: bool, acts: seq<Action>, id: string, start: int)
    requires Faithful(c) && Accounted(c, g, recs, settled, approved, brought, restarted, id, start)
    requires |RecordedRun(c, g, recs, acts)| < U64
    requires AllAdmissible(c, g, acts)
    ensures Moved(start, StandingIn(RunFrom(c, g, acts), id), settled + SettledRun(c, g, acts),
                  approved + ApprovedRun(c, g, acts), brought + BroughtRun(c, g, acts, id), id)
    decreases |acts|
  {
    if acts == [] {
      NothingMore(settled, approved);
    } else {
      var e, recs1, settled1, approved1, brought1 :=
        FirstStepAccounted(c, g, recs, settled, approved, brought, restarted, acts, id, start);
      RunAccounted(c, e, recs1, settled1, approved1, brought1, restarted || acts[0].Restart?, acts[1..], id, start);
    }
  }

  lemma AccountedFromStart(c: Codec, g: Gateway, acts: seq<Action>, id: string)
    requires Faithful(c) && Inv(c, g, [], [], false) && AllAdmissible(c, g, acts) && |RecordedRun(c, g, [], acts)| < U64
    ensures Moved(StandingIn(g, id), StandingIn(RunFrom(c, g, acts), id), [] + SettledRun(c, g, acts),
                  [] + ApprovedRun(c, g, acts), 0 + BroughtRun(c, g, acts, id), id)
  {
    NoFlow(id);
    RunAccounted(c, g, [], [], [], 0, false, acts, id, StandingIn(g, id));
  }

  lemma MovedUnfolds(x: int, y: int, settled: seq<Tx>, approved: seq<Request>, brought: int, id: string)
    requires Moved(x, y, [] + settled, [] + approved, 0 + brought, id)
    ensures y == x + Flow(settled, approved, id) + brought
  {
    assert [] + settled == settled && [] + approved == approved;
  }

  /** In every run, every account ends with what it started with, plus the full amount of each offline transaction
      settled in its favour and of each payment approved to it, minus what it was charged for its own, plus what was
      brought in from outside; what the deficit log says the reserve paid in its stead is added, and the reserve
      itself is lower by all of that log. */
  lemma AccountBalance(c: Codec, g: Gateway, acts: seq<Action>, id: string)
    requires Faithful(c) && Initial(g) && AllAdmissible(c, g, acts) && |RecordedRun(c, g, [], acts)| < U64
    ensures StandingIn(RunFrom(c, g, acts), id)
         == StandingIn(g, id) + Flow(SettledRun(c, g, acts), ApprovedRun(c, g, acts), id) + BroughtRun(c, g, acts, id)
  {
    InitialInv(c, g);
    AccountedFromStart(c, g, acts, id);
    MovedUnfolds(StandingIn(g, id), StandingIn(RunFrom(c, g, acts), id), SettledRun(c, g, acts),
                 ApprovedRun(c, g, acts), BroughtRun(c, g, acts, id), id);
  }
}
