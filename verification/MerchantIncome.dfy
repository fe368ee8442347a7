/** Whole runs seen from a merchant: its balance is what it was owed, no more and no less. */
module MerchantIncome {
  import opened Sums
  import opened Queue
  import opened LedgerModel
  import opened LedgerConservation
  import opened LedgerJournal
  import opened WalModel
  import opened SettlementModel
  import opened SettlementBooks
  import opened GatewayModel
  import opened PartitionRuns

  /** The request a step approves online, if any; an answer from the cache approves nothing anew. */
  ghost function ApprovedBy(c: Codec, g: Gateway, a: Action): seq<Request> {
    if a.Payment? && !Cached(g, a.req) && ProcessPayment(c, g, a.req, a.env).1.Approved? then [a.req] else []
  }

  ghost function ApprovedRun(c: Codec, g: Gateway, acts: seq<Action>): seq<Request>
    decreases |acts|
  {
    if acts == [] then [] else ApprovedBy(c, g, acts[0]) + ApprovedRun(c, Next(c, g, acts[0]), acts[1..])
  }

  ghost function AskedFor(m: string): Request -> int {
    (req: Request) => if req.merchantId == m then req.amount else 0
  }

  /** The step neither lets the merchant pay for something nor administers its account. */
  ghost predicate Passive(a: Action, m: string) {
    match a
    case Payment(req, _) => req.accountId != m
    case Administer(op) => m !in Names(op)
    case _ => true
  }

  ghost function Paid(a: Account, x: int): Account {
    a.(online := a.online + x)
  }

  lemma LedgerPaymentCredits(l: State, req: Request, m: string)
    requires Solvent(l.accounts) && req.accountId != m
    ensures var (e, resp) := PayFromLedger(l, req);
            && !resp.OfflineAuthorized?
            && Get(e.accounts, m) 
               == Paid(Get(l.accounts, m), if resp.Approved? && req.merchantId == m then req.amount else 0)
  {
    if req.accountId in l.accounts { assert SolventAccount(req.accountId, l.accounts[req.accountId]); }
  }

  /** A solvent ledger never fails the commit of a payment it has just reserved. */
  lemma LedgerPaymentAnswers(l: State, req: Request)
    requires Solvent(l.accounts)
    ensures var resp, known := PayFromLedger(l, req).1, req.accountId in l.accounts && req.amount > 0;
            && (resp.Approved? <==> known && l.accounts[req.accountId].online >= req.amount)
            && (resp == Declined(InsufficientBalance) <==> known && l.accounts[req.accountId].online < req.amount)
            && (resp == Declined(SystemError) <==> !known)
  {
    if req.accountId in l.accounts { assert SolventAccount(req.accountId, l.accounts[req.accountId]); }
  }

  /** A payment request that is not answered from the cache either leaves the ledger alone, unapproved, or is settled
      on it. */
  lemma PaymentLedger(c: Codec, g: Gateway, req: Request, env: Surroundings)
    ensures var (e, resp) := ProcessPayment(c, g, req, env);
            || (e.ledger == g.ledger && (Cached(g, req) || !resp.Approved?))
            || (!Cached(g, req) && (e.ledger, resp) == PayFromLedger(g.ledger, Completed(req, env)))
  {
  }

  lemma OneRequest(req: Request, m: string)
    ensures SumSeq([req], AskedFor(m)) == AskedFor(m)(req) && SumSeq<Request>([], AskedFor(m)) == 0
  {
    assert [req][1..] == [];
  }

  lemma PaymentCredits(c: Codec, g: Gateway, req: Request, env: Surroundings, m: string)
    requires Solvent(g.ledger.accounts) && req.accountId != m
    ensures Get(ProcessPayment(c, g, req, env).0.ledger.accounts, m)
         == Paid(Get(g.ledger.accounts, m), SumSeq(ApprovedBy(c, g, Payment(req, env)), AskedFor(m)))
  {
    PaymentLedger(c, g, req, env);
    OneRequest(req, m);
    var full := Completed(req, env);
    assert full.accountId == req.accountId && full.merchantId == req.merchantId && full.amount == req.amount;
    LedgerPaymentCredits(g.ledger, full, m);
  }

  lemma UnnamedUntouched(l: State, op: Op, m: string)
    requires m !in Names(op)
    ensures Get(Step(l, op).0.accounts, m) == Get(l.accounts, m)
  {
  }

  ghost predicate NeverPays(recs: seq<Rec>, m: string) {
    forall i :: 0 <= i < |recs| ==> recs[i].tx.accountId != m
  }

  lemma QueueNeverPays(c: Codec, st: Store, recs: seq<Rec>, queue: seq<Tx>, m: string)
    requires QueueOf(c, st, recs, queue) && NeverPays(recs, m)
    ensures NotPayer(queue, m)
  {
    forall i | 0 <= i < |queue| ensures queue[i].accountId != m {
      assert IsRecord(recs, queue[i]);
    }
  }

  lemma ReconcileCredits(c: Codec, g: Gateway, recs: seq<Rec>, settled: seq<Tx>, restarted: bool, m: string)
    requires Inv(c, g, recs, settled, restarted) && NeverPays(recs, m) && m != RESERVE
    ensures Get(Next(c, g, Reconcile).ledger.accounts, m)
         == Paid(Get(g.ledger.accounts, m), SumSeq(SettledBy(c, g, Reconcile), CreditTo(m)))
  {
    var queue := ReplayQueue(g.wal);
    QueueOfReplay(c, g.wal, g.recon.seen, recs, settled, restarted);
    QueueNeverPays(c, g.wal, recs, queue, m);
    ReplayCredits(c, g, m);
  }

  lemma ReplayCredits(c: Codec, g: Gateway, m: string)
    requires g.recon.useReserve && AllProper(ReplayQueue(g.wal)) && NotPayer(ReplayQueue(g.wal), m) && m != RESERVE
    ensures Get(Next(c, g, Reconcile).ledger.accounts, m)
         == Paid(Get(g.ledger.accounts, m), SumSeq(SettledBy(c, g, Reconcile), CreditTo(m)))
  {
    var queue := ReplayQueue(g.wal);
    MerchantPaidInFull(c, Opening(g.recon, g.ledger, g.wal, |queue|), queue, m);
  }

  lemma RecordedNeverPays(c: Codec, g: Gateway, recs: seq<Rec>, a: Action, m: string)
    requires NeverPays(recs, m) && Passive(a, m)
    ensures NeverPays(Recorded(c, g, recs, a), m)
  {
  }

  /** The account changed by the credits of these settlements and approvals. */
  ghost predicate Credited(a: Account, b: Account, settled: seq<Tx>, approved: seq<Request>, m: string) {
    b == Paid(a, SumSeq(settled, CreditTo(m)) + SumSeq(approved, AskedFor(m)))
  }

  lemma CreditedTrans(a: Account, b: Account, d: Account, s1: seq<Tx>, r1: seq<Request>, s2: seq<Tx>,
                      r2: seq<Request>, m: string)
    requires Credited(a, b, s1, r1, m) && Credited(b, d, s2, r2, m)
    ensures Credited(a, d, s1 + s2, r1 + r2, m)
  {
    SumSeqAppend(s1, s2, CreditTo(m));
    SumSeqAppend(r1, r2, AskedFor(m));
  }

  lemma NothingSettled(m: string)
    ensures SumSeq<Tx>([], CreditTo(m)) == 0 && SumSeq<Request>([], AskedFor(m)) == 0
  {
  }

  lemma OtherCredited(c: Codec, g: Gateway, a: Action, m: string)
    requires !a.Payment? && !a.Reconcile? && Passive(a, m)
    ensures Get(Next(c, g, a).ledger.accounts, m) == Get(g.ledger.accounts, m)
    ensures SettledBy(c, g, a) == [] && ApprovedBy(c, g, a) == []
  {
    if a.Administer? { UnnamedUntouched(g.ledger, a.op, m); }
  }

  lemma NextCredits(c: Codec, g: Gateway, recs: seq<Rec>, settled: seq<Tx>, restarted: bool, a: Action, m: string)
    requires Inv(c, g, recs, settled, restarted) && NeverPays(recs, m) && m != RESERVE
    requires Admissible(c, g, a) && Passive(a, m)
    ensures Credited(Get(g.ledger.accounts, m), Get(Next(c, g, a).ledger.accounts, m), SettledBy(c, g, a),
                     ApprovedBy(c, g, a), m)
  {
    NothingSettled(m);
    if a.Payment? {
      PaymentCredits(c, g, a.req, a.env, m);
    } else if a.Reconcile? {
      ReconcileCredits(c, g, recs, settled, restarted, m);
    } else {
      OtherCredited(c, g, a, m);
    }
  }

  /** A state of a run with the merchant's credits so far. */
  ghost predicate Tallied(c: Codec, g: Gateway, recs: seq<Rec>, settled: seq<Tx>, approved: seq<Request>,
                          restarted: bool, m: string, start: Account) {
    && Inv(c, g, recs, settled, restarted) && NeverPays(recs, m)
    && Credited(start, Get(g.ledger.accounts, m), settled, approved, m)
  }

  lemma StepCredits(c: Codec, g: Gateway, recs: seq<Rec>, settled: seq<Tx>, approved: seq<Request>, restarted: bool,
                    a: Action, m: string, start: Account)
    requires Faithful(c) && Tallied(c, g, recs, settled, approved, restarted, m, start)
    requires |Recorded(c, g, recs, a)| < U64
    requires m != RESERVE && Admissible(c, g, a) && Passive(a, m)
    ensures Tallied(c, Next(c, g, a), Recorded(c, g, recs, a), settled + SettledBy(c, g, a),
                    approved + ApprovedBy(c, g, a), restarted || a.Restart?, m, start)
  {
    NextKeepsInv(c, g, recs, settled, restarted, a);
    NextCredits(c, g, recs, settled, restarted, a, m);
    RecordedNeverPays(c, g, recs, a, m);
    CreditedTrans(start, Get(g.ledger.accounts, m), Get(Next(c, g, a).ledger.accounts, m),
                  settled, approved, SettledBy(c, g, a), ApprovedBy(c, g, a), m);
  }

  lemma ApprovedHead(c: Codec, g: Gateway, approved: seq<Request>, acts: seq<Action>)
    requires acts != []
    ensures approved + ApprovedRun(c, g, acts)
         == (approved + ApprovedBy(c, g, acts[0])) + ApprovedRun(c, Next(c, g, acts[0]), acts[1..])
  {
    Regroup(approved, ApprovedBy(c, g, acts[0]), ApprovedRun(c, Next(c, g, acts[0]), acts[1..]));
  }

  ghost predicate AllPassive(acts: seq<Action>, m: string) {
    forall i :: 0 <= i < |acts| ==> Passive(acts[i], m)
  }

  lemma PassiveHead(acts: seq<Action>, m: string)
    requires acts != [] && AllPassive(acts, m)
    ensures Passive(acts[0], m) && AllPassive(acts[1..], m)
  {
  }

  /** The first step of a run, with all that the rest of the run needs. */
  lemma FirstStepCredits(c: Codec, g: Gateway, recs: seq<Rec>, settled: seq<Tx>, approved: seq<Request>,
                         restarted: bool, acts: seq<Action>, m: string, start: Account)
    returns (e: Gateway, recs1: seq<Rec>, settled1: seq<Tx>, approved1: seq<Request>)
    requires Faithful(c) && Tallied(c, g, recs, settled, approved, restarted, m, start)
    requires |RecordedRun(c, g, recs, acts)| < U64
    requires acts != [] && AllAdmissible(c, g, acts) && m != RESERVE && Passive(acts[0], m)
    ensures Tallied(c, e, recs1, settled1, approved1, restarted || acts[0].Restart?, m, start)
    ensures RecordedRun(c, g, recs, acts) == RecordedRun(c, e, recs1, acts[1..])
    ensures AllAdmissible(c, e, acts[1..]) && RunFrom(c, g, acts) == RunFrom(c, e, acts[1..])
    ensures settled + SettledRun(c, g, acts) == settled1 + SettledRun(c, e, acts[1..])
    ensures approved + ApprovedRun(c, g, acts) == approved1 + ApprovedRun(c, e, acts[1..])
  {
    var a := acts[0];
    e, recs1 := Next(c, g, a), Recorded(c, g, recs, a);
    settled1, approved1 := settled + SettledBy(c, g, a), approved + ApprovedBy(c, g, a);
    AdmissibleHead(c, g, acts);
    FirstRecorded(c, g, recs, acts);
    StepCredits(c, g, recs, settled, approved, restarted, a, m, start);
    RunHead(c, g, recs, settled, acts);
    ApprovedHead(c, g, approved, acts);
  }

  lemma {:induction false} RunCredits(c: Codec, g: Gateway, recs: seq<Rec>, settled: seq<Tx>, approved: seq<Request>,
                                      restarted: bool, acts: seq<Action>, m: string, start: Account)
    requires Faithful(c) && Tallied(c, g, recs, settled, approved, restarted, m, start)
    requires |RecordedRun(c, g, recs, acts)| < U64
    requires AllAdmissible(c, g, acts) && m != RESERVE && AllPassive(acts, m)
    ensures Credited(start, Get(RunFrom(c, g, acts).ledger.accounts, m),
                     settled + SettledRun(c, g, acts), approved + ApprovedRun(c, g, acts), m)
    decreases |acts|
  {
    if acts == [] {
      assert settled + [] == settled && approved + [] == approved;
    } else {
      PassiveHead(acts, m);
      var e, recs1, settled1, approved1 := FirstStepCredits(c, g, recs, settled, approved, restarted, acts, m, start);
      RunCredits(c, e, recs1, settled1, approved1, restarted || acts[0].Restart?, acts[1..], m, start);
    }
  }

  lemma CreditedFromStart(c: Codec, g: Gateway, acts: seq<Action>, m: string)
    requires Faithful(c) && Initial(g) && AllAdmissible(c, g, acts) && m != RESERVE
    requires |RecordedRun(c, g, [], acts)| < U64
    requires AllPassive(acts, m)
    ensures Credited(Get(g.ledger.accounts, m), Get(RunFrom(c, g, acts).ledger.accounts, m),
                     [] + SettledRun(c, g, acts), [] + ApprovedRun(c, g, acts), m)
  {
    InitialInv(c, g);
    NothingSettled(m);
    RunCredits(c, g, [], [], [], false, acts, m, Get(g.ledger.accounts, m));
  }

  lemma CreditedUnfolds(a: Account, b: Account, settled: seq<Tx>, approved: seq<Request>, m: string)
    requires Credited(a, b, [] + settled, [] + approved, m)
    ensures b == a.(online := a.online + SumSeq(settled, CreditTo(m)) + SumSeq(approved, AskedFor(m)))
  {
    assert [] + settled == settled && [] + approved == approved;
  }

  /** In every run, a merchant that only receives ends with exactly what it started with, plus the full amount of every
      offline transaction settled in its favour, each counted once, plus every payment approved online. */
  lemma MerchantBalance(c: Codec, g: Gateway, acts: seq<Action>, m: string)
    requires Faithful(c) && Initial(g) && AllAdmissible(c, g, acts) && m != RESERVE
    requires |RecordedRun(c, g, [], acts)| < U64
    requires AllPassive(acts, m)
    ensures var a, b := Get(g.ledger.accounts, m), Get(RunFrom(c, g, acts).ledger.accounts, m);
            b == a.(online := a.online + SumSeq(SettledRun(c, g, acts), CreditTo(m))
                              + SumSeq(ApprovedRun(c, g, acts), AskedFor(m)))
  {
    CreditedFromStart(c, g, acts, m);
    CreditedUnfolds(Get(g.ledger.accounts, m), Get(RunFrom(c, g, acts).ledger.accounts, m),
                    SettledRun(c, g, acts), ApprovedRun(c, g, acts), m);
  }
}
