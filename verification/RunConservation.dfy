/** Conservation over whole runs: racing payments with late account creation, and the gateway through partitions. */
module RunConservation {
  import opened LedgerModel
  import opened LedgerConservation
  import opened WalModel
  import opened SettlementModel
  import opened SettlementBooks
  import opened GatewayModel
  import P = OnlinePayments
  import R = PartitionRuns

  /** Money entering with one step of the interleaved system: only through outside operations. */
  ghost function Injected(s: P.System, a: P.Action): int {
    if a.Other? && P.Outside(a.op) then Minted(s.ledger, a.op) else 0
  }

  ghost function InjectedRun(s: P.System, acts: seq<P.Action>): int
    decreases |acts|
  {
    if acts == [] then 0 else Injected(s, acts[0]) + InjectedRun(P.Next(s, acts[0]), acts[1..])
  }

  lemma SettleHoldConserves(s: State, from: string, to: string, amount: int, txId: string)
    requires from in s.accounts && to in s.accounts
    ensures Total(SettleHold(s, from, to, amount, txId).0.accounts) == Total(s.accounts)
  {
    AddTotal(s.accounts, from, -amount);
    AddTotal(AddReserved(s.accounts, from, -amount), to, amount);
  }

  /** Every step of every interleaving keeps the total, whichever of several racing payments creates the merchant. */
  lemma InterleavedStepConserves(s: P.System, a: P.Action)
    ensures Total(P.Next(s, a).ledger.accounts) == Total(s.ledger.accounts) + Injected(s, a)
  {
    match a
    case Arrive(_, _, _, _, _) =>
    case Reserve(pid) =>
      if pid in s.payments {
        HoldsConserve(s.ledger, s.payments[pid].payer, s.payments[pid].amount, s.payments[pid].txId);
      }
    case Resolve(pid) => if pid in s.payments { OpenKeepsTotal(s.ledger.accounts, s.payments[pid].merchant); }
    case Settle(pid) =>
      if P.In(s, pid, P.Resolved) {
        var p := s.payments[pid];
        if p.payer in s.ledger.accounts && p.merchant in s.ledger.accounts {
          SettleHoldConserves(s.ledger, p.payer, p.merchant, p.amount, p.txId);
        }
      }
    case Rollback(pid) =>
      if pid in s.payments {
        HoldsConserve(s.ledger, s.payments[pid].payer, s.payments[pid].amount, s.payments[pid].txId);
      }
    case Other(op) => StepConserves(s.ledger, op);
  }

  lemma {:induction false} InterleavingConserves(s: P.System, acts: seq<P.Action>)
    ensures Total(P.RunAll(s, acts).ledger.accounts) == Total(s.ledger.accounts) + InjectedRun(s, acts)
    decreases |acts|
  {
    if acts != [] {
      InterleavedStepConserves(s, acts[0]);
      InterleavingConserves(P.Next(s, acts[0]), acts[1..]);
    }
  }

  /** Money entering with one step of the gateway: only through administration. */
  ghost function Deposited(g: Gateway, a: R.Action): int {
    if a.Administer? && R.Administrative(a.op) then Minted(g.ledger, a.op) else 0
  }

  ghost function DepositedRun(c: Codec, g: Gateway, acts: seq<R.Action>): int
    decreases |acts|
  {
    if acts == [] then 0 else Deposited(g, acts[0]) + DepositedRun(c, R.Next(c, g, acts[0]), acts[1..])
  }

  lemma LedgerPaymentConserves(l: State, req: Request)
    ensures Total(PayFromLedger(l, req).0.accounts) == Total(l.accounts)
  {
    HoldsConserve(l, req.accountId, req.amount, req.txId);
    var l1 := DoReserveFunds(l, req.accountId, req.amount, req.txId).0;
    CommitHoldConserves(l1, req.accountId, req.merchantId, req.amount, req.txId);
    var l2 := DoCommitHold(l1, req.accountId, req.merchantId, req.amount, req.txId).0;
    HoldsConserve(l2, req.accountId, req.amount, req.txId);
  }

  lemma PaymentConserves(c: Codec, g: Gateway, req: Request, env: Surroundings)
    ensures Total(ProcessPayment(c, g, req, env).0.ledger.accounts) == Total(g.ledger.accounts)
  {
    LedgerPaymentConserves(g.ledger, Completed(req, env));
  }

  lemma ReplayConserves(c: Codec, g: Gateway)
    ensures Total(R.Next(c, g, R.Reconcile).ledger.accounts) == Total(g.ledger.accounts)
  {
    var queue := ReplayQueue(g.wal);
    TotalKept(g.recon.useReserve, c, Opening(g.recon, g.ledger, g.wal, |queue|), queue);
  }

  lemma OtherConserves(c: Codec, g: Gateway, a: R.Action)
    requires !a.Payment? && !a.Reconcile?
    ensures Total(R.Next(c, g, a).ledger.accounts) == Total(g.ledger.accounts) + Deposited(g, a)
  {
    if a.Administer? { StepConserves(g.ledger, a.op); }
  }

  lemma GatewayStepConserves(c: Codec, g: Gateway, a: R.Action)
    ensures Total(R.Next(c, g, a).ledger.accounts) == Total(g.ledger.accounts) + Deposited(g, a)
  {
    if a.Payment? {
      PaymentConserves(c, g, a.req, a.env);
      R.PaymentNext(c, g, a);
    } else if a.Reconcile? {
      ReplayConserves(c, g);
    } else {
      OtherConserves(c, g, a);
    }
  }

  /** Through partitions, replays in either mode, restarts and any payments whatsoever, the system total is what was
      there plus what was seeded and funded. */
  lemma {:induction false} GatewayConserves(c: Codec, g: Gateway, acts: seq<R.Action>)
    ensures Total(R.RunFrom(c, g, acts).ledger.accounts) == Total(g.ledger.accounts) + DepositedRun(c, g, acts)
    decreases |acts|
  {
    if acts != [] {
      GatewayStepConserves(c, g, acts[0]);
      GatewayConserves(c, R.Next(c, g, acts[0]), acts[1..]);
    }
  }
}
