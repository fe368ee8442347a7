/** Any number of two-phase online payments interleaving on one ledger, with every other operation in between. */
module OnlinePayments {
  import opened Sums
  import opened LedgerModel
  import opened LedgerJournal

  /** Where a payment stands: before ReserveFunds, holding funds, destination looked up, or finished. */
  datatype Phase = Arrived | Holding | Resolved | RollingBack | Approved | DeclinedFunds | DeclinedError

  datatype Payment = Payment(payer: string, merchant: string, amount: int, txId: string, phase: Phase)

  datatype System = System(ledger: State, payments: map<nat, Payment>)

  datatype Action =
    | Arrive(pid: nat, payer: string, merchant: string, amount: int, txId: string)
    | Reserve(pid: nat)
    | Resolve(pid: nat)
    | Settle(pid: nat)
    | Rollback(pid: nat)
    | Other(op: Op)

  /** Operations not issued by payments themselves: they neither place nor consume holds. */
  predicate Outside(op: Op) {
    !op.ReserveFunds? && !op.CommitHold? && !op.ReleaseHold?
  }

  /** The phase after the ledger's answer to ReserveFunds. */
  function AfterReserve(out: Outcome): Phase {
    match out
    case Done => Holding
    case Failed(InsufficientFunds) => DeclinedFunds
    case _ => DeclinedError
  }

  predicate In(s: System, pid: nat, phase: Phase) {
    pid in s.payments && s.payments[pid].phase == phase
  }

  function Advance(s: System, pid: nat, l: State, phase: Phase): System
    requires pid in s.payments
  {
    System(l, s.payments[pid := s.payments[pid].(phase := phase)])
  }

  /** One step of one payment, or of somebody else; an action that is not enabled changes nothing. */
  function Next(s: System, a: Action): System {
    match a
    case Arrive(pid, payer, merchant, amount, txId) =>
      if pid in s.payments then s
      else s.(payments := s.payments[pid := Payment(payer, merchant, amount, txId, Arrived)])
    case Reserve(pid) =>
      if !In(s, pid, Arrived) then s else
        var p := s.payments[pid];
        var (l, out) := DoReserveFunds(s.ledger, p.payer, p.amount, p.txId);
        Advance(s, pid, l, AfterReserve(out))
    case Resolve(pid) =>
      if !In(s, pid, Holding) then s else
        var p := s.payments[pid];
        if p.amount <= 0 || p.payer !in s.ledger.accounts then Advance(s, pid, s.ledger, RollingBack)
        else Advance(s, pid, s.ledger.(accounts := Open(s.ledger.accounts, p.merchant)), Resolved)
    case Settle(pid) =>
      if !In(s, pid, Resolved) || s.payments[pid].payer !in s.ledger.accounts
         || s.payments[pid].merchant !in s.ledger.accounts then s else
        var p := s.payments[pid];
        var (l, out) := SettleHold(s.ledger, p.payer, p.merchant, p.amount, p.txId);
        Advance(s, pid, l, if out.Done? then Approved else RollingBack)
    case Rollback(pid) =>
      if !In(s, pid, RollingBack) then s else
        var p := s.payments[pid];
        Advance(s, pid, DoReleaseHold(s.ledger, p.payer, p.amount, p.txId).0, DeclinedError)
    case Other(op) =>
      if Outside(op) then s.(ledger := Step(s.ledger, op).0) else s
  }

  function RunAll(s: System, actions: seq<Action>): System
    decreases |actions|
  {
    if actions == [] then s else RunAll(Next(s, actions[0]), actions[1..])
  }

  predicate HasHold(p: Payment) {
    p.phase == Holding || p.phase == Resolved
  }

  ghost function HoldOn(id: string): Payment -> int {
    (p: Payment) => if HasHold(p) && p.payer == id then p.amount else 0
  }

  ghost predicate HoldsExact(s: System, id: string) {
    Get(s.ledger.accounts, id).reserved == SumBy(s.payments, HoldOn(id))
  }

  ghost predicate Sound(p: Payment, m: Accounts) {
    && p.phase != RollingBack
    && (HasHold(p) ==> p.amount > 0 && p.payer in m)
    && (p.phase == Resolved ==> p.merchant in m)
  }

  /** Every reserved cent belongs to a payment between reserve and commit, and no payment is rolling back. */
  ghost predicate Inv(s: System) {
    && (forall id: string :: HoldsExact(s, id))
    && (forall pid :: pid in s.payments ==> Sound(s.payments[pid], s.ledger.accounts))
  }

  /** Advancing one payment moves the held total of each account by the change in that payment's own hold. */
  lemma AdvanceHolds(s: System, pid: nat, l: State, phase: Phase, id: string)
    requires pid in s.payments && HoldsExact(s, id)
    requires var p := s.payments[pid];
             Get(l.accounts, id).reserved == Get(s.ledger.accounts, id).reserved
               + HoldOn(id)(p.(phase := phase)) - HoldOn(id)(p)
    ensures HoldsExact(Advance(s, pid, l, phase), id)
  {
    SumByUpdate(s.payments, pid, s.payments[pid].(phase := phase), HoldOn(id));
  }

  lemma OutsideKeepsReserved(s: State, op: Op, id: string)
    requires Outside(op)
    ensures Get(Step(s, op).0.accounts, id).reserved == Get(s.accounts, id).reserved
  {
  }

  lemma ReserveKeepsInv(s: System, pid: nat)
    requires Inv(s) && In(s, pid, Arrived)
    ensures Inv(Next(s, Reserve(pid)))
  {
    var p := s.payments[pid];
    var (l, out) := DoReserveFunds(s.ledger, p.payer, p.amount, p.txId);
    forall id: string ensures HoldsExact(Next(s, Reserve(pid)), id) {
      assert HoldsExact(s, id);
      AdvanceHolds(s, pid, l, AfterReserve(out), id);
    }
  }

  lemma ResolveKeepsInv(s: System, pid: nat)
    requires Inv(s) && In(s, pid, Holding)
    ensures Inv(Next(s, Resolve(pid)))
  {
    var p := s.payments[pid];
    assert Sound(p, s.ledger.accounts);
    var l := s.ledger.(accounts := Open(s.ledger.accounts, p.merchant));
    forall id: string ensures HoldsExact(Next(s, Resolve(pid)), id) {
      assert HoldsExact(s, id);
      AdvanceHolds(s, pid, l, Resolved, id);
    }
  }

  /** A payment that reached its commit finds its hold intact, whatever ran in between. */
  lemma HoldCovers(s: System, pid: nat)
    requires Inv(s) && In(s, pid, Resolved)
    ensures var p := s.payments[pid];
            && p.payer in s.ledger.accounts && p.merchant in s.ledger.accounts
            && SettleHold(s.ledger, p.payer, p.merchant, p.amount, p.txId).1 == Done
  {
    var p := s.payments[pid];
    assert Sound(p, s.ledger.accounts);
    assert HoldsExact(s, p.payer);
    forall j | j in s.payments ensures HoldOn(p.payer)(s.payments[j]) >= 0 {
      assert Sound(s.payments[j], s.ledger.accounts);
    }
    SumByAtLeast(s.payments, pid, HoldOn(p.payer));
  }

  lemma SettleKeepsInv(s: System, pid: nat)
    requires Inv(s) && In(s, pid, Resolved)
    ensures Inv(Next(s, Settle(pid)))
  {
    HoldCovers(s, pid);
    var p := s.payments[pid];
    var (l, out) := SettleHold(s.ledger, p.payer, p.merchant, p.amount, p.txId);
    forall id: string ensures HoldsExact(Next(s, Settle(pid)), id) {
      assert HoldsExact(s, id);
      AdvanceHolds(s, pid, l, Approved, id);
    }
  }

  lemma ArriveKeepsInv(s: System, a: Action)
    requires Inv(s) && a.Arrive? && a.pid !in s.payments
    ensures Inv(Next(s, a))
  {
    var p := Payment(a.payer, a.merchant, a.amount, a.txId, Arrived);
    forall id: string ensures HoldsExact(Next(s, a), id) {
      assert HoldsExact(s, id);
      SumByUpdate(s.payments, a.pid, p, HoldOn(id));
    }
  }

  lemma OtherKeepsInv(s: System, op: Op)
    requires Inv(s) && Outside(op)
    ensures Inv(Next(s, Other(op)))
  {
    var t := Next(s, Other(op));
    StepKeepsAccounts(s.ledger, op);
    forall id: string ensures HoldsExact(t, id) {
      assert HoldsExact(s, id);
      OutsideKeepsReserved(s.ledger, op, id);
    }
    forall pid | pid in t.payments ensures Sound(t.payments[pid], t.ledger.accounts) {
      assert Sound(s.payments[pid], s.ledger.accounts);
    }
  }

  lemma NextKeepsInv(s: System, a: Action)
    requires Inv(s)
    ensures Inv(Next(s, a))
  {
    match a
    case Arrive(pid, _, _, _, _) => if pid !in s.payments { ArriveKeepsInv(s, a); }
    case Reserve(pid) => if In(s, pid, Arrived) { ReserveKeepsInv(s, pid); }
    case Resolve(pid) => if In(s, pid, Holding) { ResolveKeepsInv(s, pid); }
    case Settle(pid) => if In(s, pid, Resolved) { SettleKeepsInv(s, pid); }
    case Rollback(pid) => if pid in s.payments { assert Sound(s.payments[pid], s.ledger.accounts); }
    case Other(op) => if Outside(op) { OtherKeepsInv(s, op); }
  }

  lemma {:induction false} RunKeepsInv(s: System, actions: seq<Action>)
    requires Inv(s)
    ensures Inv(RunAll(s, actions))
    decreases |actions|
  {
    if actions != [] {
      NextKeepsInv(s, actions[0]);
      RunKeepsInv(Next(s, actions[0]), actions[1..]);
    }
  }

  /** A ledger without holds and without payments in flight. */
  ghost predicate Quiescent(s: System) {
    s.payments == map[] && forall id :: id in s.ledger.accounts ==> s.ledger.accounts[id].reserved == 0
  }

  /** In every interleaving from a quiescent start, ReservedBalance is exactly the sum of the payments between
      reserve and commit, every commit succeeds, and the gateway's rollback is never entered. */
  lemma NoRollbackEver(s: System, actions: seq<Action>)
    requires Quiescent(s)
    ensures var t := RunAll(s, actions);
            && (forall id: string :: HoldsExact(t, id))
            && (forall pid :: pid in t.payments ==> t.payments[pid].phase != RollingBack)
            && (forall pid :: In(t, pid, Resolved) ==> In(Next(t, Settle(pid)), pid, Approved))
  {
    forall id: string ensures HoldsExact(s, id) {
      SumByZero(s.payments, HoldOn(id));
    }
    RunKeepsInv(s, actions);
    var t := RunAll(s, actions);
    forall pid | pid in t.payments ensures t.payments[pid].phase != RollingBack {
      assert Sound(t.payments[pid], t.ledger.accounts);
    }
    forall pid | In(t, pid, Resolved) ensures In(Next(t, Settle(pid)), pid, Approved) {
      HoldCovers(t, pid);
    }
  }
}
