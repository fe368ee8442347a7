/** Racing payments against one account: nothing is spent twice, and nothing spendable is refused. */
module AccountDrain {
  import opened Sums
  import opened LedgerModel
  import opened LedgerJournal
  import opened OnlinePayments

  /** Nobody but payments drawing on `acct` touches it: no payment pays into it, no other operation names it. */
  ghost predicate Leaves(a: Action, acct: string) {
    match a
    case Arrive(_, _, merchant, _, _) => merchant != acct
    case Other(op) => acct !in Names(op)
    case _ => true
  }

  predicate Committed(p: Payment, acct: string) {
    p.payer == acct && (HasHold(p) || p.phase == Approved)
  }

  ghost function SpentFrom(acct: string): Payment -> int {
    (p: Payment) => if Committed(p, acct) then p.amount else 0
  }

  ghost function ApprovedFrom(acct: string): Payment -> int {
    (p: Payment) => if p.payer == acct && p.phase == Approved then p.amount else 0
  }

  ghost function One(acct: string): Payment -> int {
    (p: Payment) => if p.payer == acct then 1 else 0
  }

  ghost function OneIn(acct: string, phase: Phase): Payment -> int {
    (p: Payment) => if p.payer == acct && p.phase == phase then 1 else 0
  }

  /** What left the online bucket is exactly what payments on the account hold or have been paid. */
  ghost predicate Drained(s: System, acct: string, funds: int, allowance: int) {
    && acct in s.ledger.accounts
    && s.ledger.accounts[acct].online >= 0
    && s.ledger.accounts[acct].online + SumBy(s.payments, SpentFrom(acct)) == funds
    && s.ledger.accounts[acct].offline == allowance
    && forall pid :: pid in s.payments ==> s.payments[pid].merchant != acct
  }

  lemma UnmentionedUnchanged(s: State, op: Op, acct: string)
    requires acct in s.accounts && acct !in Names(op)
    ensures acct in Step(s, op).0.accounts && Step(s, op).0.accounts[acct] == s.accounts[acct]
  {
  }

  lemma AdvanceDrain(s: System, pid: nat, l: State, phase: Phase, acct: string, funds: int, allowance: int)
    requires Drained(s, acct, funds, allowance) && pid in s.payments && acct in l.accounts
    requires var p := s.payments[pid];
             var m := l.accounts;
             && m[acct].online >= 0 && m[acct].offline == allowance
             && m[acct].online - s.ledger.accounts[acct].online
                == SpentFrom(acct)(p) - SpentFrom(acct)(p.(phase := phase))
    ensures Drained(Advance(s, pid, l, phase), acct, funds, allowance)
  {
    SumByUpdate(s.payments, pid, s.payments[pid].(phase := phase), SpentFrom(acct));
  }

  lemma PaymentKeepsDrain(s: System, pid: nat, a: Action, acct: string, funds: int, allowance: int)
    requires Inv(s) && Drained(s, acct, funds, allowance) && pid in s.payments
    requires a == Reserve(pid) || a == Resolve(pid) || a == Settle(pid)
    ensures Drained(Next(s, a), acct, funds, allowance)
  {
    var p := s.payments[pid];
    assert Sound(p, s.ledger.accounts);
    if a == Reserve(pid) && p.phase == Arrived {
      var (l, out) := DoReserveFunds(s.ledger, p.payer, p.amount, p.txId);
      AdvanceDrain(s, pid, l, AfterReserve(out), acct, funds, allowance);
    } else if a == Resolve(pid) && p.phase == Holding {
      AdvanceDrain(s, pid, s.ledger.(accounts := Open(s.ledger.accounts, p.merchant)), Resolved, acct, funds,
                   allowance);
    } else if a == Settle(pid) && p.phase == Resolved {
      HoldCovers(s, pid);
      AdvanceDrain(s, pid, SettleHold(s.ledger, p.payer, p.merchant, p.amount, p.txId).0, Approved, acct, funds,
                   allowance);
    }
  }

  lemma NextKeepsDrain(s: System, a: Action, acct: string, funds: int, allowance: int)
    requires Inv(s) && Drained(s, acct, funds, allowance) && Leaves(a, acct)
    ensures Drained(Next(s, a), acct, funds, allowance)
  {
    match a
    case Arrive(pid, payer, merchant, amount, txId) =>
      SumByUpdate(s.payments, pid, Payment(payer, merchant, amount, txId, Arrived), SpentFrom(acct));
    case Reserve(pid) => if pid in s.payments { PaymentKeepsDrain(s, pid, a, acct, funds, allowance); }
    case Resolve(pid) => if pid in s.payments { PaymentKeepsDrain(s, pid, a, acct, funds, allowance); }
    case Settle(pid) => if pid in s.payments { PaymentKeepsDrain(s, pid, a, acct, funds, allowance); }
    case Rollback(pid) => if pid in s.payments { assert Sound(s.payments[pid], s.ledger.accounts); }
    case Other(op) => UnmentionedUnchanged(s.ledger, op, acct);
  }

  lemma {:induction false} RunKeepsDrain(s: System, actions: seq<Action>, acct: string, funds: int, allowance: int)
    requires Inv(s) && Drained(s, acct, funds, allowance)
    requires forall i :: 0 <= i < |actions| ==> Leaves(actions[i], acct)
    ensures Inv(RunAll(s, actions)) && Drained(RunAll(s, actions), acct, funds, allowance)
    decreases |actions|
  {
    if actions != [] {
      NextKeepsInv(s, actions[0]);
      NextKeepsDrain(s, actions[0], acct, funds, allowance);
      RunKeepsDrain(Next(s, actions[0]), actions[1..], acct, funds, allowance);
    }
  }

  lemma QuiescentDrained(s: System, acct: string)
    requires Quiescent(s) && acct in s.ledger.accounts && s.ledger.accounts[acct].online >= 0
    ensures Inv(s) && Drained(s, acct, s.ledger.accounts[acct].online, s.ledger.accounts[acct].offline)
  {
    SumByZero(s.payments, SpentFrom(acct));
    forall id: string ensures HoldsExact(s, id) {
      SumByZero(s.payments, HoldOn(id));
    }
  }

  /** Whatever the amounts and the interleaving, approvals never exceed what the account had,
      and its offline allowance is untouched. */
  lemma ApprovalsWithinFunds(s: System, actions: seq<Action>, acct: string)
    requires Quiescent(s) && acct in s.ledger.accounts && s.ledger.accounts[acct].online >= 0
    requires forall i :: 0 <= i < |actions| ==> Leaves(actions[i], acct)
    ensures var t := RunAll(s, actions);
            && SumBy(t.payments, ApprovedFrom(acct)) <= s.ledger.accounts[acct].online
            && acct in t.ledger.accounts && t.ledger.accounts[acct].offline == s.ledger.accounts[acct].offline
  {
    QuiescentDrained(s, acct);
    RunKeepsDrain(s, actions, acct, s.ledger.accounts[acct].online, s.ledger.accounts[acct].offline);
    var t := RunAll(s, actions);
    var rest := (p: Payment) => SpentFrom(acct)(p) - ApprovedFrom(acct)(p);
    forall j | j in t.payments ensures rest(t.payments[j]) >= 0 {
      assert Sound(t.payments[j], t.ledger.accounts);
    }
    SumByNonNegative(t.payments, rest);
    SumByAdd(t.payments, SpentFrom(acct), ApprovedFrom(acct), rest);
  }

  /** All payments on the account ask for `t`; whoever was refused was refused for lack of funds, when less than `t`
      was left. */
  ghost predicate Uniform(s: System, acct: string, t: int) {
    && acct in s.ledger.accounts
    && forall pid :: pid in s.payments ==> UniformPayment(s.payments[pid], acct, t, s.ledger.accounts[acct].online)
  }

  predicate UniformPayment(p: Payment, acct: string, t: int, online: int) {
    p.payer == acct ==>
      && p.amount == t
      && p.phase != DeclinedError
      && (p.phase == DeclinedFunds ==> online < t)
  }

  predicate Asks(a: Action, acct: string, t: int) {
    a.Arrive? && a.payer == acct ==> a.amount == t
  }

  lemma NextKeepsUniform(s: System, a: Action, acct: string, t: int, funds: int, allowance: int)
    requires Inv(s) && Drained(s, acct, funds, allowance) && Uniform(s, acct, t) && t > 0
    requires Leaves(a, acct) && Asks(a, acct, t)
    ensures Uniform(Next(s, a), acct, t)
  {
    NextKeepsDrain(s, a, acct, funds, allowance);
    var n := Next(s, a);
    OnlineOnlyFalls(s, a, acct, funds, allowance);
    forall pid | pid in n.payments
      ensures UniformPayment(n.payments[pid], acct, t, n.ledger.accounts[acct].online)
    {
      if pid in s.payments {
        assert UniformPayment(s.payments[pid], acct, t, s.ledger.accounts[acct].online);
        assert Sound(s.payments[pid], s.ledger.accounts);
      }
    }
  }

  /** With nobody paying in, the online bucket of the account never rises. */
  lemma OnlineOnlyFalls(s: System, a: Action, acct: string, funds: int, allowance: int)
    requires Inv(s) && Drained(s, acct, funds, allowance) && Leaves(a, acct)
    ensures acct in Next(s, a).ledger.accounts
    ensures Next(s, a).ledger.accounts[acct].online <= s.ledger.accounts[acct].online
  {
    match a
    case Rollback(pid) => if pid in s.payments { assert Sound(s.payments[pid], s.ledger.accounts); }
    case Other(op) => UnmentionedUnchanged(s.ledger, op, acct);
    case _ =>
  }

  lemma {:induction false} RunKeepsUniform(s: System, actions: seq<Action>, acct: string, t: int, funds: int,
                                           allowance: int)
    requires Inv(s) && Drained(s, acct, funds, allowance) && Uniform(s, acct, t) && t > 0
    requires forall i :: 0 <= i < |actions| ==> Leaves(actions[i], acct) && Asks(actions[i], acct, t)
    ensures Uniform(RunAll(s, actions), acct, t)
    decreases |actions|
  {
    if actions != [] {
      NextKeepsInv(s, actions[0]);
      NextKeepsDrain(s, actions[0], acct, funds, allowance);
      NextKeepsUniform(s, actions[0], acct, t, funds, allowance);
      RunKeepsUniform(Next(s, actions[0]), actions[1..], acct, t, funds, allowance);
    }
  }

  /** Every payment on the account has been answered. */
  ghost predicate Finished(s: System, acct: string) {
    forall pid :: pid in s.payments && s.payments[pid].payer == acct ==>
      s.payments[pid].phase in {Approved, DeclinedFunds, DeclinedError}
  }

  lemma Quotient(k: int, t: int, left: int)
    requires t > 0 && 0 <= left && k >= 0
    ensures left < t ==> (t * k + left) / t == k
    ensures (t * k + left) / t >= k
  {
    assert (t * k + left) / t == k + left / t by { QuotientStep(k, t, left); }
    if left >= t { assert left / t >= 0; }
  }

  lemma QuotientStep(k: int, t: int, left: int)
    requires t > 0
    ensures (t * k + left) / t == k + left / t
  {
    var q, r := left / t, left % t;
    assert left == t * q + r;
    assert t * k + left == t * (k + q) + r by { Distribute(t, k, q); }
    UniqueQuotient(t * k + left, t, k + q, r);
  }

  lemma UniqueQuotient(x: int, t: int, q: int, r: int)
    requires t > 0 && 0 <= r < t && x == t * q + r
    ensures x / t == q
  {
    var d := x / t - q;
    assert d > 0 ==> t * d >= t;
    assert d < 0 ==> t * d <= -t;
    assert x == t * (x / t) + x % t;
    assert t * (x / t) - t * q == t * d by { Distribute(t, x / t, -q); }
  }

  /** `n` racing payments of the same amount on an account with `funds` cents and no incoming credit end with exactly
      min(n, funds / t) approvals; all the others are declined for insufficient funds. */
  lemma ExactDrain(s: System, actions: seq<Action>, acct: string, t: int)
    requires Quiescent(s) && acct in s.ledger.accounts && s.ledger.accounts[acct].online >= 0 && t > 0
    requires forall i :: 0 <= i < |actions| ==> Leaves(actions[i], acct) && Asks(actions[i], acct, t)
    requires Finished(RunAll(s, actions), acct)
    ensures var e := RunAll(s, actions);
            var n := SumBy(e.payments, One(acct));
            var quota := s.ledger.accounts[acct].online / t;
            && SumBy(e.payments, OneIn(acct, Approved)) == (if n < quota then n else quota)
            && SumBy(e.payments, OneIn(acct, Approved)) + SumBy(e.payments, OneIn(acct, DeclinedFunds)) == n
  {
    var funds, allowance := s.ledger.accounts[acct].online, s.ledger.accounts[acct].offline;
    QuiescentDrained(s, acct);
    RunKeepsDrain(s, actions, acct, funds, allowance);
    RunKeepsUniform(s, actions, acct, t, funds, allowance);
    CountOutcomes(RunAll(s, actions), acct, t, funds, allowance);
  }

  lemma CountOutcomes(e: System, acct: string, t: int, funds: int, allowance: int)
    requires t > 0 && Drained(e, acct, funds, allowance) && Uniform(e, acct, t) && Finished(e, acct)
    ensures var n := SumBy(e.payments, One(acct));
            && SumBy(e.payments, OneIn(acct, Approved)) == (if n < funds / t then n else funds / t)
            && SumBy(e.payments, OneIn(acct, Approved)) + SumBy(e.payments, OneIn(acct, DeclinedFunds)) == n
  {
    var k := SumBy(e.payments, OneIn(acct, Approved));
    var online := e.ledger.accounts[acct].online;
    forall j | j in e.payments
      ensures var p := e.payments[j];
              && One(acct)(p) == OneIn(acct, Approved)(p) + OneIn(acct, DeclinedFunds)(p)
              && SpentFrom(acct)(p) == t * OneIn(acct, Approved)(p)
    {
      assert UniformPayment(e.payments[j], acct, t, online);
    }
    SumByAdd(e.payments, One(acct), OneIn(acct, Approved), OneIn(acct, DeclinedFunds));
    SumByScale(e.payments, SpentFrom(acct), t, OneIn(acct, Approved));
    SumByNonNegative(e.payments, OneIn(acct, Approved));
    SumByNonNegative(e.payments, OneIn(acct, DeclinedFunds));
    Quotient(k, t, online);
    if online >= t {
      forall j | j in e.payments ensures OneIn(acct, DeclinedFunds)(e.payments[j]) == 0 {
        assert UniformPayment(e.payments[j], acct, t, online);
      }
      SumByZero(e.payments, OneIn(acct, DeclinedFunds));
    }
  }
}
