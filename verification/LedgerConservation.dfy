/** No operation creates or destroys money except account creation and funding. */
module LedgerConservation {
  import opened Sums
  import opened LedgerModel

  function Worth(a: Account): int {
    a.online + a.offline + a.reserved
  }

  ghost function Total(m: Accounts): int {
    SumBy(m, Worth)
  }

  /** Money entering the system from outside in one step. */
  ghost function Minted(s: State, op: Op): int {
    match op
    case CreateAccount(id, initial) => if id in s.accounts then 0 else initial
    case FundAccount(id, amount, _) => if id in s.accounts then amount else 0
    case _ => 0
  }

  ghost function MintedRun(s: State, ops: seq<Op>): int
    decreases |ops|
  {
    if ops == [] then 0 else Minted(s, ops[0]) + MintedRun(Step(s, ops[0]).0, ops[1..])
  }

  lemma OpenKeepsTotal(m: Accounts, id: string)
    ensures Total(Open(m, id)) == Total(m)
  {
    SumByUpdate(m, id, EMPTY_ACCOUNT, Worth);
  }

  lemma AddTotal(m: Accounts, id: string, x: int)
    requires id in m
    ensures Total(AddOnline(m, id, x)) == Total(m) + x
    ensures Total(AddOffline(m, id, x)) == Total(m) + x
    ensures Total(AddReserved(m, id, x)) == Total(m) + x
  {
    SumByUpdate(m, id, m[id].(online := m[id].online + x), Worth);
    SumByUpdate(m, id, m[id].(offline := m[id].offline + x), Worth);
    SumByUpdate(m, id, m[id].(reserved := m[id].reserved + x), Worth);
  }

  lemma OnlineTransferTotal(m: Accounts, from: string, to: string, amount: int)
    requires from in m && to in m
    ensures Total(AddOnline(AddOnline(m, from, -amount), to, amount)) == Total(m)
  {
    AddTotal(m, from, -amount);
    AddTotal(AddOnline(m, from, -amount), to, amount);
  }

  lemma HoldsConserve(s: State, id: string, amount: int, txId: string)
    ensures Total(DoAllocateOfflineAllowance(s, id, amount, txId).0.accounts) == Total(s.accounts)
    ensures Total(DoReserveFunds(s, id, amount, txId).0.accounts) == Total(s.accounts)
    ensures Total(DoReleaseHold(s, id, amount, txId).0.accounts) == Total(s.accounts)
  {
    var m := s.accounts;
    if id in m {
      AddTotal(m, id, -amount);
      AddTotal(AddOnline(m, id, -amount), id, amount);
      AddTotal(AddReserved(m, id, -amount), id, amount);
    }
  }

  lemma CommitOfflineConserves(s: State, from: string, to: string, amount: int, txId: string)
    ensures Total(DoCommitOfflineAllowance(s, from, to, amount, txId).0.accounts) == Total(s.accounts)
  {
    OpenKeepsTotal(s.accounts, to);
    if from in s.accounts {
      var n := Open(s.accounts, to);
      AddTotal(n, from, -amount);
      AddTotal(AddOffline(n, from, -amount), to, amount);
    }
  }

  lemma CommitHoldConserves(s: State, from: string, to: string, amount: int, txId: string)
    ensures Total(DoCommitHold(s, from, to, amount, txId).0.accounts) == Total(s.accounts)
  {
    OpenKeepsTotal(s.accounts, to);
    if from in s.accounts {
      var n := Open(s.accounts, to);
      AddTotal(n, from, -amount);
      AddTotal(AddReserved(n, from, -amount), to, amount);
    }
  }

  lemma DirectCommitConserves(s: State, from: string, to: string, amount: int, txId: string)
    ensures Total(DoDirectCommit(s, from, to, amount, txId).0.accounts) == Total(s.accounts)
  {
    OpenKeepsTotal(s.accounts, to);
    if from in s.accounts { OnlineTransferTotal(Open(s.accounts, to), from, to, amount); }
  }

  lemma DeficitConserves(s: State, from: string, to: string, amount: int, txId: string)
    ensures Total(DoRecordDeficit(s, from, to, amount, txId).0.accounts) == Total(s.accounts)
  {
    OpenKeepsTotal(s.accounts, from);
    OpenKeepsTotal(Open(s.accounts, from), to);
    OnlineTransferTotal(Open(Open(s.accounts, from), to), from, to, amount);
  }

  lemma ReserveDebitConserves(s: State, to: string, amount: int, txId: string)
    ensures Total(DoDebitDeficitReserve(s, to, amount, txId).0.accounts) == Total(s.accounts)
  {
    DeficitConserves(s, RESERVE, to, amount, txId);
  }

  lemma MintingConserves(s: State, id: string, amount: int, txId: string)
    ensures Total(DoCreateAccount(s, id, amount).0.accounts)
            == Total(s.accounts) + (if id in s.accounts then 0 else amount)
    ensures Total(DoFundAccount(s, id, amount, txId).0.accounts)
            == Total(s.accounts) + (if id in s.accounts then amount else 0)
  {
    SumByUpdate(s.accounts, id, Account(amount, 0, 0), Worth);
    if id in s.accounts { AddTotal(s.accounts, id, amount); }
  }

  /** Every operation, whatever its outcome, changes the system total by exactly what it mints. */
  lemma StepConserves(s: State, op: Op)
    ensures Total(Step(s, op).0.accounts) == Total(s.accounts) + Minted(s, op)
  {
    match op
    case CreateAccount(id, initial) => MintingConserves(s, id, initial, "");
    case FundAccount(id, amount, txId) => MintingConserves(s, id, amount, txId);
    case AllocateOfflineAllowance(id, amount, txId) => HoldsConserve(s, id, amount, txId);
    case ReserveFunds(id, amount, txId) => HoldsConserve(s, id, amount, txId);
    case ReleaseHold(id, amount, txId) => HoldsConserve(s, id, amount, txId);
    case CommitOfflineAllowance(from, to, amount, txId) => CommitOfflineConserves(s, from, to, amount, txId);
    case CommitHold(from, to, amount, txId) => CommitHoldConserves(s, from, to, amount, txId);
    case DirectCommit(from, to, amount, txId) => DirectCommitConserves(s, from, to, amount, txId);
    case DebitDeficitReserve(to, amount, txId) => ReserveDebitConserves(s, to, amount, txId);
    case RecordDeficit(from, to, amount, txId) => DeficitConserves(s, from, to, amount, txId);
  }

  /** Over any run the total is what was there plus what was seeded and funded. */
  lemma {:induction false} RunConserves(s: State, ops: seq<Op>)
    ensures Total(Run(s, ops).accounts) == Total(s.accounts) + MintedRun(s, ops)
    decreases |ops|
  {
    if ops != [] {
      StepConserves(s, ops[0]);
      RunConserves(Step(s, ops[0]).0, ops[1..]);
    }
  }

  /** No bucket below zero, the deficit reserve's online bucket excepted. */
  ghost predicate Solvent(m: Accounts) {
    forall id :: id in m ==> SolventAccount(id, m[id])
  }

  predicate SolventAccount(id: string, a: Account) {
    (id == RESERVE || a.online >= 0) && a.offline >= 0 && a.reserved >= 0
  }

  /** What an operation must obey for `Solvent` to survive it: the two unchecked inputs of the source
      are not negative, and the legacy overdraft is not used. */
  predicate Prudent(op: Op) {
    match op
    case CreateAccount(_, initial) => initial >= 0
    case FundAccount(_, amount, _) => amount >= 0
    case ReleaseHold(_, amount, _) => amount >= 0
    case RecordDeficit(_, _, _, _) => false
    case _ => true
  }

  /** Rewriting accounts of a solvent ledger with solvent values keeps it solvent. */
  lemma SolventUpdate(m: Accounts, id: string, a: Account)
    requires Solvent(m) && SolventAccount(id, a)
    ensures Solvent(m[id := a])
  {
  }

  /** A transfer into an online bucket after taking from any bucket that covers it. */
  lemma SolventTransfer(m: Accounts, from: string, a: Account, to: string, amount: int)
    requires Solvent(m) && to in m && from in m && SolventAccount(from, a) && amount >= 0
    ensures Solvent(AddOnline(m[from := a], to, amount))
  {
    SolventUpdate(m, from, a);
    var n := m[from := a];
    assert SolventAccount(to, n[to]);
    SolventUpdate(n, to, n[to].(online := n[to].online + amount));
  }

  lemma SolventOpen(m: Accounts, id: string)
    requires Solvent(m)
    ensures Solvent(Open(m, id))
  {
    SolventUpdate(m, id, EMPTY_ACCOUNT);
  }

  lemma SingleStaysSolvent(s: State, op: Op)
    requires Solvent(s.accounts) && Prudent(op)
    requires op.CreateAccount? || op.FundAccount? || op.AllocateOfflineAllowance? || op.ReserveFunds? || op.ReleaseHold?
    ensures Solvent(Step(s, op).0.accounts)
  {
    var m := s.accounts;
    var n := Step(s, op).0.accounts;
    var id := if op.ReserveFunds? || op.ReleaseHold? then op.from else op.id;
    if id in n {
      assert id in m ==> SolventAccount(id, m[id]);
      SolventUpdate(m, id, n[id]);
      assert n == m[id := n[id]];
    }
  }

  lemma CommitOfflineStaysSolvent(s: State, from: string, to: string, amount: int, txId: string)
    requires Solvent(s.accounts)
    ensures Solvent(DoCommitOfflineAllowance(s, from, to, amount, txId).0.accounts)
  {
    if amount > 0 && from in s.accounts {
      SolventOpen(s.accounts, to);
      var m := Open(s.accounts, to);
      var a := m[from];
      assert SolventAccount(from, a);
      if a.offline >= amount { SolventTransfer(m, from, a.(offline := a.offline - amount), to, amount); }
    }
  }

  lemma CommitHoldStaysSolvent(s: State, from: string, to: string, amount: int, txId: string)
    requires Solvent(s.accounts)
    ensures Solvent(DoCommitHold(s, from, to, amount, txId).0.accounts)
  {
    if amount > 0 && from in s.accounts {
      SolventOpen(s.accounts, to);
      var m := Open(s.accounts, to);
      var a := m[from];
      assert SolventAccount(from, a);
      if a.reserved >= amount { SolventTransfer(m, from, a.(reserved := a.reserved - amount), to, amount); }
    }
  }

  lemma DirectCommitStaysSolvent(s: State, from: string, to: string, amount: int, txId: string)
    requires Solvent(s.accounts)
    ensures Solvent(DoDirectCommit(s, from, to, amount, txId).0.accounts)
  {
    if amount > 0 && from in s.accounts {
      SolventOpen(s.accounts, to);
      var m := Open(s.accounts, to);
      var a := m[from];
      assert SolventAccount(from, a);
      if a.online >= amount { SolventTransfer(m, from, a.(online := a.online - amount), to, amount); }
    }
  }

  lemma ReserveDebitStaysSolvent(s: State, to: string, amount: int, txId: string)
    requires Solvent(s.accounts)
    ensures Solvent(DoDebitDeficitReserve(s, to, amount, txId).0.accounts)
  {
    SolventOpen(s.accounts, RESERVE);
    SolventOpen(Open(s.accounts, RESERVE), to);
    var m := Open(Open(s.accounts, RESERVE), to);
    assert SolventAccount(RESERVE, m[RESERVE]);
    if amount > 0 { SolventTransfer(m, RESERVE, m[RESERVE].(online := m[RESERVE].online - amount), to, amount); }
  }

  lemma StepStaysSolvent(s: State, op: Op)
    requires Solvent(s.accounts) && Prudent(op)
    ensures Solvent(Step(s, op).0.accounts)
  {
    match op
    case CommitOfflineAllowance(from, to, amount, txId) => CommitOfflineStaysSolvent(s, from, to, amount, txId);
    case CommitHold(from, to, amount, txId) => CommitHoldStaysSolvent(s, from, to, amount, txId);
    case DirectCommit(from, to, amount, txId) => DirectCommitStaysSolvent(s, from, to, amount, txId);
    case DebitDeficitReserve(to, amount, txId) => ReserveDebitStaysSolvent(s, to, amount, txId);
    case _ => SingleStaysSolvent(s, op);
  }

  /** No run of prudent operations overdraws any bucket of any account but the reserve. */
  lemma {:induction false} RunStaysSolvent(s: State, ops: seq<Op>)
    requires Solvent(s.accounts)
    requires forall i :: 0 <= i < |ops| ==> Prudent(ops[i])
    ensures Solvent(Run(s, ops).accounts)
    decreases |ops|
  {
    if ops != [] {
      StepStaysSolvent(s, ops[0]);
      RunStaysSolvent(Step(s, ops[0]).0, ops[1..]);
    }
  }

  /** The sign check missing from ReleaseHold matters: a negative release overdraws exactly when it exceeds
      the online bucket. */
  lemma NegativeReleaseOverdraws(s: State, id: string, amount: int, txId: string)
    requires Solvent(s.accounts) && id in s.accounts && id != RESERVE && amount < 0
    ensures Solvent(Step(s, ReleaseHold(id, amount, txId)).0.accounts) <==> s.accounts[id].online + amount >= 0
  {
    var t := Step(s, ReleaseHold(id, amount, txId)).0.accounts;
    assert SolventAccount(id, s.accounts[id]);
    assert t[id].online == s.accounts[id].online + amount;
    if s.accounts[id].online + amount >= 0 {
      forall j | j in t ensures SolventAccount(j, t[j]) {}
    } else {
      assert !SolventAccount(id, t[id]);
    }
  }
}
