/** The ledger as a value: accounts with three buckets, a journal, and one atomic step per operation. */
module LedgerModel {

  const ESCROW := "SYSTEM_ESCROW"
  const CLEARING := "SYSTEM_CLEARING"
  const CAPITAL := "SYSTEM_CAPITAL"
  const RESERVE := "ACC_MERCHANT_DEFICIT_RESERVE"
  const ONLINE_SIDE := "_ONLINE"
  const OFFLINE_SIDE := "_OFFLINE"

  /** Cents spendable online, cents set aside for offline use, cents held by in-flight payments. */
  datatype Account = Account(online: int, offline: int, reserved: int)

  datatype EntryType = EntryReserve | EntryCommit | EntryRelease | EntryDeficit

  datatype Entry = Entry(id: nat, txId: string, kind: EntryType, debit: string, credit: string, amount: int)

  type Accounts = map<string, Account>

  datatype State = State(accounts: Accounts, entries: seq<Entry>)

  datatype Error = AccountNotFound | InsufficientFunds | InvalidAmount | HoldMismatch

  /** `Hangs`: the operation locks one non-reentrant mutex twice and never returns. */
  datatype Outcome = Done | Failed(error: Error) | Hangs

  datatype Op =
    | CreateAccount(id: string, initial: int)
    | FundAccount(id: string, amount: int, txId: string)
    | AllocateOfflineAllowance(id: string, amount: int, txId: string)
    | CommitOfflineAllowance(from: string, to: string, amount: int, txId: string)
    | DebitDeficitReserve(to: string, amount: int, txId: string)
    | ReserveFunds(from: string, amount: int, txId: string)
    | CommitHold(from: string, to: string, amount: int, txId: string)
    | DirectCommit(from: string, to: string, amount: int, txId: string)
    | ReleaseHold(from: string, amount: int, txId: string)
    | RecordDeficit(from: string, to: string, amount: int, txId: string)

  const EMPTY_ACCOUNT := Account(0, 0, 0)

  /** The ledger right after construction: the three system accounts, nothing booked. */
  const NEW_LEDGER := State(map[ESCROW := EMPTY_ACCOUNT, CLEARING := EMPTY_ACCOUNT, RESERVE := EMPTY_ACCOUNT], [])

  function Open(m: Accounts, id: string): Accounts {
    if id in m then m else m[id := EMPTY_ACCOUNT]
  }

  function AddOnline(m: Accounts, id: string, x: int): Accounts
    requires id in m
  {
    m[id := m[id].(online := m[id].online + x)]
  }

  function AddOffline(m: Accounts, id: string, x: int): Accounts
    requires id in m
  {
    m[id := m[id].(offline := m[id].offline + x)]
  }

  function AddReserved(m: Accounts, id: string, x: int): Accounts
    requires id in m
  {
    m[id := m[id].(reserved := m[id].reserved + x)]
  }

  function Post(s: State, m: Accounts, kind: EntryType, debit: string, credit: string, amount: int,
                txId: string): State {
    State(m, s.entries + [Entry(|s.entries| + 1, txId, kind, debit, credit, amount)])
  }

  function Get(m: Accounts, id: string): Account {
    if id in m then m[id] else EMPTY_ACCOUNT
  }

  /** The held bucket, as a summand. */
  function Held(a: Account): int {
    a.reserved
  }

  /** The part of CommitHold that runs under both account locks. */
  function SettleHold(s: State, from: string, to: string, amount: int, txId: string): (State, Outcome)
    requires from in s.accounts && to in s.accounts
  {
    if s.accounts[from].reserved < amount then (s, Failed(HoldMismatch))
    else (Post(s, AddOnline(AddReserved(s.accounts, from, -amount), to, amount),
               EntryCommit, ESCROW, to, amount, txId), Done)
  }

  function DoCreateAccount(s: State, id: string, initial: int): (State, Outcome) {
    if id in s.accounts then (s, Done) else (s.(accounts := s.accounts[id := Account(initial, 0, 0)]), Done)
  }

  function DoFundAccount(s: State, id: string, amount: int, txId: string): (State, Outcome) {
    if id !in s.accounts then (s, Failed(AccountNotFound))
    else (Post(s, AddOnline(s.accounts, id, amount), EntryCommit, CAPITAL, id, amount, txId), Done)
  }

  function DoAllocateOfflineAllowance(s: State, id: string, amount: int, txId: string): (State, Outcome) {
    if amount <= 0 then (s, Failed(InvalidAmount))
    else if id !in s.accounts then (s, Failed(AccountNotFound))
    else if s.accounts[id].online < amount then (s, Failed(InsufficientFunds))
    else (Post(s, AddOffline(AddOnline(s.accounts, id, -amount), id, amount),
               EntryReserve, id + ONLINE_SIDE, id + OFFLINE_SIDE, amount, txId), Done)
  }

  function DoCommitOfflineAllowance(s: State, from: string, to: string, amount: int, txId: string): (State, Outcome) {
    if amount <= 0 then (s, Failed(InvalidAmount))
    else if from !in s.accounts then (s, Failed(AccountNotFound))
    else
      var m := Open(s.accounts, to);
      if m[from].offline < amount then (s.(accounts := m), Failed(InsufficientFunds))
      else (Post(s, AddOnline(AddOffline(m, from, -amount), to, amount),
                 EntryCommit, from + OFFLINE_SIDE, to, amount, txId), Done)
  }

  function DoDebitDeficitReserve(s: State, to: string, amount: int, txId: string): (State, Outcome) {
    if amount <= 0 then (s, Failed(InvalidAmount))
    else
      var m := Open(Open(s.accounts, RESERVE), to);
      if to == RESERVE then (s.(accounts := m), Hangs)
      else (Post(s, AddOnline(AddOnline(m, RESERVE, -amount), to, amount),
                 EntryDeficit, RESERVE, to, amount, txId), Done)
  }

  function DoReserveFunds(s: State, from: string, amount: int, txId: string): (State, Outcome) {
    if amount <= 0 then (s, Failed(InvalidAmount))
    else if from !in s.accounts then (s, Failed(AccountNotFound))
    else if s.accounts[from].online < amount then (s, Failed(InsufficientFunds))
    else (Post(s, AddReserved(AddOnline(s.accounts, from, -amount), from, amount),
               EntryReserve, from, ESCROW, amount, txId), Done)
  }

  function DoCommitHold(s: State, from: string, to: string, amount: int, txId: string): (State, Outcome) {
    if amount <= 0 then (s, Failed(InvalidAmount))
    else if from !in s.accounts then (s, Failed(AccountNotFound))
    else SettleHold(s.(accounts := Open(s.accounts, to)), from, to, amount, txId)
  }

  function DoDirectCommit(s: State, from: string, to: string, amount: int, txId: string): (State, Outcome) {
    if amount <= 0 then (s, Failed(InvalidAmount))
    else if from !in s.accounts then (s, Failed(AccountNotFound))
    else
      var m := Open(s.accounts, to);
      if m[from].online < amount then (s.(accounts := m), Failed(InsufficientFunds))
      else (Post(s, AddOnline(AddOnline(m, from, -amount), to, amount),
                 EntryCommit, from, to, amount, txId), Done)
  }

  function DoReleaseHold(s: State, from: string, amount: int, txId: string): (State, Outcome) {
    if from !in s.accounts then (s, Failed(AccountNotFound))
    else if s.accounts[from].reserved < amount then (s, Failed(HoldMismatch))
    else (Post(s, AddOnline(AddReserved(s.accounts, from, -amount), from, amount),
               EntryRelease, ESCROW, from, amount, txId), Done)
  }

  function DoRecordDeficit(s: State, from: string, to: string, amount: int, txId: string): (State, Outcome) {
    var m := Open(Open(s.accounts, from), to);
    if from == to then (s.(accounts := m), Hangs)
    else (Post(s, AddOnline(AddOnline(m, from, -amount), to, amount),
               EntryDeficit, from, to, amount, txId), Done)
  }

  /** One atomic operation of the ledger. */
  function Step(s: State, op: Op): (State, Outcome) {
    match op
    case CreateAccount(id, initial) => DoCreateAccount(s, id, initial)
    case FundAccount(id, amount, txId) => DoFundAccount(s, id, amount, txId)
    case AllocateOfflineAllowance(id, amount, txId) => DoAllocateOfflineAllowance(s, id, amount, txId)
    case CommitOfflineAllowance(from, to, amount, txId) => DoCommitOfflineAllowance(s, from, to, amount, txId)
    case DebitDeficitReserve(to, amount, txId) => DoDebitDeficitReserve(s, to, amount, txId)
    case ReserveFunds(from, amount, txId) => DoReserveFunds(s, from, amount, txId)
    case CommitHold(from, to, amount, txId) => DoCommitHold(s, from, to, amount, txId)
    case DirectCommit(from, to, amount, txId) => DoDirectCommit(s, from, to, amount, txId)
    case ReleaseHold(from, amount, txId) => DoReleaseHold(s, from, amount, txId)
    case RecordDeficit(from, to, amount, txId) => DoRecordDeficit(s, from, to, amount, txId)
  }

  function Run(s: State, ops: seq<Op>): State
    decreases |ops|
  {
    if ops == [] then s else Run(Step(s, ops[0]).0, ops[1..])
  }
}
