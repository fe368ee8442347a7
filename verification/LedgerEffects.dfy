/** What each ledger operation needs and what it moves, bucket by bucket, in one table. */
module LedgerEffects {
  import opened LedgerModel

  datatype Bucket = OnlineBucket | OfflineBucket | ReservedBucket | Outside

  /** One movement of money: out of a bucket of one account into a bucket of another. */
  datatype Transfer = Transfer(payer: string, source: Bucket, payee: string, target: Bucket, amount: int)

  /** The movement an operation stands for; account creation moves nothing. */
  function Meaning(op: Op): Transfer {
    match op
    case CreateAccount(id, _) => Transfer(id, Outside, id, Outside, 0)
    case FundAccount(id, amount, _) => Transfer(id, Outside, id, OnlineBucket, amount)
    case AllocateOfflineAllowance(id, amount, _) => Transfer(id, OnlineBucket, id, OfflineBucket, amount)
    case CommitOfflineAllowance(from, to, amount, _) => Transfer(from, OfflineBucket, to, OnlineBucket, amount)
    case DebitDeficitReserve(to, amount, _) => Transfer(RESERVE, OnlineBucket, to, OnlineBucket, amount)
    case ReserveFunds(from, amount, _) => Transfer(from, OnlineBucket, from, ReservedBucket, amount)
    case CommitHold(from, to, amount, _) => Transfer(from, ReservedBucket, to, OnlineBucket, amount)
    case DirectCommit(from, to, amount, _) => Transfer(from, OnlineBucket, to, OnlineBucket, amount)
    case ReleaseHold(from, amount, _) => Transfer(from, ReservedBucket, from, OnlineBucket, amount)
    case RecordDeficit(from, to, amount, _) => Transfer(from, OnlineBucket, to, OnlineBucket, amount)
  }

  function Holds(a: Account, b: Bucket): int {
    match b
    case OnlineBucket => a.online
    case OfflineBucket => a.offline
    case ReservedBucket => a.reserved
    case Outside => 0
  }

  /** The change of one bucket of one account. */
  function Change(t: Transfer, id: string, b: Bucket): int {
    (if id == t.payee && b == t.target then t.amount else 0) - (if id == t.payer && b == t.source then t.amount else 0)
  }

  /** The bucket changed as the transfer says, or not at all if the operation did not complete. */
  ghost predicate Moved(s: State, op: Op, id: string, b: Bucket) {
    var (n, out) := Step(s, op);
    Holds(Get(n.accounts, id), b) == Holds(Get(s.accounts, id), b)
        + (if out.Done? then Change(Meaning(op), id, b) else 0)
  }

  lemma CommitMoves(s: State, op: Op, id: string, b: Bucket)
    requires op.CommitOfflineAllowance? || op.CommitHold? || op.DirectCommit?
    ensures b != Outside ==> Moved(s, op, id, b)
  {
  }

  lemma DeficitMoves(s: State, op: Op, id: string, b: Bucket)
    requires op.DebitDeficitReserve? || op.RecordDeficit?
    ensures b != Outside ==> Moved(s, op, id, b)
  {
  }

  /** A completed operation moves exactly the money it stands for; any other outcome moves nothing. */
  lemma StepMoves(s: State, op: Op, id: string, b: Bucket)
    requires !op.CreateAccount? && b != Outside
    ensures var (n, out) := Step(s, op);
            Holds(Get(n.accounts, id), b) == Holds(Get(s.accounts, id), b)
                + (if out.Done? then Change(Meaning(op), id, b) else 0)
  {
    if op.DebitDeficitReserve? || op.RecordDeficit? {
      DeficitMoves(s, op, id, b);
    } else if op.CommitOfflineAllowance? || op.CommitHold? || op.DirectCommit? {
      CommitMoves(s, op, id, b);
    }
  }

  /** The entry an operation stands for: its kind and its two sides. */
  function Booking(op: Op, number: nat): Entry {
    match op
    case CreateAccount(_, _) => Entry(number, "", EntryCommit, "", "", 0)
    case FundAccount(id, amount, txId) => Entry(number, txId, EntryCommit, CAPITAL, id, amount)
    case AllocateOfflineAllowance(id, amount, txId) =>
      Entry(number, txId, EntryReserve, id + ONLINE_SIDE, id + OFFLINE_SIDE, amount)
    case CommitOfflineAllowance(from, to, amount, txId) =>
      Entry(number, txId, EntryCommit, from + OFFLINE_SIDE, to, amount)
    case DebitDeficitReserve(to, amount, txId) => Entry(number, txId, EntryDeficit, RESERVE, to, amount)
    case ReserveFunds(from, amount, txId) => Entry(number, txId, EntryReserve, from, ESCROW, amount)
    case CommitHold(_, to, amount, txId) => Entry(number, txId, EntryCommit, ESCROW, to, amount)
    case DirectCommit(from, to, amount, txId) => Entry(number, txId, EntryCommit, from, to, amount)
    case ReleaseHold(from, amount, txId) => Entry(number, txId, EntryRelease, ESCROW, from, amount)
    case RecordDeficit(from, to, amount, txId) => Entry(number, txId, EntryDeficit, from, to, amount)
  }

  /** A completed operation books one entry, of its kind, between its two sides, under its transaction id and the next
      number; any other outcome books nothing. */
  lemma StepBooks(s: State, op: Op)
    requires !op.CreateAccount?
    ensures var (n, out) := Step(s, op);
            n.entries == s.entries + (if out.Done? then [Booking(op, |s.entries| + 1)] else [])
  {
  }

  /** The accounts an operation makes sure exist, whether it completes or not. */
  function Opened(s: State, op: Op): set<string> {
    match op
    case CreateAccount(id, _) => {id}
    case CommitOfflineAllowance(from, to, amount, _) => if amount > 0 && from in s.accounts then {to} else {}
    case CommitHold(from, to, amount, _) => if amount > 0 && from in s.accounts then {to} else {}
    case DirectCommit(from, to, amount, _) => if amount > 0 && from in s.accounts then {to} else {}
    case DebitDeficitReserve(to, amount, _) => if amount > 0 then {RESERVE, to} else {}
    case RecordDeficit(from, to, _, _) => {from, to}
    case _ => {}
  }

  /** No operation closes an account, and accounts are opened for payees that pass the first checks and for nobody
      else. */
  lemma StepOpens(s: State, op: Op)
    ensures Step(s, op).0.accounts.Keys == s.accounts.Keys + Opened(s, op)
  {
  }

  /** A new account holds its opening balance online and nothing else; an existing one is left alone; nothing is
      booked. */
  lemma CreationExactly(s: State, id: string, initial: int, other: string)
    ensures var (n, out) := Step(s, CreateAccount(id, initial));
            && out == Done && n.entries == s.entries
            && Get(n.accounts, other)
               == (if other == id && id !in s.accounts then Account(initial, 0, 0) else Get(s.accounts, other))
  {
  }

  /** The operations that check the sign of their amount, that fail on an unknown payer, that insist on cover, and that
      lock the two accounts without looking whether they are one. */
  predicate ChecksSign(op: Op) {
    !op.CreateAccount? && !op.FundAccount? && !op.ReleaseHold? && !op.RecordDeficit?
  }

  predicate NeedsPayer(op: Op) {
    !op.CreateAccount? && !op.DebitDeficitReserve? && !op.RecordDeficit?
  }

  predicate NeedsCover(op: Op) {
    !op.CreateAccount? && !op.FundAccount? && !op.DebitDeficitReserve? && !op.RecordDeficit?
  }

  predicate LocksTwice(op: Op) {
    (op.DebitDeficitReserve? || op.RecordDeficit?) && Meaning(op).payer == Meaning(op).payee
  }

  /** An operation completes exactly when the checks it makes are met: sign, payer, cover and no double lock. An
      overdraft is thus possible only through the two deficit operations and through a negative amount. */
  lemma CompletesExactly(s: State, op: Op)
    ensures var t := Meaning(op);
            Step(s, op).1.Done? <==>
              && (ChecksSign(op) ==> t.amount > 0)
              && (NeedsPayer(op) ==> t.payer in s.accounts)
              && (NeedsCover(op) ==> Holds(Get(s.accounts, t.payer), t.source) >= t.amount)
              && !LocksTwice(op)
  {
  }

  /** Which error is reported: the checks are made in this order. */
  lemma ErrorsExactly(s: State, op: Op)
    requires !Step(s, op).1.Done?
    ensures var t := Meaning(op);
            Step(s, op).1 ==
              if ChecksSign(op) && t.amount <= 0 then Failed(InvalidAmount)
              else if NeedsPayer(op) && t.payer !in s.accounts then Failed(AccountNotFound)
              else if LocksTwice(op) then Hangs
              else if t.source == ReservedBucket then Failed(HoldMismatch)
              else Failed(InsufficientFunds)
  {
  }
}
