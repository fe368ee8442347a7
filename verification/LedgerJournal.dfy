/** The journal alone reproduces the live balances, exactly when account names do not clash with journal sides. */
module LedgerJournal {
  import opened Sums
  import opened LedgerModel

  /** Credits minus debits booked under a journal name. */
  ghost function Net(entries: seq<Entry>, name: string): int {
    if entries == [] then 0 else
      var e := entries[|entries| - 1];
      Net(entries[..|entries| - 1], name)
      + (if e.credit == name then e.amount else 0)
      - (if e.debit == name then e.amount else 0)
  }

  /** The bucket values an account should have, read off the journal and its opening balance. */
  ghost predicate AccountMatches(s: State, seeds: map<string, int>, id: string) {
    var a := Get(s.accounts, id);
    && a.online == Seed(seeds, id) + Net(s.entries, id) + Net(s.entries, id + ONLINE_SIDE)
    && a.offline == Net(s.entries, id + OFFLINE_SIDE)
  }

  ghost predicate EscrowMatches(s: State) {
    SumBy(s.accounts, Held) == Net(s.entries, ESCROW)
  }

  ghost predicate JournalMatches(s: State, seeds: map<string, int>, names: set<string>) {
    && EscrowMatches(s)
    && forall id :: id in names ==> AccountMatches(s, seeds, id)
  }

  ghost function Seed(seeds: map<string, int>, id: string): int {
    if id in seeds then seeds[id] else 0
  }

  /** Opening balances after one step: only an effective CreateAccount sets one. */
  ghost function Seeded(s: State, seeds: map<string, int>, op: Op): map<string, int> {
    if op.CreateAccount? && op.id !in s.accounts then seeds[op.id := op.initial] else seeds
  }

  ghost function SeedsRun(s: State, seeds: map<string, int>, ops: seq<Op>): map<string, int>
    decreases |ops|
  {
    if ops == [] then seeds else SeedsRun(Step(s, ops[0]).0, Seeded(s, seeds, ops[0]), ops[1..])
  }

  /** The account names an operation takes as arguments. */
  ghost function Names(op: Op): set<string> {
    match op
    case CreateAccount(id, _) => {id}
    case FundAccount(id, _, _) => {id}
    case AllocateOfflineAllowance(id, _, _) => {id}
    case CommitOfflineAllowance(from, to, _, _) => {from, to}
    case DebitDeficitReserve(to, _, _) => {RESERVE, to}
    case ReserveFunds(from, _, _) => {from}
    case CommitHold(from, to, _, _) => {from, to}
    case DirectCommit(from, to, _, _) => {from, to}
    case ReleaseHold(from, _, _) => {from}
    case RecordDeficit(from, to, _, _) => {from, to}
  }

  ghost predicate Uses(ops: seq<Op>, names: set<string>) {
    forall i :: 0 <= i < |ops| ==> Names(ops[i]) <= names
  }

  /** No account is called like a journal-only name or like a side of another account. */
  ghost predicate NoClash(names: set<string>) {
    && ESCROW !in names
    && CAPITAL !in names
    && forall a, b :: a in names && b in names ==> a != b + ONLINE_SIDE && a != b + OFFLINE_SIDE
  }

  lemma NetPost(s: State, m: Accounts, kind: EntryType, debit: string, credit: string, amount: int, txId: string,
                name: string)
    ensures Net(Post(s, m, kind, debit, credit, amount, txId).entries, name)
         == Net(s.entries, name) + (if credit == name then amount else 0) - (if debit == name then amount else 0)
  {
    var t := Post(s, m, kind, debit, credit, amount, txId);
    assert t.entries[..|t.entries| - 1] == s.entries;
  }

  /** The derived journal names of distinct accounts are distinct from each other and from the fixed names. */
  lemma SidesApart(a: string, b: string)
    ensures a + ONLINE_SIDE != b + OFFLINE_SIDE
    ensures a != b ==> a + ONLINE_SIDE != b + ONLINE_SIDE && a + OFFLINE_SIDE != b + OFFLINE_SIDE
    ensures ESCROW != a + ONLINE_SIDE && ESCROW != a + OFFLINE_SIDE
    ensures CAPITAL != a + ONLINE_SIDE && CAPITAL != a + OFFLINE_SIDE
  {
    assert (a + ONLINE_SIDE)[|a + ONLINE_SIDE| - 7] == '_';
    assert (b + OFFLINE_SIDE)[|b + OFFLINE_SIDE| - 7] == 'O';
    assert a == (a + ONLINE_SIDE)[..|a + ONLINE_SIDE| - 7] == (a + OFFLINE_SIDE)[..|a + OFFLINE_SIDE| - 8];
    assert b == (b + ONLINE_SIDE)[..|b + ONLINE_SIDE| - 7] == (b + OFFLINE_SIDE)[..|b + OFFLINE_SIDE| - 8];
    assert (a + ONLINE_SIDE)[|a + ONLINE_SIDE| - 1] == (a + OFFLINE_SIDE)[|a + OFFLINE_SIDE| - 1] == 'E';
    assert ESCROW[|ESCROW| - 1] == 'W' && CAPITAL[|CAPITAL| - 1] == 'L';
  }

  /** The effect of one entry on the net of a name. */
  ghost function Booked(debit: string, credit: string, amount: int, name: string): int {
    (if credit == name then amount else 0) - (if debit == name then amount else 0)
  }

  /** The buckets of `id` move by exactly what the entry books on its names. */
  ghost predicate Moves(m: Accounts, n: Accounts, debit: string, credit: string, amount: int, id: string) {
    && Get(n, id).online - Get(m, id).online
       == Booked(debit, credit, amount, id) + Booked(debit, credit, amount, id + ONLINE_SIDE)
    && Get(n, id).offline - Get(m, id).offline == Booked(debit, credit, amount, id + OFFLINE_SIDE)
  }

  lemma PostKeepsAccount(s: State, seeds: map<string, int>, id: string,
                         m: Accounts, kind: EntryType, debit: string, credit: string, amount: int, txId: string)
    requires AccountMatches(s, seeds, id) && Moves(s.accounts, m, debit, credit, amount, id)
    ensures AccountMatches(Post(s, m, kind, debit, credit, amount, txId), seeds, id)
  {
    NetPost(s, m, kind, debit, credit, amount, txId, id);
    NetPost(s, m, kind, debit, credit, amount, txId, id + ONLINE_SIDE);
    NetPost(s, m, kind, debit, credit, amount, txId, id + OFFLINE_SIDE);
  }

  /** A posting keeps the journal exact when every account, and the held total, move as booked. */
  lemma PostMatches(s: State, seeds: map<string, int>, names: set<string>,
                    m: Accounts, kind: EntryType, debit: string, credit: string, amount: int, txId: string)
    requires JournalMatches(s, seeds, names)
    requires SumBy(m, Held) == SumBy(s.accounts, Held) + Booked(debit, credit, amount, ESCROW)
    requires forall id :: id in names ==> Moves(s.accounts, m, debit, credit, amount, id)
    ensures JournalMatches(Post(s, m, kind, debit, credit, amount, txId), seeds, names)
  {
    NetPost(s, m, kind, debit, credit, amount, txId, ESCROW);
    forall id | id in names ensures AccountMatches(Post(s, m, kind, debit, credit, amount, txId), seeds, id) {
      PostKeepsAccount(s, seeds, id, m, kind, debit, credit, amount, txId);
    }
  }

  lemma HeldTotals(m: Accounts, id: string, x: int)
    requires id in m
    ensures SumBy(AddOnline(m, id, x), Held) == SumBy(m, Held)
    ensures SumBy(AddOffline(m, id, x), Held) == SumBy(m, Held)
    ensures SumBy(AddReserved(m, id, x), Held) == SumBy(m, Held) + x
  {
    SumByUpdate(m, id, m[id].(online := m[id].online + x), Held);
    SumByUpdate(m, id, m[id].(offline := m[id].offline + x), Held);
    SumByUpdate(m, id, m[id].(reserved := m[id].reserved + x), Held);
  }

  lemma OpenKeepsHeld(m: Accounts, id: string)
    ensures SumBy(Open(m, id), Held) == SumBy(m, Held)
  {
    SumByUpdate(m, id, EMPTY_ACCOUNT, Held);
  }

  /** Opening an empty account changes no match: absent and empty read the same. */
  lemma OpenKeepsMatch(s: State, seeds: map<string, int>, names: set<string>, id: string)
    requires JournalMatches(s, seeds, names)
    ensures JournalMatches(s.(accounts := Open(s.accounts, id)), seeds, names)
  {
    OpenKeepsHeld(s.accounts, id);
    var t := s.(accounts := Open(s.accounts, id));
    forall n | n in names ensures AccountMatches(t, seeds, n) {
      assert AccountMatches(s, seeds, n);
      assert Get(t.accounts, n) == Get(s.accounts, n);
    }
  }

  /** `x` is not a side of `id`, nor `id` of `x`. */
  ghost predicate Apart(x: string, id: string) {
    && x != id + ONLINE_SIDE && x != id + OFFLINE_SIDE && id != x + ONLINE_SIDE && id != x + OFFLINE_SIDE
  }

  /** `source` is neither `id` nor a side of it. */
  ghost predicate Foreign(source: string, id: string) {
    id != source && id + ONLINE_SIDE != source && id + OFFLINE_SIDE != source
  }

  lemma NamesApart(names: set<string>, x: string, id: string)
    requires NoClash(names) && x in names && id in names
    ensures Apart(x, id) && Foreign(ESCROW, x) && Foreign(CAPITAL, x)
  {
    SidesApart(x, id);
  }

  /** A transfer booked under plain names, each side landing in the online bucket of an account (or outside). */
  lemma OnlineMoves(m: Accounts, from: string, to: string, amount: int, id: string)
    requires from in m && to in m && Apart(from, id) && Apart(to, id)
    ensures Moves(m, AddOnline(AddOnline(m, from, -amount), to, amount), from, to, amount, id)
  {
  }

  lemma CreditMoves(m: Accounts, n: Accounts, source: string, to: string, amount: int, id: string)
    requires Foreign(source, id) && Apart(to, id)
    requires Get(n, id).offline == Get(m, id).offline
    requires Get(n, id).online == Get(m, id).online + (if id == to then amount else 0)
    ensures Moves(m, n, source, to, amount, id)
  {
  }

  lemma DebitMoves(m: Accounts, n: Accounts, from: string, target: string, amount: int, id: string)
    requires Foreign(target, id) && Apart(from, id)
    requires Get(n, id).offline == Get(m, id).offline
    requires Get(n, id).online == Get(m, id).online - (if id == from then amount else 0)
    ensures Moves(m, n, from, target, amount, id)
  {
  }

  lemma AllocateMoves(m: Accounts, x: string, amount: int, id: string)
    requires x in m && Apart(x, id)
    ensures Moves(m, AddOffline(AddOnline(m, x, -amount), x, amount), x + ONLINE_SIDE, x + OFFLINE_SIDE, amount, id)
  {
    SidesApart(x, id);
    SidesApart(id, x);
  }

  lemma CommitOfflineMoves(m: Accounts, from: string, to: string, amount: int, id: string)
    requires from in m && to in m && Apart(from, id) && Apart(to, id)
    ensures Moves(m, AddOnline(AddOffline(m, from, -amount), to, amount), from + OFFLINE_SIDE, to, amount, id)
  {
    SidesApart(from, id);
    SidesApart(id, from);
  }

  /** Online money moving between two accounts of the universe, booked under their own names. */
  lemma OnlineTransferMatches(s: State, seeds: map<string, int>, names: set<string>,
                              from: string, to: string, amount: int, kind: EntryType, txId: string)
    requires NoClash(names) && from in names && to in names && JournalMatches(s, seeds, names)
    requires from in s.accounts && to in s.accounts
    ensures JournalMatches(Post(s, AddOnline(AddOnline(s.accounts, from, -amount), to, amount), kind, from, to,
                                amount, txId),
                           seeds, names)
  {
    var m := AddOnline(AddOnline(s.accounts, from, -amount), to, amount);
    HeldTotals(s.accounts, from, -amount);
    HeldTotals(AddOnline(s.accounts, from, -amount), to, amount);
    forall id | id in names ensures Moves(s.accounts, m, from, to, amount, id) {
      NamesApart(names, from, id);
      NamesApart(names, to, id);
      OnlineMoves(s.accounts, from, to, amount, id);
    }
    PostMatches(s, seeds, names, m, kind, from, to, amount, txId);
  }

  lemma CreateMatches(s: State, seeds: map<string, int>, names: set<string>, id: string, initial: int)
    requires JournalMatches(s, seeds, names) && seeds.Keys <= s.accounts.Keys && id !in s.accounts
    ensures JournalMatches(s.(accounts := s.accounts[id := Account(initial, 0, 0)]), seeds[id := initial], names)
  {
    SumByUpdate(s.accounts, id, Account(initial, 0, 0), Held);
    var t := s.(accounts := s.accounts[id := Account(initial, 0, 0)]);
    forall n | n in names ensures AccountMatches(t, seeds[id := initial], n) {
      assert AccountMatches(s, seeds, n);
    }
  }

  /** Money from outside the universe of accounts arriving online at `x`. */
  lemma FundMatches(s: State, seeds: map<string, int>, names: set<string>, x: string, amount: int, txId: string)
    requires NoClash(names) && x in names && JournalMatches(s, seeds, names) && x in s.accounts
    ensures JournalMatches(Post(s, AddOnline(s.accounts, x, amount), EntryCommit, CAPITAL, x, amount, txId), seeds,
                           names)
  {
    var m := AddOnline(s.accounts, x, amount);
    HeldTotals(s.accounts, x, amount);
    assert Booked(CAPITAL, x, amount, ESCROW) == 0 by { assert |CAPITAL| != |ESCROW|; }
    forall id | id in names ensures Moves(s.accounts, m, CAPITAL, x, amount, id) {
      NamesApart(names, id, x);
      CreditMoves(s.accounts, m, CAPITAL, x, amount, id);
    }
    PostMatches(s, seeds, names, m, EntryCommit, CAPITAL, x, amount, txId);
  }

  lemma AllocateMatches(s: State, seeds: map<string, int>, names: set<string>, x: string, amount: int, txId: string)
    requires NoClash(names) && x in names && JournalMatches(s, seeds, names) && x in s.accounts
    ensures JournalMatches(Post(s, AddOffline(AddOnline(s.accounts, x, -amount), x, amount),
                                EntryReserve, x + ONLINE_SIDE, x + OFFLINE_SIDE, amount, txId), seeds, names)
  {
    var m := AddOffline(AddOnline(s.accounts, x, -amount), x, amount);
    HeldTotals(s.accounts, x, -amount);
    HeldTotals(AddOnline(s.accounts, x, -amount), x, amount);
    SidesApart(x, x);
    forall id | id in names ensures Moves(s.accounts, m, x + ONLINE_SIDE, x + OFFLINE_SIDE, amount, id) {
      NamesApart(names, x, id);
      AllocateMoves(s.accounts, x, amount, id);
    }
    PostMatches(s, seeds, names, m, EntryReserve, x + ONLINE_SIDE, x + OFFLINE_SIDE, amount, txId);
  }

  lemma CommitOfflineMatches(s: State, seeds: map<string, int>, names: set<string>,
                             from: string, to: string, amount: int, txId: string)
    requires NoClash(names) && from in names && to in names && JournalMatches(s, seeds, names)
    requires from in s.accounts && to in s.accounts
    ensures JournalMatches(Post(s, AddOnline(AddOffline(s.accounts, from, -amount), to, amount),
                                EntryCommit, from + OFFLINE_SIDE, to, amount, txId), seeds, names)
  {
    var m := AddOnline(AddOffline(s.accounts, from, -amount), to, amount);
    HeldTotals(s.accounts, from, -amount);
    HeldTotals(AddOffline(s.accounts, from, -amount), to, amount);
    SidesApart(from, from);
    forall id | id in names ensures Moves(s.accounts, m, from + OFFLINE_SIDE, to, amount, id) {
      NamesApart(names, from, id);
      NamesApart(names, to, id);
      CommitOfflineMoves(s.accounts, from, to, amount, id);
    }
    PostMatches(s, seeds, names, m, EntryCommit, from + OFFLINE_SIDE, to, amount, txId);
  }

  lemma EscrowBooked(x: string, amount: int)
    requires x != ESCROW
    ensures Booked(x, ESCROW, amount, ESCROW) == amount && Booked(ESCROW, x, amount, ESCROW) == -amount
  {
  }

  lemma EscrowInMoves(m: Accounts, names: set<string>, x: string, amount: int, id: string)
    requires NoClash(names) && x in names && id in names && x in m
    ensures Moves(m, AddReserved(AddOnline(m, x, -amount), x, amount), x, ESCROW, amount, id)
  {
    NamesApart(names, id, x);
    DebitMoves(m, AddReserved(AddOnline(m, x, -amount), x, amount), x, ESCROW, amount, id);
  }

  lemma EscrowOutMoves(m: Accounts, names: set<string>, from: string, to: string, amount: int, id: string)
    requires NoClash(names) && to in names && id in names && from in m && to in m
    ensures Moves(m, AddOnline(AddReserved(m, from, -amount), to, amount), ESCROW, to, amount, id)
  {
    NamesApart(names, id, to);
    CreditMoves(m, AddOnline(AddReserved(m, from, -amount), to, amount), ESCROW, to, amount, id);
  }

  lemma ReserveMatches(s: State, seeds: map<string, int>, names: set<string>, x: string, amount: int, txId: string)
    requires NoClash(names) && x in names && JournalMatches(s, seeds, names) && x in s.accounts
    ensures JournalMatches(Post(s, AddReserved(AddOnline(s.accounts, x, -amount), x, amount),
                                EntryReserve, x, ESCROW, amount, txId), seeds, names)
  {
    var m := AddReserved(AddOnline(s.accounts, x, -amount), x, amount);
    HeldTotals(s.accounts, x, -amount);
    HeldTotals(AddOnline(s.accounts, x, -amount), x, amount);
    EscrowBooked(x, amount);
    forall id | id in names ensures Moves(s.accounts, m, x, ESCROW, amount, id) {
      EscrowInMoves(s.accounts, names, x, amount, id);
    }
    PostMatches(s, seeds, names, m, EntryReserve, x, ESCROW, amount, txId);
  }

  /** Held money leaving one account and landing online in another (or the same), booked out of escrow. */
  lemma EscrowOutMatches(s: State, seeds: map<string, int>, names: set<string>,
                         from: string, to: string, amount: int, kind: EntryType, txId: string)
    requires NoClash(names) && from in names && to in names && JournalMatches(s, seeds, names)
    requires from in s.accounts && to in s.accounts
    ensures JournalMatches(Post(s, AddOnline(AddReserved(s.accounts, from, -amount), to, amount),
                                kind, ESCROW, to, amount, txId), seeds, names)
  {
    var m := AddOnline(AddReserved(s.accounts, from, -amount), to, amount);
    HeldTotals(s.accounts, from, -amount);
    HeldTotals(AddReserved(s.accounts, from, -amount), to, amount);
    EscrowBooked(to, amount);
    forall id | id in names ensures Moves(s.accounts, m, ESCROW, to, amount, id) {
      EscrowOutMoves(s.accounts, names, from, to, amount, id);
    }
    PostMatches(s, seeds, names, m, kind, ESCROW, to, amount, txId);
  }

  lemma OpenedTransferMatches(s: State, seeds: map<string, int>, names: set<string>,
                              from: string, to: string, amount: int, txId: string)
    requires NoClash(names) && from in names && to in names && JournalMatches(s, seeds, names)
    ensures var o := Open(Open(s.accounts, from), to);
            && JournalMatches(s.(accounts := o), seeds, names)
            && JournalMatches(Post(s, AddOnline(AddOnline(o, from, -amount), to, amount), EntryDeficit, from, to,
                                   amount, txId),
                              seeds, names)
  {
    var o1 := s.(accounts := Open(s.accounts, from));
    var o2 := o1.(accounts := Open(o1.accounts, to));
    OpenKeepsMatch(s, seeds, names, from);
    OpenKeepsMatch(o1, seeds, names, to);
    OnlineTransferMatches(o2, seeds, names, from, to, amount, EntryDeficit, txId);
  }

  lemma CommitOfflineStepMatches(s: State, seeds: map<string, int>, names: set<string>,
                                 from: string, to: string, amount: int, txId: string)
    requires NoClash(names) && from in names && to in names && JournalMatches(s, seeds, names)
    ensures JournalMatches(DoCommitOfflineAllowance(s, from, to, amount, txId).0, seeds, names)
  {
    if from in s.accounts {
      OpenKeepsMatch(s, seeds, names, to);
      CommitOfflineMatches(s.(accounts := Open(s.accounts, to)), seeds, names, from, to, amount, txId);
    }
  }

  lemma CommitHoldStepMatches(s: State, seeds: map<string, int>, names: set<string>,
                              from: string, to: string, amount: int, txId: string)
    requires NoClash(names) && from in names && to in names && JournalMatches(s, seeds, names)
    ensures JournalMatches(DoCommitHold(s, from, to, amount, txId).0, seeds, names)
  {
    if from in s.accounts {
      OpenKeepsMatch(s, seeds, names, to);
      EscrowOutMatches(s.(accounts := Open(s.accounts, to)), seeds, names, from, to, amount, EntryCommit, txId);
    }
  }

  lemma DirectCommitStepMatches(s: State, seeds: map<string, int>, names: set<string>,
                                from: string, to: string, amount: int, txId: string)
    requires NoClash(names) && from in names && to in names && JournalMatches(s, seeds, names)
    ensures JournalMatches(DoDirectCommit(s, from, to, amount, txId).0, seeds, names)
  {
    if from in s.accounts {
      OpenKeepsMatch(s, seeds, names, to);
      OnlineTransferMatches(s.(accounts := Open(s.accounts, to)), seeds, names, from, to, amount, EntryCommit, txId);
    }
  }

  lemma ReserveDebitStepMatches(s: State, seeds: map<string, int>, names: set<string>, to: string, amount: int,
                                txId: string)
    requires NoClash(names) && RESERVE in names && to in names && JournalMatches(s, seeds, names)
    ensures JournalMatches(DoDebitDeficitReserve(s, to, amount, txId).0, seeds, names)
  {
    OpenedTransferMatches(s, seeds, names, RESERVE, to, amount, txId);
  }

  lemma DeficitStepMatches(s: State, seeds: map<string, int>, names: set<string>,
                           from: string, to: string, amount: int, txId: string)
    requires NoClash(names) && from in names && to in names && JournalMatches(s, seeds, names)
    ensures JournalMatches(DoRecordDeficit(s, from, to, amount, txId).0, seeds, names)
  {
    OpenedTransferMatches(s, seeds, names, from, to, amount, txId);
  }

  lemma FundStepMatches(s: State, seeds: map<string, int>, names: set<string>, id: string, amount: int, txId: string)
    requires NoClash(names) && id in names && JournalMatches(s, seeds, names)
    ensures JournalMatches(DoFundAccount(s, id, amount, txId).0, seeds, names)
  {
    if id in s.accounts { FundMatches(s, seeds, names, id, amount, txId); }
  }

  lemma HoldStepsMatch(s: State, seeds: map<string, int>, names: set<string>, id: string, amount: int, txId: string)
    requires NoClash(names) && id in names && JournalMatches(s, seeds, names)
    ensures JournalMatches(DoReserveFunds(s, id, amount, txId).0, seeds, names)
    ensures JournalMatches(DoReleaseHold(s, id, amount, txId).0, seeds, names)
  {
    if id in s.accounts {
      ReserveMatches(s, seeds, names, id, amount, txId);
      EscrowOutMatches(s, seeds, names, id, id, amount, EntryRelease, txId);
    }
  }

  lemma AllocateStepMatches(s: State, seeds: map<string, int>, names: set<string>, id: string, amount: int,
                            txId: string)
    requires NoClash(names) && id in names && JournalMatches(s, seeds, names)
    ensures JournalMatches(DoAllocateOfflineAllowance(s, id, amount, txId).0, seeds, names)
  {
    if id in s.accounts { AllocateMatches(s, seeds, names, id, amount, txId); }
  }

  /** One operation over clash-free names keeps the journal able to reproduce the balances. */
  lemma StepKeepsJournal(s: State, seeds: map<string, int>, names: set<string>, op: Op)
    requires NoClash(names) && Names(op) <= names
    requires JournalMatches(s, seeds, names) && seeds.Keys <= s.accounts.Keys
    ensures JournalMatches(Step(s, op).0, Seeded(s, seeds, op), names)
    ensures Seeded(s, seeds, op).Keys <= Step(s, op).0.accounts.Keys
  {
    StepKeepsAccounts(s, op);
    match op
    case CreateAccount(id, initial) =>
      if id !in s.accounts { CreateMatches(s, seeds, names, id, initial); }
    case FundAccount(id, amount, txId) => FundStepMatches(s, seeds, names, id, amount, txId);
    case AllocateOfflineAllowance(id, amount, txId) => AllocateStepMatches(s, seeds, names, id, amount, txId);
    case ReserveFunds(id, amount, txId) => HoldStepsMatch(s, seeds, names, id, amount, txId);
    case ReleaseHold(id, amount, txId) => HoldStepsMatch(s, seeds, names, id, amount, txId);
    case CommitOfflineAllowance(from, to, amount, txId) =>
      CommitOfflineStepMatches(s, seeds, names, from, to, amount, txId);
    case CommitHold(from, to, amount, txId) => CommitHoldStepMatches(s, seeds, names, from, to, amount, txId);
    case DirectCommit(from, to, amount, txId) => DirectCommitStepMatches(s, seeds, names, from, to, amount, txId);
    case DebitDeficitReserve(to, amount, txId) => ReserveDebitStepMatches(s, seeds, names, to, amount, txId);
    case RecordDeficit(from, to, amount, txId) => DeficitStepMatches(s, seeds, names, from, to, amount, txId);
  }

  lemma StepKeepsAccounts(s: State, op: Op)
    ensures s.accounts.Keys <= Step(s, op).0.accounts.Keys
  {
  }

  lemma {:induction false} RunKeepsJournal(s: State, seeds: map<string, int>, names: set<string>, ops: seq<Op>)
    requires NoClash(names) && Uses(ops, names)
    requires JournalMatches(s, seeds, names) && seeds.Keys <= s.accounts.Keys
    ensures JournalMatches(Run(s, ops), SeedsRun(s, seeds, ops), names)
    decreases |ops|
  {
    if ops != [] {
      assert Names(ops[0]) <= names;
      StepKeepsJournal(s, seeds, names, ops[0]);
      RunKeepsJournal(Step(s, ops[0]).0, Seeded(s, seeds, ops[0]), names, ops[1..]);
    }
  }

  /** Whether every run over these account names leaves a journal from which all balances can be read back. */
  ghost predicate AlwaysReproducible(names: set<string>) {
    forall ops: seq<Op> :: Uses(ops, names) ==>
      JournalMatches(Run(NEW_LEDGER, ops), SeedsRun(NEW_LEDGER, map[], ops), names)
  }

  lemma NewLedgerMatches(names: set<string>)
    ensures JournalMatches(NEW_LEDGER, map[], names)
  {
    SumByUpdate(map[ESCROW := EMPTY_ACCOUNT, CLEARING := EMPTY_ACCOUNT], RESERVE, EMPTY_ACCOUNT, Held);
    SumByUpdate(map[ESCROW := EMPTY_ACCOUNT], CLEARING, EMPTY_ACCOUNT, Held);
    var empty: Accounts := map[];
    SumByUpdate(empty, ESCROW, EMPTY_ACCOUNT, Held);
    assert SumBy(empty, Held) == 0;
  }

  lemma {:induction false} RunSnoc(s: State, seeds: map<string, int>, ops: seq<Op>, op: Op)
    ensures Run(s, ops + [op]) == Step(Run(s, ops), op).0
    ensures SeedsRun(s, seeds, ops + [op]) == Seeded(Run(s, ops), SeedsRun(s, seeds, ops), op)
    decreases |ops|
  {
    if ops == [] {
      assert (ops + [op])[1..] == [];
    } else {
      assert (ops + [op])[1..] == ops[1..] + [op];
      RunSnoc(Step(s, ops[0]).0, Seeded(s, seeds, ops[0]), ops[1..], op);
    }
  }

  /** Funding an account called like the capital name books nothing on it. */
  lemma CapitalFundBreaks(s: State, seeds: map<string, int>)
    requires AccountMatches(s, seeds, CAPITAL) && CAPITAL in s.accounts
    ensures !AccountMatches(DoFundAccount(s, CAPITAL, 1, "").0, seeds, CAPITAL)
  {
    var m := AddOnline(s.accounts, CAPITAL, 1);
    NetPost(s, m, EntryCommit, CAPITAL, CAPITAL, 1, "", CAPITAL);
    SidesApart(CAPITAL, CAPITAL);
    NetPost(s, m, EntryCommit, CAPITAL, CAPITAL, 1, "", CAPITAL + ONLINE_SIDE);
  }

  /** Funding the escrow account credits escrow without any hold behind it. */
  lemma EscrowFundBreaks(s: State)
    requires EscrowMatches(s) && ESCROW in s.accounts
    ensures !EscrowMatches(DoFundAccount(s, ESCROW, 1, "").0)
  {
    var m := AddOnline(s.accounts, ESCROW, 1);
    HeldTotals(s.accounts, ESCROW, 1);
    assert CAPITAL != ESCROW by { assert |CAPITAL| != |ESCROW|; }
    NetPost(s, m, EntryCommit, CAPITAL, ESCROW, 1, "", ESCROW);
  }

  /** An allocation books on the sides of `b`; an account carrying such a name does not move. */
  lemma SideAllocationBreaks(s: State, seeds: map<string, int>, a: string, b: string)
    requires a == b + ONLINE_SIDE || a == b + OFFLINE_SIDE
    requires AccountMatches(s, seeds, a) && b in s.accounts && s.accounts[b].online >= 1
    ensures !AccountMatches(DoAllocateOfflineAllowance(s, b, 1, "").0, seeds, a)
  {
    var m := AddOffline(AddOnline(s.accounts, b, -1), b, 1);
    SidesApart(a, b);
    SidesApart(b, b);
    NetPost(s, m, EntryReserve, b + ONLINE_SIDE, b + OFFLINE_SIDE, 1, "", a);
    NetPost(s, m, EntryReserve, b + ONLINE_SIDE, b + OFFLINE_SIDE, 1, "", a + ONLINE_SIDE);
    assert Get(m, a) == Get(s.accounts, a);
  }

  /** One more operation over the universe refutes reproducibility if it breaks a match it found. */
  lemma BrokenBy(names: set<string>, ops: seq<Op>, op: Op)
    requires Uses(ops, names) && Names(op) <= names
    requires !JournalMatches(Step(Run(NEW_LEDGER, ops), op).0,
                             Seeded(Run(NEW_LEDGER, ops), SeedsRun(NEW_LEDGER, map[], ops), op), names)
    ensures !AlwaysReproducible(names)
  {
    RunSnoc(NEW_LEDGER, map[], ops, op);
    assert Uses(ops + [op], names);
  }

  lemma EscrowClashBreaks(names: set<string>)
    requires ESCROW in names
    ensures !AlwaysReproducible(names)
  {
    if AlwaysReproducible(names) {
      NewLedgerMatches(names);
      EscrowFundBreaks(NEW_LEDGER);
      BrokenBy(names, [], FundAccount(ESCROW, 1, ""));
    }
  }

  lemma CapitalClashBreaks(names: set<string>)
    requires CAPITAL in names
    ensures !AlwaysReproducible(names)
  {
    if AlwaysReproducible(names) {
      var ops := [CreateAccount(CAPITAL, 0)];
      assert Uses(ops, names);
      RunSnoc(NEW_LEDGER, map[], [], ops[0]);
      assert [] + ops == ops;
      CapitalFundBreaks(Run(NEW_LEDGER, ops), SeedsRun(NEW_LEDGER, map[], ops));
      BrokenBy(names, ops, FundAccount(CAPITAL, 1, ""));
    }
  }

  lemma SideClashBreaks(names: set<string>, a: string, b: string)
    requires a in names && b in names
    requires a == b + ONLINE_SIDE || a == b + OFFLINE_SIDE
    ensures !AlwaysReproducible(names)
  {
    if AlwaysReproducible(names) {
      var ops := [CreateAccount(b, 0), FundAccount(b, 1, "")];
      assert Uses(ops, names);
      assert ops == [] + [ops[0]] + [ops[1]];
      RunSnoc(NEW_LEDGER, map[], [], ops[0]);
      RunSnoc(NEW_LEDGER, map[], [ops[0]], ops[1]);
      var s := Run(NEW_LEDGER, ops);
      assert b in s.accounts && s.accounts[b].online == 1;
      SideAllocationBreaks(s, SeedsRun(NEW_LEDGER, map[], ops), a, b);
      BrokenBy(names, ops, AllocateOfflineAllowance(b, 1, ""));
    }
  }

  /** The journal reproduces every balance after every run if and only if the account names do not clash. */
  lemma JournalExact(names: set<string>)
    ensures AlwaysReproducible(names) <==> NoClash(names)
  {
    if NoClash(names) {
      NewLedgerMatches(names);
      forall ops: seq<Op> | Uses(ops, names)
        ensures JournalMatches(Run(NEW_LEDGER, ops), SeedsRun(NEW_LEDGER, map[], ops), names)
      {
        RunKeepsJournal(NEW_LEDGER, map[], names, ops);
      }
    } else if ESCROW in names {
      EscrowClashBreaks(names);
    } else if CAPITAL in names {
      CapitalClashBreaks(names);
    } else {
      var a, b :| a in names && b in names && (a == b + ONLINE_SIDE || a == b + OFFLINE_SIDE);
      SideClashBreaks(names, a, b);
    }
  }
}
