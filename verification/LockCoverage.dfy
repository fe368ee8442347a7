/** What the ledger's locks protect: every operation holds the locks of everything it changes. */
module LockCoverage {
  import opened LedgerModel
  import opened LedgerLocks

  /** The accounts whose buckets an operation reads and changes under their locks. */
  function Parties(op: Op): set<string> {
    match op
    case CreateAccount(_, _) => {}
    case FundAccount(id, _, _) => {id}
    case AllocateOfflineAllowance(id, _, _) => {id}
    case CommitOfflineAllowance(from, to, _, _) => {from, to}
    case DebitDeficitReserve(to, _, _) => {RESERVE, to}
    case ReserveFunds(from, _, _) => {from}
    case CommitHold(from, to, _, _) => {from, to}
    case DirectCommit(from, to, _, _) => {from, to}
    case ReleaseHold(from, _, _) => {from}
    case RecordDeficit(from, to, _, _) => {from, to}
  }

  /** Which of the accounts that an operation creates on demand are missing. */
  predicate LacksPayer(s: State, op: Op) {
    match op
    case DebitDeficitReserve(_, _, _) => RESERVE !in s.accounts
    case RecordDeficit(from, _, _, _) => from !in s.accounts
    case _ => false
  }

  predicate LacksPayee(s: State, op: Op) {
    match op
    case CommitOfflineAllowance(_, to, _, _) => to !in s.accounts
    case DebitDeficitReserve(to, _, _) => to !in s.accounts && to != RESERVE
    case CommitHold(_, to, _, _) => to !in s.accounts
    case DirectCommit(_, to, _, _) => to !in s.accounts
    case RecordDeficit(from, to, _, _) => to !in s.accounts && to != from
    case _ => false
  }

  /** The path through an operation that finds the ledger in this state. */
  function PathOf(s: State, op: Op): Path {
    match Step(s, op).1
    case Failed(InvalidAmount) => Rejected
    case Failed(AccountNotFound) => Unknown
    case out =>
      if op.DebitDeficitReserve? || op.RecordDeficit?
      then Through(LacksPayer(s, op), LacksPayee(s, op), out.Done?)
      else Through(LacksPayee(s, op), false, out.Done?)
  }

  /** The locks held after these instructions. */
  function HeldAfter(held: set<Lock>, script: seq<Instr>): set<Lock>
    decreases |script|
  {
    if script == [] then held
    else
      HeldAfter(if script[0].Acquire? then held + {script[0].lock} else held - {script[0].lock}, script[1..])
  }

  lemma {:induction false} HeldConcat(held: set<Lock>, a: seq<Instr>, b: seq<Instr>)
    ensures HeldAfter(held, a + b) == HeldAfter(HeldAfter(held, a), b)
    decreases |a|
  {
    if a == [] {
      assert a + b == b;
    } else {
      assert (a + b)[1..] == a[1..] + b;
      HeldConcat(if a[0].Acquire? then held + {a[0].lock} else held - {a[0].lock}, a[1..], b);
    }
  }

  lemma HeldOne(held: set<Lock>, i: Instr)
    ensures HeldAfter(held, [i]) == if i.Acquire? then held + {i.lock} else held - {i.lock}
  {
    assert [i][1..] == [];
  }

  lemma HeldTwo(held: set<Lock>, i: Instr, j: Instr)
    ensures HeldAfter(held, [i, j]) == HeldAfter(HeldAfter(held, [i]), [j])
  {
    assert [i, j] == [i] + [j];
    HeldConcat(held, [i], [j]);
  }

  /** Somewhere along the script all these account locks are held at once. */
  ghost predicate HoldsAtOnce(script: seq<Instr>, ids: set<string>) {
    exists k :: 0 <= k <= |script| && AllHeld(script[..k], ids)
  }

  ghost predicate AllHeld(script: seq<Instr>, ids: set<string>) {
    forall id :: id in ids ==> Mutex(id) in HeldAfter({}, script)
  }

  lemma HeldPrefix(a: seq<Instr>, b: seq<Instr>, ids: set<string>)
    requires AllHeld(a, ids)
    ensures HoldsAtOnce(a + b, ids)
  {
    assert (a + b)[..|a|] == a;
  }

  lemma BracketReleases(l: Lock, mode: Mode)
    ensures HeldAfter({}, [Acquire(l, mode), Free(l)]) == {}
  {
    HeldTwo({}, Acquire(l, mode), Free(l));
    HeldOne({}, Acquire(l, mode));
    HeldOne({l}, Free(l));
  }

  lemma CreatesReleases(missing: bool)
    ensures HeldAfter({}, Creates(missing)) == {}
  {
    BracketReleases(Table, Write);
  }

  /** Looking up and creating leaves nothing held, so that then the account locks are all there is. */
  lemma LookedUp(missing1: bool, missing2: bool, locks: seq<Instr>)
    ensures HeldAfter({}, LOOKUP + (Creates(missing1) + (Creates(missing2) + locks))) == HeldAfter({}, locks)
  {
    BracketReleases(Table, Read);
    CreatesReleases(missing1);
    CreatesReleases(missing2);
    HeldConcat({}, LOOKUP, Creates(missing1) + (Creates(missing2) + locks));
    HeldConcat({}, Creates(missing1), Creates(missing2) + locks);
    HeldConcat({}, Creates(missing2), locks);
  }

  lemma PairHeld(x: string, y: string)
    ensures HeldAfter({}, [Acquire(Mutex(x), Write), Acquire(Mutex(y), Write)]) == {Mutex(x), Mutex(y)}
    ensures HeldAfter({}, [Acquire(Mutex(x), Write)]) == {Mutex(x)}
  {
    HeldTwo({}, Acquire(Mutex(x), Write), Acquire(Mutex(y), Write));
    HeldOne({}, Acquire(Mutex(x), Write));
    HeldOne({Mutex(x)}, Acquire(Mutex(y), Write));
  }

  lemma Regrouped<T>(a: seq<T>, b: seq<T>, c: seq<T>, d: seq<T>, e: seq<T>)
    ensures (a + (b + (c + d))) + e == a + (b + (c + (d + e)))
  {
    assert (c + d) + e == c + (d + e);
    assert (b + (c + d)) + e == b + ((c + d) + e);
  }

  lemma TwoAccountsHeld(locks: seq<Instr>, free1: string, free2: string, missing1: bool, missing2: bool, posts: bool,
                        x: string, y: string)
    requires HeldAfter({}, locks) == {Mutex(x), Mutex(y)}
    ensures HoldsAtOnce(TwoAccounts(locks, free1, free2, missing1, missing2, posts), {x, y})
  {
    var up := LOOKUP + (Creates(missing1) + (Creates(missing2) + locks));
    var down := Posts(posts) + Frees(free1, free2);
    LookedUp(missing1, missing2, locks);
    HeldPrefix(up, down, {x, y});
    Regrouped(LOOKUP, Creates(missing1), Creates(missing2), locks, down);
  }

  lemma OneAccountHeld(id: string, inner: seq<Instr>, posts: bool)
    ensures HoldsAtOnce(OneAccount(id, inner, posts), {id})
  {
    var up, down := LOOKUP + [Acquire(Mutex(id), Write)], inner + (Posts(posts) + [Free(Mutex(id))]);
    BracketReleases(Table, Read);
    PairHeld(id, id);
    HeldConcat({}, LOOKUP, [Acquire(Mutex(id), Write)]);
    HeldPrefix(up, down, {id});
    assert up + down == OneAccount(id, inner, posts);
  }

  lemma FundHeld(id: string, posts: bool)
    ensures HoldsAtOnce([Acquire(Table, Write), Free(Table)]
                        + ([Acquire(Mutex(id), Write), Free(Mutex(id))] + Posts(posts)), {id})
  {
    var table := [Acquire(Table, Write), Free(Table)];
    var up, down := table + [Acquire(Mutex(id), Write)], [Free(Mutex(id))] + Posts(posts);
    BracketReleases(Table, Write);
    PairHeld(id, id);
    HeldConcat({}, table, [Acquire(Mutex(id), Write)]);
    HeldPrefix(up, down, {id});
    assert up + down == table + ([Acquire(Mutex(id), Write), Free(Mutex(id))] + Posts(posts));
  }

  lemma InOrderHeld(x: string, y: string)
    ensures HeldAfter({}, InOrder(x, y)) == {Mutex(x), Mutex(y)}
  {
    PairHeld(x, y);
    PairHeld(y, x);
  }

  /** An operation that is carried through holds the locks of all its parties at once. */
  lemma FullScriptHolds(op: Op, missing1: bool, missing2: bool, posts: bool)
    ensures HoldsAtOnce(FullScript(op, missing1, missing2, posts), Parties(op))
  {
    match op
    case CreateAccount(_, _) => assert AllHeld(FullScript(op, missing1, missing2, posts)[..0], {});
    case FundAccount(id, _, _) => FundHeld(id, posts);
    case AllocateOfflineAllowance(id, _, _) => OneAccountHeld(id, [], posts);
    case ReleaseHold(id, _, _) => OneAccountHeld(id, [], posts);
    case ReserveFunds(id, _, _) =>
      OneAccountHeld(id, if posts then [Acquire(Reservations, Write), Free(Reservations)] else [], posts);
    case CommitOfflineAllowance(from, to, _, _) =>
      InOrderHeld(from, to);
      TwoAccountsHeld(InOrder(from, to), from, to, missing1, false, posts, from, to);
    case CommitHold(from, to, _, _) =>
      InOrderHeld(from, to);
      TwoAccountsHeld(InOrder(from, to), from, to, missing1, false, posts, from, to);
    case DirectCommit(from, to, _, _) =>
      InOrderHeld(from, to);
      TwoAccountsHeld(InOrder(from, to), from, to, missing1, false, posts, from, to);
    case DebitDeficitReserve(to, _, _) =>
      PairHeld(RESERVE, to);
      TwoAccountsHeld([Acquire(Mutex(RESERVE), Write), Acquire(Mutex(to), Write)], to, RESERVE, missing1, missing2,
                      posts, RESERVE, to);
    case RecordDeficit(from, to, _, _) =>
      PairHeld(from, to);
      TwoAccountsHeld([Acquire(Mutex(from), Write), Acquire(Mutex(to), Write)], to, from, missing1, missing2, posts,
                      from, to);
  }

  /** An account outside the parties is not changed, except that CreateAccount may add one. */
  lemma OnlyPartiesChange(s: State, op: Op, id: string)
    requires id !in Parties(op) && !(op.CreateAccount? && op.id == id)
    ensures Get(Step(s, op).0.accounts, id) == Get(s.accounts, id)
    ensures id in Step(s, op).0.accounts <==> id in s.accounts
  {
  }

  /** The operation opens its payee, or payer and payee, if they do not exist. */
  predicate Opens(op: Op) {
    op.CommitOfflineAllowance? || op.CommitHold? || op.DirectCommit? || OpensBoth(op)
  }

  predicate OpensBoth(op: Op) {
    op.DebitDeficitReserve? || op.RecordDeficit?
  }

  /** Only account locks are taken here. */
  predicate MutexesOnly(locks: seq<Instr>) {
    forall i :: 0 <= i < |locks| ==> locks[i].lock.Mutex?
  }

  lemma TwoAccountsWrites(locks: seq<Instr>, free1: string, free2: string, missing1: bool, missing2: bool, posts: bool)
    requires MutexesOnly(locks)
    ensures var script := TwoAccounts(locks, free1, free2, missing1, missing2, posts);
            && (Acquire(Journal, Write) in script <==> posts)
            && (missing1 || missing2 ==> Acquire(Table, Write) in script)
  {
    assert Acquire(Table, Write) in Creates(true) && Acquire(Journal, Write) in Posts(true);
  }

  lemma OneAccountWrites(id: string, inner: seq<Instr>, posts: bool)
    requires inner == [] || inner == [Acquire(Reservations, Write), Free(Reservations)]
    ensures Acquire(Journal, Write) in OneAccount(id, inner, posts) <==> posts
  {
    assert Acquire(Journal, Write) in Posts(true);
  }

  /** When the script of an operation that is carried through takes the journal and the table for writing. */
  lemma WriteLocks(op: Op, missing1: bool, missing2: bool, posts: bool)
    ensures var script := FullScript(op, missing1, missing2, posts);
            && (Acquire(Journal, Write) in script <==> posts && !op.CreateAccount?)
            && (op.CreateAccount? ==> Acquire(Table, Write) in script)
            && ((missing1 && Opens(op)) || (missing2 && OpensBoth(op)) ==> Acquire(Table, Write) in script)
  {
    match op
    case CreateAccount(_, _) => assert Acquire(Table, Write) in [Acquire(Table, Write), Free(Table)];
    case FundAccount(id, _, _) => assert Acquire(Journal, Write) in Posts(true);
    case AllocateOfflineAllowance(id, _, _) => OneAccountWrites(id, [], posts);
    case ReleaseHold(id, _, _) => OneAccountWrites(id, [], posts);
    case ReserveFunds(id, _, _) =>
      OneAccountWrites(id, if posts then [Acquire(Reservations, Write), Free(Reservations)] else [], posts);
    case CommitOfflineAllowance(from, to, _, _) =>
      TwoAccountsWrites(InOrder(from, to), from, to, missing1, false, posts);
    case CommitHold(from, to, _, _) => TwoAccountsWrites(InOrder(from, to), from, to, missing1, false, posts);
    case DirectCommit(from, to, _, _) => TwoAccountsWrites(InOrder(from, to), from, to, missing1, false, posts);
    case DebitDeficitReserve(to, _, _) =>
      TwoAccountsWrites([Acquire(Mutex(RESERVE), Write), Acquire(Mutex(to), Write)], to, RESERVE, missing1, missing2,
                        posts);
    case RecordDeficit(from, to, _, _) =>
      TwoAccountsWrites([Acquire(Mutex(from), Write), Acquire(Mutex(to), Write)], to, from, missing1, missing2, posts);
  }

  lemma PathChanges(s: State, op: Op)
    requires PathOf(s, op).Through?
    ensures var n, path := Step(s, op).0, PathOf(s, op);
            && (n.entries != s.entries <==> path.posts && !op.CreateAccount?)
            && (n.accounts.Keys != s.accounts.Keys ==>
                  op.CreateAccount? || (path.missing1 && Opens(op)) || (path.missing2 && OpensBoth(op)))
  {
  }

  /** Whatever an operation changes, it changes under the locks that guard it: the accounts it works on are locked all
      at once, so that nobody sees one side of a transfer without the other; the journal is locked for writing exactly
      if an entry is posted, and the table if an account is created. An operation that ends early changes nothing. */
  lemma ChangesProtected(s: State, op: Op)
    ensures var n, path := Step(s, op).0, PathOf(s, op);
            var script := Script(op, path);
            && (path.Through? ==> HoldsAtOnce(script, Parties(op)))
            && (!path.Through? ==> n == s)
            && (n.entries != s.entries <==> Acquire(Journal, Write) in script)
            && (n.accounts.Keys != s.accounts.Keys ==> Acquire(Table, Write) in script)
  {
    var path := PathOf(s, op);
    if path.Through? {
      FullScriptHolds(op, path.missing1, path.missing2, path.posts);
      WriteLocks(op, path.missing1, path.missing2, path.posts);
      PathChanges(s, op);
    }
  }

  lemma VisitReleases(id: string)
    ensures HeldAfter({Table}, [Acquire(Mutex(id), Read)]) == {Table, Mutex(id)}
    ensures HeldAfter({Table}, [Acquire(Mutex(id), Read), Free(Mutex(id))]) == {Table}
  {
    HeldTwo({Table}, Acquire(Mutex(id), Read), Free(Mutex(id)));
    HeldOne({Table}, Acquire(Mutex(id), Read));
    HeldOne({Table, Mutex(id)}, Free(Mutex(id)));
  }

  lemma {:induction false} VisitHolds(ids: seq<string>, i: nat) returns (k: nat)
    requires i < |ids|
    ensures k <= |AuditVisits(ids)| && HeldAfter({Table}, AuditVisits(ids)[..k]) == {Table, Mutex(ids[i])}
  {
    var visit, more := [Acquire(Mutex(ids[0]), Read), Free(Mutex(ids[0]))], AuditVisits(ids[1..]);
    VisitReleases(ids[0]);
    if i == 0 {
      k := 1;
      assert AuditVisits(ids)[..1] == [Acquire(Mutex(ids[0]), Read)];
    } else {
      var k' := VisitHolds(ids[1..], i - 1);
      k := 2 + k';
      assert AuditVisits(ids)[..k] == visit + more[..k'];
      HeldConcat({Table}, visit, more[..k']);
    }
  }

  /** An audit reads every account under its lock while it holds the table, so that none is created meanwhile. */
  lemma AuditReads(ids: seq<string>, i: nat)
    requires i < |ids|
    ensures exists k :: 0 <= k <= |AuditScript(ids)|
                        && HeldAfter({}, AuditScript(ids)[..k]) == {Table, Mutex(ids[i])}
  {
    var k := VisitHolds(ids, i);
    var script := AuditScript(ids);
    assert script[..1 + k] == [Acquire(Table, Read)] + AuditVisits(ids)[..k];
    HeldConcat({}, [Acquire(Table, Read)], AuditVisits(ids)[..k]);
    HeldOne({}, Acquire(Table, Read));
    assert HeldAfter({}, [Acquire(Table, Read)]) == {Table};
    assert HeldAfter({}, script[..1 + k]) == {Table, Mutex(ids[i])};
  }
}
