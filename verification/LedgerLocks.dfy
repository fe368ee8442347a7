/** The ledger's locks as explicit steps: which threads can wait for which, and why somebody can always move. */
module LedgerLocks {
  import opened LedgerModel
  import L = Lexicographic

  /** accountsLock, one mutex per account, resLock and entriesLock. */
  datatype Lock = Table | Mutex(id: string) | Reservations | Journal

  /** A read lock is shared with other readers; a write lock is shared with nobody. */
  datatype Mode = Read | Write

  datatype Instr = Acquire(lock: Lock, mode: Mode) | Free(lock: Lock)

  datatype Thread = Thread(held: map<Lock, Mode>, rest: seq<Instr>)

  type Threads = map<nat, Thread>

  /** Acquisition order: the table, then account mutexes by id, then the two leaf locks.
      With `reserveFirst` the deficit reserve's mutex precedes every other mutex. */
  predicate Before(reserveFirst: bool, a: Lock, b: Lock) {
    match (a, b)
    case (Mutex(x), Mutex(y)) =>
      if reserveFirst && (x == RESERVE || y == RESERVE) then x == RESERVE && y != RESERVE else L.Less(x, y)
    case (_, _) => Level(a) < Level(b)
  }

  function Level(a: Lock): nat {
    match a
    case Table => 0
    case Mutex(_) => 1
    case Reservations => 2
    case Journal => 3
  }

  lemma BeforeIrreflexive(first: bool, a: Lock)
    ensures !Before(first, a, a)
  {
    if a.Mutex? { L.Irreflexive(a.id); }
  }

  lemma BeforeTransitive(first: bool, a: Lock, b: Lock, c: Lock)
    requires Before(first, a, b) && Before(first, b, c)
    ensures Before(first, a, c)
  {
    if a.Mutex? && b.Mutex? && c.Mutex? {
      if !(first && (a.id == RESERVE || b.id == RESERVE || c.id == RESERVE)) {
        L.Transitive(a.id, b.id, c.id);
      }
    }
  }

  /** Locks are only ever requested above everything already held, and all are given back. */
  ghost predicate Disciplined(first: bool, held: map<Lock, Mode>, rest: seq<Instr>)
    decreases |rest|
  {
    if rest == [] then held == map[] else
      match rest[0]
      case Acquire(l, mode) =>
        (forall h :: h in held ==> Before(first, h, l)) && Disciplined(first, held[l := mode], rest[1..])
      case Free(l) => l in held && Disciplined(first, held - {l}, rest[1..])
  }

  predicate Compatible(a: Mode, b: Mode) {
    a == Read && b == Read
  }

  /** No holder conflicts with taking `l` in this mode; a thread's own hold conflicts like any other. */
  ghost predicate Grantable(ts: Threads, l: Lock, mode: Mode) {
    forall t :: t in ts && l in ts[t].held ==> Compatible(ts[t].held[l], mode)
  }

  ghost predicate WantsWrite(ts: Threads, t: nat, l: Lock) {
    t in ts && ts[t].rest != [] && ts[t].rest[0] == Acquire(l, Write)
  }

  ghost predicate CanStep(ts: Threads, t: nat) {
    && t in ts && ts[t].rest != []
    && (ts[t].rest[0].Acquire? ==> Grantable(ts, ts[t].rest[0].lock, ts[t].rest[0].mode))
  }

  /** Enabled even when a waiting writer keeps new readers out, as Go's RWMutex does. */
  ghost predicate Ready(ts: Threads, t: nat) {
    && CanStep(ts, t)
    && (ts[t].rest[0].Acquire? && ts[t].rest[0].mode == Read ==> forall w :: !WantsWrite(ts, w, ts[t].rest[0].lock))
  }

  function Exec(th: Thread): Thread
    requires th.rest != []
  {
    match th.rest[0]
    case Acquire(l, mode) => Thread(th.held[l := mode], th.rest[1..])
    case Free(l) => Thread(th.held - {l}, th.rest[1..])
  }

  ghost function StepThread(ts: Threads, t: nat): Threads {
    if CanStep(ts, t) then ts[t := Exec(ts[t])] else ts
  }

  ghost function Schedule(ts: Threads, order: seq<nat>): Threads
    decreases |order|
  {
    if order == [] then ts else Schedule(StepThread(ts, order[0]), order[1..])
  }

  ghost predicate AllDisciplined(ts: Threads, first: bool) {
    forall t :: t in ts ==> Disciplined(first, ts[t].held, ts[t].rest)
  }

  lemma {:induction false} ScheduleKeepsDiscipline(ts: Threads, first: bool, order: seq<nat>)
    requires AllDisciplined(ts, first)
    ensures AllDisciplined(Schedule(ts, order), first)
    decreases |order|
  {
    if order != [] {
      ScheduleKeepsDiscipline(StepThread(ts, order[0]), first, order[1..]);
    }
  }

  ghost function Wanted(ts: Threads): set<Lock> {
    set t | t in ts && ts[t].rest != [] && ts[t].rest[0].Acquire? :: ts[t].rest[0].lock
  }

  /** A non-empty finite set of locks has one above which nothing in the set lies. */
  lemma {:induction false} Maximal(first: bool, ls: set<Lock>) returns (top: Lock)
    requires ls != {}
    ensures top in ls && forall l :: l in ls ==> !Before(first, top, l)
    decreases ls
  {
    var x :| x in ls;
    BeforeIrreflexive(first, x);
    if ls == {x} {
      return x;
    }
    var below := Maximal(first, ls - {x});
    if Before(first, below, x) {
      forall l | l in ls ensures !Before(first, x, l) {
        if Before(first, x, l) { BeforeTransitive(first, below, x, l); }
      }
      top := x;
    } else {
      top := below;
    }
  }

  /** While any thread is unfinished, some thread is enabled, even under writer preference. */
  lemma SomebodyMoves(ts: Threads, first: bool, u: nat) returns (t: nat)
    requires AllDisciplined(ts, first) && u in ts && ts[u].rest != []
    ensures Ready(ts, t)
  {
    if exists f :: f in ts && ts[f].rest != [] && ts[f].rest[0].Free? {
      t :| t in ts && ts[t].rest != [] && ts[t].rest[0].Free?;
      return;
    }
    assert ts[u].rest[0].lock in Wanted(ts);
    var top := Maximal(first, Wanted(ts));
    forall h | h in ts ensures top !in ts[h].held {
      assert Disciplined(first, ts[h].held, ts[h].rest);
      if ts[h].rest != [] {
        assert ts[h].rest[0].lock in Wanted(ts);
      }
    }
    if exists w :: WantsWrite(ts, w, top) {
      t :| WantsWrite(ts, t, top);
    } else {
      t :| t in ts && ts[t].rest != [] && ts[t].rest[0].Acquire? && ts[t].rest[0].lock == top;
    }
  }

  /** The account mutexes in the order the two-account operations take them. */
  function InOrder(x: string, y: string): seq<Instr> {
    if L.Less(x, y) then [Acquire(Mutex(x), Write), Acquire(Mutex(y), Write)]
    else if x != y then [Acquire(Mutex(y), Write), Acquire(Mutex(x), Write)]
    else [Acquire(Mutex(x), Write)]
  }

  const LOOKUP := [Acquire(Table, Read), Free(Table)]

  function Creates(missing: bool): seq<Instr> {
    if missing then [Acquire(Table, Write), Free(Table)] else []
  }

  function Posts(posts: bool): seq<Instr> {
    if posts then [Acquire(Journal, Write), Free(Journal)] else []
  }

  /** The ways through an operation: rejected before any lock, ended by the lookup of an unknown account, or carried
      through, when accounts may have to be created first and a failed balance check posts nothing. */
  datatype Path = Rejected | Unknown | Through(missing1: bool, missing2: bool, posts: bool)

  /** Locks taken by an operation on a path through it. */
  function Script(op: Op, path: Path): seq<Instr> {
    match path
    case Rejected => []
    case Unknown => if op.FundAccount? || op.CreateAccount? then [Acquire(Table, Write), Free(Table)] else LOOKUP
    case Through(missing1, missing2, posts) => FullScript(op, missing1, missing2, posts)
  }

  function FullScript(op: Op, missing1: bool, missing2: bool, posts: bool): seq<Instr> {
    match op
    case CreateAccount(_, _) => [Acquire(Table, Write), Free(Table)]
    case FundAccount(id, _, _) =>
      [Acquire(Table, Write), Free(Table)] + ([Acquire(Mutex(id), Write), Free(Mutex(id))] + Posts(posts))
    case AllocateOfflineAllowance(id, _, _) => OneAccount(id, [], posts)
    case ReleaseHold(id, _, _) => OneAccount(id, [], posts)
    case ReserveFunds(id, _, _) =>
      OneAccount(id, if posts then [Acquire(Reservations, Write), Free(Reservations)] else [], posts)
    case CommitOfflineAllowance(from, to, _, _) => TwoAccounts(InOrder(from, to), from, to, missing1, false, posts)
    case CommitHold(from, to, _, _) => TwoAccounts(InOrder(from, to), from, to, missing1, false, posts)
    case DirectCommit(from, to, _, _) => TwoAccounts(InOrder(from, to), from, to, missing1, false, posts)
    case DebitDeficitReserve(to, _, _) =>
      TwoAccounts([Acquire(Mutex(RESERVE), Write), Acquire(Mutex(to), Write)], to, RESERVE, missing1, missing2, posts)
    case RecordDeficit(from, to, _, _) =>
      TwoAccounts([Acquire(Mutex(from), Write), Acquire(Mutex(to), Write)], to, from, missing1, missing2, posts)
  }

  function TwoAccounts(locks: seq<Instr>, free1: string, free2: string, missing1: bool, missing2: bool,
                       posts: bool): seq<Instr> {
    LOOKUP + (Creates(missing1) + (Creates(missing2) + (locks + (Posts(posts) + Frees(free1, free2)))))
  }

  function Frees(x: string, y: string): seq<Instr> {
    if x == y then [Free(Mutex(x))] else [Free(Mutex(x)), Free(Mutex(y))]
  }

  function OneAccount(id: string, inner: seq<Instr>, posts: bool): seq<Instr> {
    LOOKUP + ([Acquire(Mutex(id), Write)] + (inner + (Posts(posts) + [Free(Mutex(id))])))
  }

  /** AuditConservation: the table is held throughout, each account in turn, then the journal. */
  function AuditScript(ids: seq<string>): seq<Instr> {
    [Acquire(Table, Read)] + (AuditVisits(ids) + ([Acquire(Journal, Read), Free(Journal)] + [Free(Table)]))
  }

  function AuditVisits(ids: seq<string>): seq<Instr> {
    if ids == [] then [] else [Acquire(Mutex(ids[0]), Read), Free(Mutex(ids[0]))] + AuditVisits(ids[1..])
  }

  /** The operations that respect the lock order. The source sorts the pair in three operations; the two deficit
      operations lock in a fixed role order, which is in order only for some names. */
  predicate Orderly(first: bool, op: Op) {
    match op
    case RecordDeficit(from, to, _, _) => from != to && Before(first, Mutex(from), Mutex(to))
    case DebitDeficitReserve(to, _, _) => to != RESERVE && (first || L.Less(RESERVE, to))
    case CommitOfflineAllowance(from, to, _, _) => first ==> from != RESERVE && to != RESERVE
    case CommitHold(from, to, _, _) => first ==> from != RESERVE && to != RESERVE
    case DirectCommit(from, to, _, _) => first ==> from != RESERVE && to != RESERVE
    case _ => true
  }

  /** Taking and giving back one lock above everything held leaves the discipline to what follows. */
  lemma Bracket(first: bool, held: map<Lock, Mode>, l: Lock, mode: Mode, rest: seq<Instr>)
    requires forall h :: h in held ==> Before(first, h, l)
    requires Disciplined(first, held, rest)
    ensures Disciplined(first, held, [Acquire(l, mode), Free(l)] + rest)
  {
    BeforeIrreflexive(first, l);
    var script := [Acquire(l, mode), Free(l)] + rest;
    assert script[1..] == [Free(l)] + rest && script[1..][1..] == rest;
    assert held[l := mode] - {l} == held;
  }

  lemma LookupDisciplined(first: bool, missing1: bool, missing2: bool, rest: seq<Instr>)
    requires Disciplined(first, map[], rest)
    ensures Disciplined(first, map[], LOOKUP + (Creates(missing1) + (Creates(missing2) + rest)))
  {
    CreatesDisciplined(first, missing2, rest);
    CreatesDisciplined(first, missing1, Creates(missing2) + rest);
    Bracket(first, map[], Table, Read, Creates(missing1) + (Creates(missing2) + rest));
  }

  lemma CreatesDisciplined(first: bool, missing: bool, rest: seq<Instr>)
    requires Disciplined(first, map[], rest)
    ensures Disciplined(first, map[], Creates(missing) + rest)
  {
    if missing { Bracket(first, map[], Table, Write, rest); } else { assert Creates(missing) + rest == rest; }
  }

  lemma PostsDisciplined(first: bool, held: map<Lock, Mode>, posts: bool, rest: seq<Instr>)
    requires forall h :: h in held ==> h.Mutex?
    requires Disciplined(first, held, rest)
    ensures Disciplined(first, held, Posts(posts) + rest)
  {
    if posts { Bracket(first, held, Journal, Write, rest); } else { assert Posts(posts) + rest == rest; }
  }

  lemma FreesDisciplined(first: bool, x: string, y: string)
    ensures x != y ==> Disciplined(first, map[Mutex(x) := Write, Mutex(y) := Write], [Free(Mutex(x)), Free(Mutex(y))])
    ensures Disciplined(first, map[Mutex(x) := Write], [Free(Mutex(x))])
  {
    assert [Free(Mutex(x))][1..] == [];
    assert map[Mutex(x) := Write] - {Mutex(x)} == map[];
    if x != y {
      var frees := [Free(Mutex(x)), Free(Mutex(y))];
      assert frees[1..] == [Free(Mutex(y))] && frees[1..][1..] == [];
      assert map[Mutex(x) := Write, Mutex(y) := Write] - {Mutex(x)} == map[Mutex(y) := Write];
      assert map[Mutex(y) := Write] - {Mutex(y)} == map[];
    }
  }

  lemma PairDisciplined(first: bool, x: string, y: string, tail: seq<Instr>)
    requires Before(first, Mutex(x), Mutex(y))
    requires Disciplined(first, map[Mutex(x) := Write, Mutex(y) := Write], tail)
    ensures Disciplined(first, map[], [Acquire(Mutex(x), Write), Acquire(Mutex(y), Write)] + tail)
  {
    var script := [Acquire(Mutex(x), Write), Acquire(Mutex(y), Write)] + tail;
    assert script[1..] == [Acquire(Mutex(y), Write)] + tail && script[1..][1..] == tail;
    assert map[][Mutex(x) := Write][Mutex(y) := Write] == map[Mutex(x) := Write, Mutex(y) := Write];
    assert Disciplined(first, map[Mutex(x) := Write], script[1..]);
  }

  lemma MutexDisciplined(first: bool, x: string, tail: seq<Instr>)
    requires Disciplined(first, map[Mutex(x) := Write], tail)
    ensures Disciplined(first, map[], [Acquire(Mutex(x), Write)] + tail)
  {
    var script := [Acquire(Mutex(x), Write)] + tail;
    assert script[1..] == tail;
    assert map[][Mutex(x) := Write] == map[Mutex(x) := Write];
  }

  lemma OrderedPairDisciplined(first: bool, from: string, to: string, missing1: bool, missing2: bool, posts: bool)
    requires first ==> from != RESERVE && to != RESERVE
    ensures Disciplined(first, map[], TwoAccounts(InOrder(from, to), from, to, missing1, missing2, posts))
  {
    FreesDisciplined(first, from, to);
    L.Total(from, to);
    var tail := Posts(posts) + Frees(from, to);
    if from == to {
      L.Irreflexive(from);
      PostsDisciplined(first, map[Mutex(from) := Write], posts, Frees(from, to));
      MutexDisciplined(first, from, tail);
    } else {
      var lo, hi := if L.Less(from, to) then from else to, if L.Less(from, to) then to else from;
      var both := map[Mutex(from) := Write, Mutex(to) := Write];
      PostsDisciplined(first, both, posts, Frees(from, to));
      assert map[Mutex(lo) := Write, Mutex(hi) := Write] == both;
      PairDisciplined(first, lo, hi, tail);
    }
    LookupDisciplined(first, missing1, missing2, InOrder(from, to) + tail);
  }

  lemma FixedPairDisciplined(first: bool, x: string, y: string, missing1: bool, missing2: bool, posts: bool)
    requires x != y && Before(first, Mutex(x), Mutex(y))
    ensures Disciplined(first, map[], TwoAccounts([Acquire(Mutex(x), Write), Acquire(Mutex(y), Write)],
                                                  y, x, missing1, missing2, posts))
  {
    FreesDisciplined(first, y, x);
    assert map[Mutex(y) := Write, Mutex(x) := Write] == map[Mutex(x) := Write, Mutex(y) := Write];
    PostsDisciplined(first, map[Mutex(x) := Write, Mutex(y) := Write], posts, Frees(y, x));
    PairDisciplined(first, x, y, Posts(posts) + Frees(y, x));
    LookupDisciplined(first, missing1, missing2,
                      [Acquire(Mutex(x), Write), Acquire(Mutex(y), Write)] + (Posts(posts) + Frees(y, x)));
  }

  lemma OneAccountDisciplined(first: bool, id: string, inner: seq<Instr>, posts: bool)
    requires inner == [] || inner == [Acquire(Reservations, Write), Free(Reservations)]
    ensures Disciplined(first, map[], OneAccount(id, inner, posts))
  {
    FreesDisciplined(first, id, id);
    var held := map[Mutex(id) := Write];
    var tail := Posts(posts) + [Free(Mutex(id))];
    PostsDisciplined(first, held, posts, [Free(Mutex(id))]);
    if inner != [] { Bracket(first, held, Reservations, Write, tail); } else { assert inner + tail == tail; }
    MutexDisciplined(first, id, inner + tail);
    Bracket(first, map[], Table, Read, [Acquire(Mutex(id), Write)] + (inner + tail));
  }

  lemma FundDisciplined(first: bool, id: string, posts: bool)
    ensures Disciplined(first, map[], [Acquire(Table, Write), Free(Table)]
                                      + ([Acquire(Mutex(id), Write), Free(Mutex(id))] + Posts(posts)))
  {
    PostsDisciplined(first, map[], posts, []);
    assert Posts(posts) + [] == Posts(posts);
    Bracket(first, map[], Mutex(id), Write, Posts(posts));
    Bracket(first, map[], Table, Write, [Acquire(Mutex(id), Write), Free(Mutex(id))] + Posts(posts));
  }

  lemma BracketAlone(first: bool, l: Lock, mode: Mode)
    ensures Disciplined(first, map[], [Acquire(l, mode), Free(l)])
  {
    Bracket(first, map[], l, mode, []);
    assert [Acquire(l, mode), Free(l)] + [] == [Acquire(l, mode), Free(l)];
  }

  /** Every orderly operation, on every path through it, requests its locks in order and frees them all. */
  lemma ScriptDisciplined(first: bool, op: Op, path: Path)
    requires Orderly(first, op)
    ensures Disciplined(first, map[], Script(op, path))
  {
    match path
    case Rejected =>
    case Unknown =>
      BracketAlone(first, Table, Read);
      BracketAlone(first, Table, Write);
    case Through(missing1, missing2, posts) => FullScriptDisciplined(first, op, missing1, missing2, posts);
  }

  lemma FullScriptDisciplined(first: bool, op: Op, missing1: bool, missing2: bool, posts: bool)
    requires Orderly(first, op)
    ensures Disciplined(first, map[], FullScript(op, missing1, missing2, posts))
  {
    match op
    case CreateAccount(_, _) => BracketAlone(first, Table, Write);
    case FundAccount(id, _, _) => FundDisciplined(first, id, posts);
    case AllocateOfflineAllowance(id, _, _) => OneAccountDisciplined(first, id, [], posts);
    case ReleaseHold(id, _, _) => OneAccountDisciplined(first, id, [], posts);
    case ReserveFunds(id, _, _) =>
      OneAccountDisciplined(first, id, if posts then [Acquire(Reservations, Write), Free(Reservations)] else [], posts);
    case CommitOfflineAllowance(from, to, _, _) => OrderedPairDisciplined(first, from, to, missing1, false, posts);
    case CommitHold(from, to, _, _) => OrderedPairDisciplined(first, from, to, missing1, false, posts);
    case DirectCommit(from, to, _, _) => OrderedPairDisciplined(first, from, to, missing1, false, posts);
    case DebitDeficitReserve(to, _, _) => FixedPairDisciplined(first, RESERVE, to, missing1, missing2, posts);
    case RecordDeficit(from, to, _, _) => FixedPairDisciplined(first, from, to, missing1, missing2, posts);
  }

  lemma {:induction false} AuditVisitsDisciplined(first: bool, ids: seq<string>, rest: seq<Instr>)
    requires Disciplined(first, map[Table := Read], rest)
    ensures Disciplined(first, map[Table := Read], AuditVisits(ids) + rest)
  {
    if ids == [] {
      assert AuditVisits(ids) + rest == rest;
    } else {
      var visit, more := [Acquire(Mutex(ids[0]), Read), Free(Mutex(ids[0]))], AuditVisits(ids[1..]);
      AuditVisitsDisciplined(first, ids[1..], rest);
      Bracket(first, map[Table := Read], Mutex(ids[0]), Read, more + rest);
      assert (visit + more) + rest == visit + (more + rest);
    }
  }

  /** An audit holds the table while it visits the accounts in any order, and still respects the order. */
  lemma AuditDisciplined(first: bool, ids: seq<string>)
    ensures Disciplined(first, map[], AuditScript(ids))
  {
    var free := [Free(Table)];
    assert free[1..] == [] && map[Table := Read] - {Table} == map[];
    Bracket(first, map[Table := Read], Journal, Read, free);
    var tail := [Acquire(Journal, Read), Free(Journal)] + free;
    AuditVisitsDisciplined(first, ids, tail);
    assert AuditScript(ids)[1..] == AuditVisits(ids) + tail;
    assert map[][Table := Read] == map[Table := Read];
  }

  /** What a goroutine may call: an operation, a snapshot of one account, an audit, the check of the global
      invariant. */
  datatype Call =
    | Operate(op: Op, path: Path)
    | GetAccount(id: string, known: bool)
    | AuditConservation(ids: seq<string>)
    | CheckGlobalInvariant

  function CallScript(call: Call): seq<Instr> {
    match call
    case Operate(op, path) => Script(op, path)
    case GetAccount(id, known) => LOOKUP + (if known then [Acquire(Mutex(id), Read), Free(Mutex(id))] else [])
    case AuditConservation(ids) => AuditScript(ids)
    case CheckGlobalInvariant => AuditScript([])
  }

  /** Any number of calls one after the other, as a gateway request reserves, commits and perhaps releases. */
  function Program(calls: seq<Call>): seq<Instr> {
    if calls == [] then [] else CallScript(calls[0]) + Program(calls[1..])
  }

  ghost predicate OrderlyCalls(first: bool, calls: seq<Call>) {
    forall i :: 0 <= i < |calls| && calls[i].Operate? ==> Orderly(first, calls[i].op)
  }

  lemma CallDisciplined(first: bool, call: Call)
    requires call.Operate? ==> Orderly(first, call.op)
    ensures Disciplined(first, map[], CallScript(call))
  {
    match call
    case Operate(op, path) => ScriptDisciplined(first, op, path);
    case GetAccount(id, known) =>
      BracketAlone(first, Mutex(id), Read);
      Bracket(first, map[], Table, Read, if known then [Acquire(Mutex(id), Read), Free(Mutex(id))] else []);
    case AuditConservation(ids) => AuditDisciplined(first, ids);
    case CheckGlobalInvariant => AuditDisciplined(first, []);
  }

  /** A disciplined script followed by another is disciplined: the first gives back all it took. */
  lemma {:induction false} ConcatDisciplined(first: bool, held: map<Lock, Mode>, s: seq<Instr>, t: seq<Instr>)
    requires Disciplined(first, held, s) && Disciplined(first, map[], t)
    ensures Disciplined(first, held, s + t)
    decreases |s|
  {
    if s == [] {
      assert s + t == t;
    } else {
      assert (s + t)[1..] == s[1..] + t;
      match s[0]
      case Acquire(l, mode) => ConcatDisciplined(first, held[l := mode], s[1..], t);
      case Free(l) => ConcatDisciplined(first, held - {l}, s[1..], t);
    }
  }

  lemma {:induction false} ProgramDisciplined(first: bool, calls: seq<Call>)
    requires OrderlyCalls(first, calls)
    ensures Disciplined(first, map[], Program(calls))
    decreases |calls|
  {
    if calls != [] {
      CallDisciplined(first, calls[0]);
      ProgramDisciplined(first, calls[1..]);
      ConcatDisciplined(first, map[], CallScript(calls[0]), Program(calls[1..]));
    }
  }

  /** A thread about to run any sequence of orderly calls, each on some path. */
  ghost predicate Runs(th: Thread, first: bool) {
    th.held == map[] && exists calls: seq<Call> :: OrderlyCalls(first, calls) && th.rest == Program(calls)
  }

  /** Any set of threads, each running any sequence of orderly operations, snapshots, audits and checks, under any
      schedule, always has somebody able to move. */
  lemma DeadlockFree(ts: Threads, first: bool, order: seq<nat>, u: nat)
    requires forall t :: t in ts ==> Runs(ts[t], first)
    requires u in Schedule(ts, order) && Schedule(ts, order)[u].rest != []
    ensures exists t :: Ready(Schedule(ts, order), t)
  {
    forall t | t in ts ensures Disciplined(first, ts[t].held, ts[t].rest) {
      assert Runs(ts[t], first);
      var calls :| OrderlyCalls(first, calls) && ts[t].rest == Program(calls);
      ProgramDisciplined(first, calls);
    }
    ScheduleKeepsDiscipline(ts, first, order);
    var t := SomebodyMoves(Schedule(ts, order), first, u);
  }

  /** Nobody can move although somebody is unfinished. */
  ghost predicate Stuck(ts: Threads) {
    (exists u :: u in ts && ts[u].rest != []) && forall t :: !CanStep(ts, t)
  }

  /** Running the threads in this order ends with nobody able to move. */
  ghost predicate Deadlocks(ts: Threads, order: seq<nat>) {
    Stuck(Schedule(ts, order))
  }

  /** A thread that looks up its accounts and then takes two mutexes. */
  function Pair(x: string, y: string, tail: seq<Instr>): Thread {
    Thread(map[], LOOKUP + ([Acquire(Mutex(x), Write), Acquire(Mutex(y), Write)] + tail))
  }

  function Waiting(x: string, y: string, tail: seq<Instr>): Thread {
    Thread(map[Mutex(x) := Write], [Acquire(Mutex(y), Write)] + tail)
  }

  lemma PairAdvances(x: string, y: string, tail: seq<Instr>)
    ensures var p := Pair(x, y, tail);
            && p.rest[0] == Acquire(Table, Read)
            && Exec(p).rest != [] && Exec(p).rest[0].Free?
            && Exec(Exec(p)) == Thread(map[], [Acquire(Mutex(x), Write), Acquire(Mutex(y), Write)] + tail)
            && Exec(Exec(Exec(p))) == Waiting(x, y, tail)
  {
    var p := Pair(x, y, tail);
    assert p.rest[1..][1..] == [Acquire(Mutex(x), Write), Acquire(Mutex(y), Write)] + tail;
    assert p.rest[1..][1..][1..] == [Acquire(Mutex(y), Write)] + tail;
    assert map[][Table := Read] - {Table} == map[];
    assert map[][Mutex(x) := Write] == map[Mutex(x) := Write];
  }

  /** Alone among threads that hold nothing it needs, such a thread reaches its second acquisition. */
  lemma PairReachesWait(ts: Threads, t: nat, x: string, y: string, tail: seq<Instr>)
    requires t in ts && ts[t] == Pair(x, y, tail)
    requires forall o :: o in ts ==> Table !in ts[o].held && Mutex(x) !in ts[o].held
    ensures Schedule(ts, [t, t, t]) == ts[t := Waiting(x, y, tail)]
  {
    PairAdvances(x, y, tail);
    var p := Pair(x, y, tail);
    var t1 := StepThread(ts, t);
    assert t1 == ts[t := Exec(p)];
    var t2 := StepThread(t1, t);
    assert t2 == ts[t := Exec(Exec(p))];
    var t3 := StepThread(t2, t);
    assert t3 == ts[t := Waiting(x, y, tail)];
    assert [t, t, t][1..] == [t, t] && [t, t][1..] == [t] && [t][1..] == [];
    assert Schedule(t2, [t]) == t3;
    assert Schedule(t1, [t, t]) == t3;
  }

  lemma {:induction false} ScheduleAppend(ts: Threads, a: seq<nat>, b: seq<nat>)
    ensures Schedule(ts, a + b) == Schedule(Schedule(ts, a), b)
    decreases |a|
  {
    if a == [] {
      assert a + b == b;
    } else {
      assert (a + b)[1..] == a[1..] + b;
      ScheduleAppend(StepThread(ts, a[0]), a[1..], b);
    }
  }

  /** Two threads that take the same two mutexes in opposite orders can block each other for good. */
  lemma OppositePairsDeadlock(ts: Threads, x: string, y: string, tail0: seq<Instr>, tail1: seq<Instr>)
    requires x != y && ts == map[0 := Pair(x, y, tail0), 1 := Pair(y, x, tail1)]
    ensures Deadlocks(ts, CROSSING)
  {
    PairReachesWait(ts, 0, x, y, tail0);
    var mid := ts[0 := Waiting(x, y, tail0)];
    PairReachesWait(mid, 1, y, x, tail1);
    ScheduleAppend(ts, [0, 0, 0], [1, 1, 1]);
    var end := mid[1 := Waiting(y, x, tail1)];
    assert 0 in end && end[0].rest != [];
    assert Mutex(y) in end[1].held && Mutex(x) in end[0].held;
    assert Stuck(end);
  }

  const SETTLED := Through(false, false, true)

  /** A replay debiting the reserve for merchant `a`, and an online payment of `a` to the reserve about to commit. */
  ghost function Race(a: string, amount: int, txId: string): Threads {
    map[0 := Thread(map[], Script(DebitDeficitReserve(a, amount, txId), SETTLED)),
        1 := Thread(map[], Script(CommitHold(a, RESERVE, amount, txId), SETTLED))]
  }

  lemma OneCall(first: bool, op: Op, path: Path)
    requires Orderly(first, op)
    ensures Runs(Thread(map[], Script(op, path)), first)
  {
    var calls := [Operate(op, path)];
    assert calls[1..] == [];
    assert Script(op, path) + [] == Script(op, path);
    assert OrderlyCalls(first, calls) && Program(calls) == Script(op, path);
  }

  lemma RaceSafe(a: string, amount: int, txId: string, order: seq<nat>)
    requires a != RESERVE && L.Less(RESERVE, a)
    ensures !Deadlocks(Race(a, amount, txId), order)
  {
    var ts := Race(a, amount, txId);
    OneCall(false, DebitDeficitReserve(a, amount, txId), SETTLED);
    OneCall(false, CommitHold(a, RESERVE, amount, txId), SETTLED);
    var e := Schedule(ts, order);
    if u :| u in e && e[u].rest != [] { DeadlockFree(ts, false, order, u); }
  }

  lemma TwoAccountsIsPair(x: string, y: string, from: string, to: string)
    ensures Thread(map[], TwoAccounts([Acquire(Mutex(x), Write), Acquire(Mutex(y), Write)], from, to, false, false,
                                      true))
         == Pair(x, y, Posts(true) + Frees(from, to))
  {
    var core := [Acquire(Mutex(x), Write), Acquire(Mutex(y), Write)] + (Posts(true) + Frees(from, to));
    assert [] + core == core;
  }

  const CROSSING: seq<nat> := [0, 0, 0] + [1, 1, 1]

  lemma RaceDeadlocks(a: string, amount: int, txId: string)
    requires L.Less(a, RESERVE)
    ensures Deadlocks(Race(a, amount, txId), CROSSING)
  {
    L.Irreflexive(a);
    TwoAccountsIsPair(RESERVE, a, a, RESERVE);
    TwoAccountsIsPair(a, RESERVE, a, RESERVE);
    OppositePairsDeadlock(Race(a, amount, txId), RESERVE, a, Posts(true) + Frees(a, RESERVE),
                          Posts(true) + Frees(a, RESERVE));
  }

  /** A reserve debit for merchant `a` racing an online payment from `a` to the reserve: safe under every schedule
      exactly when the reserve's name sorts before `a`. */
  lemma ReserveDebitRace(a: string, amount: int, txId: string)
    requires a != RESERVE
    ensures (forall order :: !Deadlocks(Race(a, amount, txId), order)) <==> L.Less(RESERVE, a)
  {
    L.Total(a, RESERVE);
    if L.Less(RESERVE, a) {
      forall order ensures !Deadlocks(Race(a, amount, txId), order) {
        RaceSafe(a, amount, txId, order);
      }
    } else {
      RaceDeadlocks(a, amount, txId);
      assert Deadlocks(Race(a, amount, txId), CROSSING);
    }
  }

  /** A legacy replay overdrawing `a` for merchant `b`, and an online payment of `b` to `a` about to commit. */
  ghost function DeficitRace(a: string, b: string, amount: int, txId: string): Threads {
    map[0 := Thread(map[], Script(RecordDeficit(a, b, amount, txId), SETTLED)),
        1 := Thread(map[], Script(CommitHold(b, a, amount, txId), SETTLED))]
  }

  lemma DeficitRaceSafe(a: string, b: string, amount: int, txId: string, order: seq<nat>)
    requires a != b && L.Less(a, b)
    ensures !Deadlocks(DeficitRace(a, b, amount, txId), order)
  {
    var ts := DeficitRace(a, b, amount, txId);
    OneCall(false, RecordDeficit(a, b, amount, txId), SETTLED);
    OneCall(false, CommitHold(b, a, amount, txId), SETTLED);
    var e := Schedule(ts, order);
    if u :| u in e && e[u].rest != [] { DeadlockFree(ts, false, order, u); }
  }

  lemma DeficitRaceDeadlocks(a: string, b: string, amount: int, txId: string)
    requires a != b && L.Less(b, a)
    ensures Deadlocks(DeficitRace(a, b, amount, txId), CROSSING)
  {
    TwoAccountsIsPair(a, b, b, a);
    TwoAccountsIsPair(b, a, b, a);
    OppositePairsDeadlock(DeficitRace(a, b, amount, txId), a, b, Posts(true) + Frees(b, a), Posts(true) + Frees(b, a));
  }

  /** An overdraft of `a` in favour of `b` racing an online payment from `b` to `a`: safe under every schedule exactly
      when `a` sorts before `b`. */
  lemma RecordDeficitRace(a: string, b: string, amount: int, txId: string)
    requires a != b
    ensures (forall order :: !Deadlocks(DeficitRace(a, b, amount, txId), order)) <==> L.Less(a, b)
  {
    L.Total(a, b);
    if L.Less(a, b) {
      forall order ensures !Deadlocks(DeficitRace(a, b, amount, txId), order) {
        DeficitRaceSafe(a, b, amount, txId, order);
      }
    } else {
      DeficitRaceDeadlocks(a, b, amount, txId);
      assert Deadlocks(DeficitRace(a, b, amount, txId), CROSSING);
    }
  }
}
