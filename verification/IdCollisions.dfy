/** Two payments with different ids and one text, from the first request on: which id sets are unsafe, run by run. */
module IdCollisions {
  import opened Sums
  import opened ColonTexts
  import opened Queue
  import opened PayloadText
  import opened LedgerModel
  import opened WalModel
  import opened SettlementModel
  import opened GatewayModel
  import opened PartitionRuns
  import opened ExactSettlement
  import opened TokenTexts
  import Auth = OfflineAuth
  import Fraud = FraudModel

  /** Of two records with one text at most one is ever settled, in every run; and a replay settles one of those with
      it. */
  lemma CollisionUnderpays(c: Codec, g: Gateway, acts: seq<Action>, i: nat, j: nat)
    requires Faithful(c) && Initial(g) && AllAdmissible(c, g, acts) && |RecordedRun(c, g, [], acts)| < U64
    requires i < j < |RecordedRun(c, g, [], acts)|
    requires Raw(RecordedRun(c, g, [], acts)[i].tx) == Raw(RecordedRun(c, g, [], acts)[j].tx)
    ensures var x, y := RecordedRun(c, g, [], acts)[i].tx, RecordedRun(c, g, [], acts)[j].tx;
            var settled := SettledRun(c, g, acts) + SettledBy(c, RunFrom(c, g, acts), Reconcile);
            && x.txId != y.txId && multiset(settled)[x] + multiset(settled)[y] <= 1
            && HasHash(settled, x.payloadHash)
  {
    RunInv(c, g, acts);
    CollisionSettled(c, RunFrom(c, g, acts), RecordedRun(c, g, [], acts), SettledRun(c, g, acts), Restarts(acts), i, j);
  }

  lemma CollisionSettled(c: Codec, e: Gateway, recs: seq<Rec>, settled: seq<Tx>, restarted: bool, i: nat, j: nat)
    requires Inv(c, e, recs, settled, restarted) && i < j < |recs| && Raw(recs[i].tx) == Raw(recs[j].tx)
    ensures var x, y, all := recs[i].tx, recs[j].tx, settled + SettledBy(c, e, Reconcile);
            && x.txId != y.txId && x.payloadHash == y.payloadHash && multiset(all)[x] + multiset(all)[y] <= 1
            && HasHash(all, x.payloadHash) && forall t :: t in all ==> IsRecord(recs, t)
  {
    var x, y, all := recs[i].tx, recs[j].tx, settled + SettledBy(c, e, Reconcile);
    assert AsQueued(c, x) && AsQueued(c, y);
    ReconcileKeepsInv(c, e, recs, settled, restarted);
    HashCount(all, x);
    HashCount(all, y);
    OneOfTwo(all, x, y);
  }

  /** A new gateway that is offline, with replays in reserve mode. */
  const NEW_TERMINAL := Gateway(
    Disconnected, true, map[], 0, NEW_LEDGER, Fraud.Engine(map[], map[], 0, 15, 25), Auth.Authorizer("", map[], 0),
    EMPTY, Recon({}, [], true))

  /** What stands behind the first four characters of a token id. */
  function Suffix(id: string): string {
    if |id| >= 4 then id[4..] else ""
  }

  /** An issued token whose signature is good for a token with the transaction's token id, for any terminal. */
  function IssuedFor(tx: Tx, counter: nat): Token {
    Source(Suffix(tx.tokenId), Auth.ANY_TERMINAL, 1, counter)
  }

  function ShownFor(tx: Tx, counter: nat): Token {
    Disguised(Suffix(tx.tokenId), Auth.ANY_TERMINAL, 1, counter)
  }

  lemma ShownSigned(tx: Tx, counter: nat)
    requires TOKEN_PREFIX <= tx.tokenId && counter > 0
    ensures Issued(IssuedFor(tx, counter)) && TokenText(ShownFor(tx, counter)) == TokenText(IssuedFor(tx, counter))
    ensures var u := ShownFor(tx, counter);
            && u.tokenId == tx.tokenId && u.maxFloor == MAX_OFFLINE_FLOOR
            && u.expiration == 1 && u.terminalId == Auth.ANY_TERMINAL
  {
    assert tx.tokenId == TOKEN_PREFIX + Suffix(tx.tokenId);
    DisguisedSigned(Suffix(tx.tokenId), Auth.ANY_TERMINAL, 1, counter);
  }

  /** The payment of a queued transaction, all checks passing. */
  function PaymentOf(tx: Tx, counter: nat): Action {
    Payment(Request("", tx.txId, tx.accountId, tx.merchantId, tx.terminalId, tx.amount, "", tx.clientTimestamp,
                    Some(ShownFor(tx, counter)), tx.vectorClock, tx.seqNo),
            Surroundings(tx.txId, 1, 0, true, true, false, true))
  }

  /** The same payment once more, of nothing: granted and numbered, but refused by the log. */
  function Again(tx: Tx): Action {
    PaymentOf(tx.(amount := 0), 1)
  }

  /** The transaction as it is queued. */
  function AsSent(c: Codec, tx: Tx): Tx {
    tx.(status := PENDING, payloadHash := ComputeHash(c, tx))
  }

  ghost predicate FitsLog(c: Codec, tx: Tx) {
    |c.encode(AsSent(c, tx))| < U32 - HEADER
  }

  /** The terminal will number the next payment like `tx` and has room for it under the token. */
  ghost predicate ReadyFor(g: Gateway, tx: Tx) {
    && g.network.Disconnected? && g.auth.sequenceNum + 1 == tx.sequenceNum && tx.amount <= MAX_OFFLINE_FLOOR
    && Auth.SpentUnder(g.auth.spent, tx.tokenId) + tx.amount <= MAX_OFFLINE_FLOOR
  }

  lemma SentReaches(c: Codec, g: Gateway, tx: Tx, k: nat)
    requires ReadyFor(g, tx) && Queueable(tx) && k > 0
    ensures var Payment(req, env) := PaymentOf(tx, k);
            ReachesLog(g, req, env) && QueuedBy(c, g, req, env) == AsSent(c, tx) && Completed(req, env) == req
  {
    var Payment(req, env) := PaymentOf(tx, k);
    ShownSigned(tx, k);
    assert Completed(req, env) == req;
    assert AsSent(c, tx) == tx.(status := PENDING, payloadHash := "").(payloadHash := ComputeHash(c, tx));
  }

  /** A payment the terminal is ready for, under an id that is new to the log: authorized and recorded. */
  lemma SentRecorded(c: Codec, g: Gateway, recs: seq<Rec>, tx: Tx, k: nat)
    requires ReadyFor(g, tx) && tx.txId !in g.wal.txMap && Queueable(tx) && Payable(tx) && FitsLog(c, tx) && k > 0
    ensures Admissible(c, g, PaymentOf(tx, k))
    ensures Recorded(c, g, recs, PaymentOf(tx, k)) == recs + [NextRec(c, g.wal, AsSent(c, tx))]
    ensures NextRec(c, g.wal, AsSent(c, tx)).tx == AsSent(c, tx)
    ensures ProcessPayment(c, g, PaymentOf(tx, k).req, PaymentOf(tx, k).env).1.OfflineAuthorized?
  {
    SentReaches(c, g, tx, k);
    var Payment(req, env) := PaymentOf(tx, k);
    AuthorizedWhen(c, g, req, env);
    QueuedAsQueued(c, g, req, env);
    HashedAsQueued(c, AsSent(c, tx));
  }

  lemma PaymentNetwork(c: Codec, g: Gateway, req: Request, env: Surroundings)
    ensures ProcessPayment(c, g, req, env).0.network == g.network
  {
  }

  /** The terminal has recorded `u` and, after `k` more grants, will number the next payment like `v`. */
  ghost predicate Awaits(g: Gateway, u: Tx, v: Tx, k: nat) {
    && g.network.Disconnected? && u.txId in g.wal.txMap && v.txId !in g.wal.txMap
    && g.auth.sequenceNum + k + 1 == v.sequenceNum && Auth.SpentUnder(g.auth.spent, u.tokenId) <= MAX_OFFLINE_FLOOR
    && v.amount <= MAX_OFFLINE_FLOOR && Auth.SpentUnder(g.auth.spent, v.tokenId) + v.amount <= MAX_OFFLINE_FLOOR
  }

  /** The same payment of nothing again only moves the sequence number on. */
  lemma AgainAwaits(c: Codec, g: Gateway, recs: seq<Rec>, u: Tx, v: Tx, k: nat)
    requires Awaits(g, u, v, k) && k > 0 && Queueable(u)
    ensures Awaits(Next(c, g, Again(u)), u, v, k - 1)
    ensures Admissible(c, g, Again(u)) && Recorded(c, g, recs, Again(u)) == recs
  {
    var w := u.(amount := 0, sequenceNum := g.auth.sequenceNum + 1);
    assert PaymentOf(w, 1) == Again(u);
    SentReaches(c, g, w, 1);
    var Payment(req, env) := PaymentOf(w, 1);
    PaymentLog(c, g, req, env);
    PaymentAuth(c, g, req, env);
    PaymentNetwork(c, g, req, env);
    AgainSpends(g, req, env, u);
  }

  lemma AgainSpends(g: Gateway, req: Request, env: Surroundings, u: Tx)
    requires ReachesLog(g, req, env) && req.amount == 0
    ensures var a := Asked(g, Completed(req, env), req.token.value, env).0;
            && a.sequenceNum == g.auth.sequenceNum + 1
            && forall id :: Auth.SpentUnder(a.spent, id) == Auth.SpentUnder(g.auth.spent, id)
  {
  }

  /** The run is admissible, made under these ids with good tokens, and leaves these records. */
  ghost predicate Leaves(c: Codec, g: Gateway, recs: seq<Rec>, acts: seq<Action>, end: seq<Rec>, ids: set<string>,
                         issued: set<Token>) {
    AllAdmissible(c, g, acts) && RecordedRun(c, g, recs, acts) == end && AllMadeUnder(acts, ids, issued)
  }

  lemma LastStep(c: Codec, g: Gateway, recs: seq<Rec>, a: Action, ids: set<string>, issued: set<Token>)
    requires Admissible(c, g, a) && MadeUnder(a, ids, issued)
    ensures Leaves(c, g, recs, [a], Recorded(c, g, recs, a), ids, issued)
  {
    assert [a][1..] == [];
    assert AllAdmissible(c, Next(c, g, a), []);
    RunHead(c, g, recs, [], [a]);
  }

  lemma OneMoreStep(c: Codec, g: Gateway, e: Gateway, recs: seq<Rec>, mid: seq<Rec>, a: Action, acts: seq<Action>,
                    end: seq<Rec>, ids: set<string>, issued: set<Token>)
    requires Admissible(c, g, a) && MadeUnder(a, ids, issued) && e == Next(c, g, a) && mid == Recorded(c, g, recs, a)
    requires Leaves(c, e, mid, acts, end, ids, issued)
    ensures Leaves(c, g, recs, [a] + acts, end, ids, issued)
  {
    assert ([a] + acts)[1..] == acts;
    RunHead(c, g, recs, [], [a] + acts);
  }

  lemma PaymentMadeUnder(tx: Tx, k: nat, ids: set<string>, issued: set<Token>)
    requires Queueable(tx) && k > 0 && tx.txId in ids && IssuedFor(tx, k) in issued
    ensures MadeUnder(PaymentOf(tx, k), ids, issued) && Issued(IssuedFor(tx, k))
  {
    ShownSigned(tx, k);
    assert Signed(ShownFor(tx, k), issued);
  }

  /** The two payments of a collision in the order of their numbers, under ids of the set and two issued tokens. */
  ghost predicate Couple(c: Codec, u: Tx, v: Tx, ids: set<string>, issued: set<Token>) {
    && Queueable(u) && Queueable(v) && Payable(u) && Payable(v) && FitsLog(c, u) && FitsLog(c, v)
    && u.txId in ids && v.txId in ids && u.txId != v.txId && u.amount + v.amount <= MAX_OFFLINE_FLOOR
    && u.sequenceNum == 1 && v.sequenceNum > 1 && IssuedFor(u, 1) in issued && IssuedFor(v, 2) in issued
  }

  /** The payment of `v` when its number is up. */
  lemma LastPayment(c: Codec, g: Gateway, recs: seq<Rec>, u: Tx, v: Tx, ids: set<string>, issued: set<Token>)
    returns (acts: seq<Action>, r: Rec)
    requires Awaits(g, u, v, 0) && Couple(c, u, v, ids, issued)
    ensures Leaves(c, g, recs, acts, recs + [r], ids, issued) && r.tx == AsSent(c, v)
  {
    SentRecorded(c, g, recs, v, 2);
    PaymentMadeUnder(v, 2, ids, issued);
    acts, r := [PaymentOf(v, 2)], NextRec(c, g.wal, AsSent(c, v));
    LastStep(c, g, recs, PaymentOf(v, 2), ids, issued);
  }

  /** One more payment of nothing in front. */
  lemma AgainBefore(c: Codec, g: Gateway, recs: seq<Rec>, u: Tx, v: Tx, k: nat, rest: seq<Action>, end: seq<Rec>,
                    ids: set<string>, issued: set<Token>)
    requires Awaits(g, u, v, k) && k > 0 && Couple(c, u, v, ids, issued)
    requires Leaves(c, Next(c, g, Again(u)), recs, rest, end, ids, issued)
    ensures Leaves(c, g, recs, [Again(u)] + rest, end, ids, issued)
  {
    AgainAwaits(c, g, recs, u, v, k);
    assert IssuedFor(u.(amount := 0), 1) == IssuedFor(u, 1);
    PaymentMadeUnder(u.(amount := 0), 1, ids, issued);
    OneMoreStep(c, g, Next(c, g, Again(u)), recs, recs, Again(u), rest, end, ids, issued);
  }

  /** Payments of nothing under the id of `u` until the numbers fit, then the payment of `v`. */
  lemma {:induction false} TailRun(c: Codec, g: Gateway, recs: seq<Rec>, u: Tx, v: Tx, k: nat, ids: set<string>,
                                   issued: set<Token>)
    returns (acts: seq<Action>, r: Rec)
    requires Awaits(g, u, v, k) && Couple(c, u, v, ids, issued)
    ensures Leaves(c, g, recs, acts, recs + [r], ids, issued) && r.tx == AsSent(c, v)
    decreases k
  {
    if k == 0 {
      acts, r := LastPayment(c, g, recs, u, v, ids, issued);
    } else {
      AgainAwaits(c, g, recs, u, v, k);
      var rest;
      rest, r := TailRun(c, Next(c, g, Again(u)), recs, u, v, k - 1, ids, issued);
      acts := [Again(u)] + rest;
      AgainBefore(c, g, recs, u, v, k, rest, recs + [r], ids, issued);
    }
  }

  lemma FirstLogged(c: Codec, tx: Tx)
    ensures Append(c, EMPTY, tx).0.txMap.Keys == {tx.txId}
  {
  }

  /** The first grant of a new authorizer. */
  lemma FirstGrant(req: Request, env: Surroundings)
    requires ReachesLog(NEW_TERMINAL, req, env) && Completed(req, env) == req
    ensures var a := Asked(NEW_TERMINAL, req, req.token.value, env).0;
            && a.sequenceNum == 1
            && forall id :: Auth.SpentUnder(a.spent, id) == if id == req.token.value.tokenId then req.amount else 0
  {
  }

  lemma FirstAwaits(c: Codec, u: Tx, v: Tx, ids: set<string>, issued: set<Token>)
    requires Couple(c, u, v, ids, issued)
    ensures ReadyFor(NEW_TERMINAL, u) && Awaits(Next(c, NEW_TERMINAL, PaymentOf(u, 1)), u, v, v.sequenceNum - 2)
  {
    var g := NEW_TERMINAL;
    SentReaches(c, g, u, 1);
    ShownSigned(u, 1);
    var Payment(req, env) := PaymentOf(u, 1);
    PaymentLog(c, g, req, env);
    PaymentAuth(c, g, req, env);
    PaymentNetwork(c, g, req, env);
    FirstLogged(c, AsSent(c, u));
    FirstGrant(req, env);
  }

  lemma FirstBefore(c: Codec, u: Tx, v: Tx, r1: Rec, rest: seq<Action>, end: seq<Rec>, ids: set<string>,
                    issued: set<Token>)
    requires Couple(c, u, v, ids, issued) && r1 == NextRec(c, EMPTY, AsSent(c, u))
    requires Leaves(c, Next(c, NEW_TERMINAL, PaymentOf(u, 1)), [r1], rest, end, ids, issued)
    ensures Leaves(c, NEW_TERMINAL, [], [PaymentOf(u, 1)] + rest, end, ids, issued) && r1.tx == AsSent(c, u)
  {
    FirstAwaits(c, u, v, ids, issued);
    SentRecorded(c, NEW_TERMINAL, [], u, 1);
    PaymentMadeUnder(u, 1, ids, issued);
    assert [] + [r1] == [r1];
    OneMoreStep(c, NEW_TERMINAL, Next(c, NEW_TERMINAL, PaymentOf(u, 1)), [], [r1], PaymentOf(u, 1), rest, end, ids,
                issued);
  }

  /** A run from a new terminal on that records exactly these two payments. */
  lemma CoupleRun(c: Codec, u: Tx, v: Tx, ids: set<string>, issued: set<Token>)
    returns (acts: seq<Action>, r1: Rec, r2: Rec)
    requires Couple(c, u, v, ids, issued)
    ensures Leaves(c, NEW_TERMINAL, [], acts, [r1] + [r2], ids, issued)
    ensures r1.tx == AsSent(c, u) && r2.tx == AsSent(c, v)
  {
    r1 := NextRec(c, EMPTY, AsSent(c, u));
    FirstAwaits(c, u, v, ids, issued);
    var rest;
    rest, r2 := TailRun(c, Next(c, NEW_TERMINAL, PaymentOf(u, 1)), [r1], u, v, v.sequenceNum - 2, ids, issued);
    acts := [PaymentOf(u, 1)] + rest;
    FirstBefore(c, u, v, r1, rest, [r1] + [r2], ids, issued);
  }

  lemma TwoIssued(s: Token, t: Token)
    requires Issued(s) && Issued(t) && s.sequenceCounter != t.sequenceCounter
    ensures Issuance({s, t})
  {
  }

  /** The run, from a new terminal on, over ids of the set and with issued tokens, records exactly two payments, yet
      after a replay only one of the two has been settled. */
  ghost predicate UnderpaidRun(c: Codec, ids: set<string>, issued: set<Token>, acts: seq<Action>, r1: Rec, r2: Rec) {
    var settled := SettledRun(c, NEW_TERMINAL, acts) + SettledBy(c, RunFrom(c, NEW_TERMINAL, acts), Reconcile);
    && Issuance(issued) && Initial(NEW_TERMINAL) && Leaves(c, NEW_TERMINAL, [], acts, [r1] + [r2], ids, issued)
    && r1.tx.txId != r2.tx.txId && r1.tx.amount > 0 && r2.tx.amount > 0
    && multiset(settled)[r1.tx] + multiset(settled)[r2.tx] == 1
  }

  ghost predicate Underpays(c: Codec, ids: set<string>, x: Tx, y: Tx) {
    exists issued: set<Token>, acts: seq<Action>, r1: Rec, r2: Rec ::
      r1.tx == AsSent(c, x) && r2.tx == AsSent(c, y) && UnderpaidRun(c, ids, issued, acts, r1, r2)
  }

  /** If one of two records has been settled and there are no others, it is counted. */
  lemma OneCounted(recs: seq<Rec>, settled: seq<Tx>, h: string)
    requires |recs| == 2 && HasHash(settled, h) && (forall t :: t in settled ==> IsRecord(recs, t))
    ensures multiset(settled)[recs[0].tx] + multiset(settled)[recs[1].tx] >= 1
  {
    var k :| 0 <= k < |settled| && settled[k].payloadHash == h;
    assert settled[k] in settled && IsRecord(recs, settled[k]);
  }

  lemma PairSettled(c: Codec, g: Gateway, acts: seq<Action>, r1: Rec, r2: Rec)
    requires Faithful(c) && Initial(g) && AllAdmissible(c, g, acts) && RecordedRun(c, g, [], acts) == [r1] + [r2]
    requires Raw(r1.tx) == Raw(r2.tx)
    ensures var all := SettledRun(c, g, acts) + SettledBy(c, RunFrom(c, g, acts), Reconcile);
            multiset(all)[r1.tx] + multiset(all)[r2.tx] == 1
  {
    var recs, e, settled := [r1] + [r2], RunFrom(c, g, acts), SettledRun(c, g, acts);
    RunInv(c, g, acts);
    CollisionSettled(c, e, recs, settled, Restarts(acts), 0, 1);
    OneCounted(recs, settled + SettledBy(c, e, Reconcile), r1.tx.payloadHash);
  }

  lemma NewTerminalInitial()
    ensures Initial(NEW_TERMINAL)
  {
  }

  lemma CoupleIssuance(c: Codec, u: Tx, v: Tx, ids: set<string>)
    requires Couple(c, u, v, ids, {IssuedFor(u, 1), IssuedFor(v, 2)})
    ensures Issuance({IssuedFor(u, 1), IssuedFor(v, 2)})
  {
    ShownSigned(u, 1);
    ShownSigned(v, 2);
    TwoIssued(IssuedFor(u, 1), IssuedFor(v, 2));
  }

  lemma LeavesUnderpaid(c: Codec, ids: set<string>, issued: set<Token>, acts: seq<Action>, r1: Rec, r2: Rec)
    requires Faithful(c) && Issuance(issued) && Leaves(c, NEW_TERMINAL, [], acts, [r1] + [r2], ids, issued)
    requires r1.tx.txId != r2.tx.txId && r1.tx.amount > 0 && r2.tx.amount > 0 && Raw(r1.tx) == Raw(r2.tx)
    ensures UnderpaidRun(c, ids, issued, acts, r1, r2)
  {
    NewTerminalInitial();
    PairSettled(c, NEW_TERMINAL, acts, r1, r2);
  }

  /** Any two payments with one text, the first one numbered 1: the merchant of one of them is never paid. */
  lemma SequenceUnderpays(c: Codec, ids: set<string>, u: Tx, v: Tx)
    requires Faithful(c) && Raw(u) == Raw(v) && Couple(c, u, v, ids, {IssuedFor(u, 1), IssuedFor(v, 2)})
    ensures Underpays(c, ids, u, v)
  {
    var issued := {IssuedFor(u, 1), IssuedFor(v, 2)};
    var acts, r1, r2 := CoupleRun(c, u, v, ids, issued);
    CoupleIssuance(c, u, v, ids);
    SentText(c, u);
    SentText(c, v);
    LeavesUnderpaid(c, ids, issued, acts, r1, r2);
  }

  lemma SentText(c: Codec, tx: Tx)
    ensures Raw(AsSent(c, tx)) == Raw(tx)
  {
  }

  /** The log has room for every payment with a text of at most `n` characters, no clock and no terminal. */
  ghost predicate RoomFor(c: Codec, n: nat) {
    forall tx: Tx :: |Raw(tx)| <= n && tx.vectorClock == map[] && tx.terminalId == "" ==> FitsLog(c, tx)
  }

  /** The log has room for modest payments under these ids. */
  ghost predicate RoomForIds(c: Codec, ids: set<string>) {
    forall id :: id in ids ==> RoomFor(c, |id| + MARGIN)
  }

  /** Every set of ids that ExactlyOnce excludes is unsafe: there are two payments under its ids, from the first
      request of a new terminal on, that are both authorized and of which only one is ever settled. */
  lemma UnsafeIds(c: Codec, ids: set<string>)
    requires Faithful(c) && RoomForIds(c, ids) && !Unconfusable(ids)
    ensures exists x: Tx, y: Tx :: Underpays(c, ids, x, y)
  {
    var a, b :| a in ids && b in ids && Confusable(a, b);
    var x, y := CollidingPair(a, b);
    assert a != b && RoomFor(c, |b| + MARGIN);
    if x.sequenceNum == 1 {
      ModestUnderpays(c, ids, x, y, |b| + MARGIN);
    } else {
      ModestUnderpays(c, ids, y, x, |b| + MARGIN);
    }
  }

  lemma ModestUnderpays(c: Codec, ids: set<string>, u: Tx, v: Tx, n: nat)
    requires Faithful(c) && RoomFor(c, n) && Modest(u, n) && Modest(v, n) && u.txId in ids && v.txId in ids
             && u.txId != v.txId
    requires Queueable(u) && Queueable(v) && Payable(u) && Payable(v) && Raw(u) == Raw(v)
    requires u.sequenceNum == 1 && v.sequenceNum > 1
    ensures Underpays(c, ids, u, v)
  {
    SequenceUnderpays(c, ids, u, v);
  }

  /** Whatever happens, over these ids and issued tokens, after a replay every record has been settled exactly once. */
  ghost predicate AlwaysExact(c: Codec, ids: set<string>) {
    forall g: Gateway, acts: seq<Action>, issued: set<Token> ::
      Initial(g) && AllAdmissible(c, g, acts) && |RecordedRun(c, g, [], acts)| < U64
      && Issuance(issued) && AllMadeUnder(acts, ids, issued) ==>
        CountedOnce(RecordedRun(c, g, [], acts), SettledRun(c, g, acts) + SettledBy(c, RunFrom(c, g, acts), Reconcile))
  }

  lemma OneRunNotExact(c: Codec, ids: set<string>, g: Gateway, acts: seq<Action>, issued: set<Token>)
    requires Initial(g) && AllAdmissible(c, g, acts) && |RecordedRun(c, g, [], acts)| < U64
    requires Issuance(issued) && AllMadeUnder(acts, ids, issued)
    requires !CountedOnce(RecordedRun(c, g, [], acts),
                          SettledRun(c, g, acts) + SettledBy(c, RunFrom(c, g, acts), Reconcile))
    ensures !AlwaysExact(c, ids)
  {
  }

  lemma NotBothCounted(recs: seq<Rec>, settled: seq<Tx>, x: Tx, y: Tx)
    requires |recs| == 2 && recs[0].tx == x && recs[1].tx == y && multiset(settled)[x] + multiset(settled)[y] == 1
    ensures !CountedOnce(recs, settled)
  {
  }

  lemma UnderpaidNotExact(c: Codec, ids: set<string>, issued: set<Token>, acts: seq<Action>, r1: Rec, r2: Rec)
    requires UnderpaidRun(c, ids, issued, acts, r1, r2)
    ensures !AlwaysExact(c, ids)
  {
    var g, recs := NEW_TERMINAL, [r1] + [r2];
    NotBothCounted(recs, SettledRun(c, g, acts) + SettledBy(c, RunFrom(c, g, acts), Reconcile), r1.tx, r2.tx);
    OneRunNotExact(c, ids, g, acts, issued);
  }

  /** Exactly over which ids every accepted offline payment is settled exactly once, in every run: those that cannot be
      confused. */
  lemma AlwaysExactExactly(c: Codec, ids: set<string>)
    requires Faithful(c) && Injective(c.sha) && RoomForIds(c, ids)
    ensures AlwaysExact(c, ids) <==> Unconfusable(ids)
  {
    if Unconfusable(ids) {
      forall g: Gateway, acts: seq<Action>, issued: set<Token>
        | Initial(g) && AllAdmissible(c, g, acts) && |RecordedRun(c, g, [], acts)| < U64
          && Issuance(issued) && AllMadeUnder(acts, ids, issued)
        ensures CountedOnce(RecordedRun(c, g, [], acts),
                            SettledRun(c, g, acts) + SettledBy(c, RunFrom(c, g, acts), Reconcile))
      {
        ExactlyOnce(c, g, acts, ids, issued);
      }
    } else {
      UnsafeIds(c, ids);
      var x: Tx, y: Tx :| Underpays(c, ids, x, y);
      var issued: set<Token>, acts: seq<Action>, r1: Rec, r2: Rec :|
        r1.tx == AsSent(c, x) && r2.tx == AsSent(c, y) && UnderpaidRun(c, ids, issued, acts, r1, r2);
      UnderpaidNotExact(c, ids, issued, acts, r1, r2);
    }
  }

  /** The outer payment of the family: its merchant's name holds the whole inner payment behind `merchant`. */
  function Outer(id: string, t: int, n: nat, k: nat, token: string, account: string, merchant: string, inner: Tx): Tx {
    var name := Joined(merchant, Numbers(inner.clientTimestamp, inner.sequenceNum, inner.seqNo,
                                         Joined(inner.tokenId, Joined(inner.accountId, inner.merchantId))));
    Tx(id, t, n, k, map[], token, account, name, "", inner.amount, PENDING, "")
  }

  /** The id of the inner payment: the outer id with the outer payment behind it. */
  function LongId(id: string, t: int, n: nat, k: nat, token: string, account: string, merchant: string): string {
    Joined(id, Numbers(t, n, k, Joined(token, Joined(account, merchant))))
  }

  /** Ids `t` and `t:1:1:1:TOK-a-9-1:A:M`, and all others made like them: one of the two payments is never settled. The
      first to be paid is the one numbered 1. */
  lemma NestedIdUnderpays(c: Codec, id: string, t: int, n: nat, k: nat, token: string, account: string,
                          merchant: string, inner: Tx)
    requires Faithful(c) && t != 0 && TOKEN_PREFIX <= token && account != RESERVE && Queueable(inner) && Payable(inner)
    requires n > 0 && n != inner.sequenceNum && (n == 1 || inner.sequenceNum == 1)
             && 2 * inner.amount <= MAX_OFFLINE_FLOOR
    requires inner == Sent(LongId(id, t, n, k, token, account, merchant), inner)
    requires FitsLog(c, inner) && FitsLog(c, Outer(id, t, n, k, token, account, merchant, inner))
    ensures var x, ids := Outer(id, t, n, k, token, account, merchant, inner), {id, inner.txId};
            if n == 1 then Underpays(c, ids, x, inner) else Underpays(c, ids, inner, x)
  {
    var x, ids := Outer(id, t, n, k, token, account, merchant, inner), {id, inner.txId};
    OneTextTwoIds(id, t, n, k, token, account, merchant, inner.clientTimestamp, inner.sequenceNum, inner.seqNo,
                  inner.tokenId, inner.accountId, inner.merchantId, inner.amount);
    NotReserve(merchant, Numbers(inner.clientTimestamp, inner.sequenceNum, inner.seqNo,
                                 Joined(inner.tokenId, Joined(inner.accountId, inner.merchantId))), 0);
    assert |inner.txId| > |id|;
    assert Raw(x) == Raw(inner) && Payable(x);
    if n == 1 { SequenceUnderpays(c, ids, x, inner); } else { SequenceUnderpays(c, ids, inner, x); }
  }

  /** A transaction under this id without clock, terminal and hash, otherwise as given. */
  function Sent(id: string, tx: Tx): Tx {
    tx.(txId := id, vectorClock := map[], terminalId := "", status := PENDING, payloadHash := "")
  }
}
