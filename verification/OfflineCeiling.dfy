/** Whole runs seen from a token: what is queued under it stays within its ceiling. */
module OfflineCeiling {
  import opened Sums
  import opened LedgerModel
  import opened WalModel
  import opened GatewayModel
  import opened PartitionRuns
  import opened TokenTexts
  import Auth = OfflineAuth

  ghost function Under(tokenId: string): Rec -> int {
    (r: Rec) => if r.tx.tokenId == tokenId then r.tx.amount else 0
  }

  /** What is granted is not negative and shown on the strength of an issued token; spending is not forgotten. */
  ghost predicate Regular(g: Gateway, a: Action, issued: set<Token>) {
    match a
    case Payment(req, env) => ReachesLog(g, req, env) ==> req.amount >= 0 && Signed(req.token.value, issued)
    case ResetSpent => false
    case _ => true
  }

  ghost predicate AllRegular(c: Codec, g: Gateway, acts: seq<Action>, issued: set<Token>)
    decreases |acts|
  {
    acts != [] ==> Regular(g, acts[0], issued) && AllRegular(c, Next(c, g, acts[0]), acts[1..], issued)
  }

  ghost predicate Bounded(g: Gateway, recs: seq<Rec>, issued: set<Token>, tokenId: string) {
    && 0 <= SumSeq(recs, Under(tokenId))
    && (tokenId in g.auth.spent ==> Auth.Covers(issued, tokenId, g.auth.spent[tokenId]))
  }

  /** Queued sequence numbers rise strictly and never run ahead of the authorizer. */
  ghost predicate Sequenced(g: Gateway, recs: seq<Rec>) {
    && (forall i, j :: 0 <= i < j < |recs| ==> recs[i].tx.sequenceNum < recs[j].tx.sequenceNum)
    && (forall i :: 0 <= i < |recs| ==> 0 < recs[i].tx.sequenceNum <= g.auth.sequenceNum)
  }

  lemma SumSnoc(recs: seq<Rec>, r: Rec, f: Rec -> int)
    ensures SumSeq(recs + [r], f) == SumSeq(recs, f) + f(r)
  {
    SumSeqAppend(recs, [r], f);
    assert [r][1..] == [];
  }

  lemma PaymentBounded(c: Codec, g: Gateway, recs: seq<Rec>, req: Request, env: Surroundings, issued: set<Token>,
                       tokenId: string)
    requires Issuance(issued) && Auth.AllPlain(issued) && Bounded(g, recs, issued, tokenId)
             && Regular(g, Payment(req, env), issued)
    ensures Bounded(ProcessPayment(c, g, req, env).0, Recorded(c, g, recs, Payment(req, env)), issued, tokenId)
  {
    PaymentAuth(c, g, req, env);
    if ReachesLog(g, req, env) {
      var tx := QueuedBy(c, g, req, env);
      SignedIsIssued(req.token.value, issued);
      SumSnoc(recs, NextRec(c, g.wal, tx), Under(tokenId));
    }
  }

  lemma PaymentSequenced(c: Codec, g: Gateway, recs: seq<Rec>, req: Request, env: Surroundings)
    requires Sequenced(g, recs)
    ensures Sequenced(ProcessPayment(c, g, req, env).0, Recorded(c, g, recs, Payment(req, env)))
  {
    PaymentAuth(c, g, req, env);
  }

  /** A state of a run in which spending is within the ceilings and the queue is numbered. */
  ghost predicate InBounds(g: Gateway, recs: seq<Rec>, issued: set<Token>, tokenId: string) {
    Bounded(g, recs, issued, tokenId) && Sequenced(g, recs)
  }

  lemma NextBounded(c: Codec, g: Gateway, recs: seq<Rec>, a: Action, issued: set<Token>, tokenId: string)
    requires Issuance(issued) && Auth.AllPlain(issued) && InBounds(g, recs, issued, tokenId) && Regular(g, a, issued)
    ensures InBounds(Next(c, g, a), Recorded(c, g, recs, a), issued, tokenId)
  {
    if a.Payment? {
      PaymentBounded(c, g, recs, a.req, a.env, issued, tokenId);
      PaymentSequenced(c, g, recs, a.req, a.env);
    }
  }

  lemma {:induction false} RunBounded(c: Codec, g: Gateway, recs: seq<Rec>, acts: seq<Action>, issued: set<Token>,
                                      tokenId: string)
    requires Issuance(issued) && Auth.AllPlain(issued) && InBounds(g, recs, issued, tokenId)
             && AllRegular(c, g, acts, issued)
    ensures InBounds(RunFrom(c, g, acts), RecordedRun(c, g, recs, acts), issued, tokenId)
    decreases |acts|
  {
    if acts != [] {
      NextBounded(c, g, recs, acts[0], issued, tokenId);
      RunHead(c, g, recs, [], acts);
      RunBounded(c, Next(c, g, acts[0]), Recorded(c, g, recs, acts[0]), acts[1..], issued, tokenId);
    }
  }

  /** The step is granted under the token but not queued: the append is refused on a known transaction id. */
  ghost predicate RefusedAppend(c: Codec, g: Gateway, a: Action, tokenId: string) {
    && a.Payment? && ReachesLog(g, a.req, a.env) && QueuedBy(c, g, a.req, a.env).txId in g.wal.txMap
    && a.req.token.value.tokenId == tokenId
  }

  /** The amounts of the refused appends of a run. */
  ghost function RefusedRun(c: Codec, g: Gateway, acts: seq<Action>, tokenId: string): int
    decreases |acts|
  {
    if acts == [] then 0
    else (if RefusedAppend(c, g, acts[0], tokenId) then acts[0].req.amount else 0)
         + RefusedRun(c, Next(c, g, acts[0]), acts[1..], tokenId)
  }

  /** No append of a positive amount is refused in the run. */
  ghost predicate NoneRefused(c: Codec, g: Gateway, acts: seq<Action>, tokenId: string)
    decreases |acts|
  {
    acts != [] ==>
      && !(RefusedAppend(c, g, acts[0], tokenId) && acts[0].req.amount > 0)
      && NoneRefused(c, Next(c, g, acts[0]), acts[1..], tokenId)
  }

  /** Every step but a reset spends what it queues or fails to queue. */
  lemma StepSpends(c: Codec, g: Gateway, recs: seq<Rec>, a: Action, tokenId: string)
    requires !a.ResetSpent?
    ensures Auth.SpentUnder(Next(c, g, a).auth.spent, tokenId) - SumSeq(Recorded(c, g, recs, a), Under(tokenId))
         == Auth.SpentUnder(g.auth.spent, tokenId) - SumSeq(recs, Under(tokenId))
            + (if RefusedAppend(c, g, a, tokenId) then a.req.amount else 0)
  {
    if a.Payment? {
      PaymentAuth(c, g, a.req, a.env);
      if ReachesLog(g, a.req, a.env) { SumSnoc(recs, NextRec(c, g.wal, QueuedBy(c, g, a.req, a.env)), Under(tokenId)); }
    }
  }

  /** Spending under a token is what is queued plus what was refused, in every run without a reset, whatever the
      amounts. */
  lemma {:induction false} SpendingAccounted(c: Codec, g: Gateway, recs: seq<Rec>, acts: seq<Action>, tokenId: string)
    requires forall i :: 0 <= i < |acts| ==> !acts[i].ResetSpent?
    ensures Auth.SpentUnder(RunFrom(c, g, acts).auth.spent, tokenId)
            - SumSeq(RecordedRun(c, g, recs, acts), Under(tokenId))
         == Auth.SpentUnder(g.auth.spent, tokenId) - SumSeq(recs, Under(tokenId)) + RefusedRun(c, g, acts, tokenId)
    decreases |acts|
  {
    if acts != [] {
      StepSpends(c, g, recs, acts[0], tokenId);
      RunHead(c, g, recs, [], acts);
      SpendingAccounted(c, Next(c, g, acts[0]), Recorded(c, g, recs, acts[0]), acts[1..], tokenId);
    }
  }

  lemma {:induction false} RefusedNothing(c: Codec, g: Gateway, acts: seq<Action>, issued: set<Token>, tokenId: string)
    requires AllRegular(c, g, acts, issued)
    ensures RefusedRun(c, g, acts, tokenId) >= 0
    ensures RefusedRun(c, g, acts, tokenId) == 0 <==> NoneRefused(c, g, acts, tokenId)
    decreases |acts|
  {
    if acts != [] { RefusedNothing(c, Next(c, g, acts[0]), acts[1..], issued, tokenId); }
  }

  lemma {:induction false} NeverReset(c: Codec, g: Gateway, acts: seq<Action>, issued: set<Token>)
    requires AllRegular(c, g, acts, issued)
    ensures forall i :: 0 <= i < |acts| ==> !acts[i].ResetSpent?
    decreases |acts|
  {
    if acts != [] {
      NeverReset(c, Next(c, g, acts[0]), acts[1..], issued);
      forall i | 0 <= i < |acts| ensures !acts[i].ResetSpent? {
        if i > 0 { assert acts[i] == acts[1..][i - 1]; }
      }
    }
  }

  /** In every run over plain tokens that does not reset the spending cache and is granted no negative amount:
      recorded spending under a token id is what is queued under it plus what was granted but not queued, and the two
      are equal exactly if no append of a positive amount was refused; spending is at most the ceiling of the issued
      token of that id, hence at most 5000; and the queued sequence numbers are positive and strictly increasing. */
  lemma QueuedWithinCeiling(c: Codec, g: Gateway, acts: seq<Action>, issued: set<Token>, tokenId: string)
    requires Issuance(issued) && Auth.AllPlain(issued) && g.auth.spent == map[] && AllRegular(c, g, acts, issued)
    ensures var e := RunFrom(c, g, acts);
            var recs := RecordedRun(c, g, [], acts);
            var queued, spent := SumSeq(recs, Under(tokenId)), Auth.SpentUnder(e.auth.spent, tokenId);
            && spent == queued + RefusedRun(c, g, acts, tokenId) && 0 <= queued <= spent <= MAX_OFFLINE_FLOOR
            && (queued == spent <==> NoneRefused(c, g, acts, tokenId))
            && (spent > 0 ==> Auth.Covers(issued, tokenId, spent))
            && Sequenced(e, recs)
  {
    assert SumSeq<Rec>([], Under(tokenId)) == 0;
    RunBounded(c, g, [], acts, issued, tokenId);
    NeverReset(c, g, acts, issued);
    SpendingAccounted(c, g, [], acts, tokenId);
    RefusedNothing(c, g, acts, issued, tokenId);
  }

  /** The bound is strict after a refused append: a repeated transaction id is declined, yet its amount stays spent. */
  lemma RefusedAppendSpends(c: Codec, g: Gateway, req: Request, env: Surroundings)
    requires ReachesLog(g, req, env) && QueuedBy(c, g, req, env).txId in g.wal.txMap
    ensures var (e, resp) := ProcessPayment(c, g, req, env);
            var t := req.token.value.tokenId;
            && resp == Declined(SystemError) && e.wal == g.wal
            && Auth.SpentUnder(e.auth.spent, t) == Auth.SpentUnder(g.auth.spent, t) + req.amount
  {
  }

  lemma OfflineIgnoresLedger(c: Codec, g: Gateway, l: State, req: Request, env: Surroundings)
    ensures PayOffline(c, g.(ledger := l), req, env)
            == (PayOffline(c, g, req, env).0.(ledger := l), PayOffline(c, g, req, env).1)
  {
  }

  /** Whether an offline payment is accepted does not depend on the ledger: no allowance, however small, limits it. The
      bound on offline spending is the token's ceiling alone. */
  lemma AcceptanceIgnoresAllowance(c: Codec, g: Gateway, l: State, req: Request, env: Surroundings)
    requires g.network.Disconnected?
    ensures ProcessPayment(c, g.(ledger := l), req, env).1 == ProcessPayment(c, g, req, env).1
    ensures ProcessPayment(c, g.(ledger := l), req, env).0 == ProcessPayment(c, g, req, env).0.(ledger := l)
  {
    OfflineIgnoresLedger(c, g.(requestCounter := g.requestCounter + 1), l, Completed(req, env), env);
  }
}
