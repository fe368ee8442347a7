/** Which transaction ids make settlement exact: every record is settled exactly once unless two of them have one
    text. */
module ExactSettlement {
  import opened Queue
  import opened ColonTexts
  import opened PayloadText
  import opened WalModel
  import opened GatewayModel
  import opened PartitionRuns
  import opened TokenTexts

  ghost predicate Injective(sha: string -> string) {
    forall x, y :: sha(x) == sha(y) ==> x == y
  }

  ghost predicate DistinctTexts(recs: seq<Rec>) {
    forall i, j :: 0 <= i < j < |recs| ==> Raw(recs[i].tx) != Raw(recs[j].tx)
  }

  /** With an injective digest, hashes differ exactly where texts do. */
  lemma TextsDecide(c: Codec, recs: seq<Rec>)
    requires Injective(c.sha) && AllAsQueued(c, recs)
    ensures DistinctPayloads(recs) <==> DistinctTexts(recs)
  {
    forall i, j | 0 <= i < j < |recs|
      ensures recs[i].tx.payloadHash != recs[j].tx.payloadHash <==> Raw(recs[i].tx) != Raw(recs[j].tx)
    {
      assert AsQueued(c, recs[i].tx) && AsQueued(c, recs[j].tx);
    }
  }

  /** The payment is made under an id of the set, with a timestamp once it is completed; and if its token passes the
      signature check, it is good under the signature of an issued one. */
  ghost predicate MadeUnder(a: Action, ids: set<string>, issued: set<Token>) {
    a.Payment? ==>
      && Completed(a.req, a.env).txId in ids && Completed(a.req, a.env).clientTimestamp != 0
      && (a.req.token.Some? && a.env.tokenGenuine ==> Signed(a.req.token.value, issued))
  }

  ghost predicate AllMadeUnder(acts: seq<Action>, ids: set<string>, issued: set<Token>) {
    forall i :: 0 <= i < |acts| ==> MadeUnder(acts[i], ids, issued)
  }

  ghost predicate RecordsUnder(recs: seq<Rec>, ids: set<string>) {
    forall i :: 0 <= i < |recs| ==>
      recs[i].tx.txId in ids && recs[i].tx.clientTimestamp != 0 && TOKEN_PREFIX <= recs[i].tx.tokenId
  }

  /** Only a token that passes the signature check is granted. */
  lemma GrantedGenuine(g: Gateway, req: Request, env: Surroundings)
    requires ReachesLog(g, req, env)
    ensures env.tokenGenuine
  {
  }

  lemma StepUnder(c: Codec, g: Gateway, recs: seq<Rec>, a: Action, ids: set<string>, issued: set<Token>)
    requires Issuance(issued) && RecordsUnder(recs, ids) && MadeUnder(a, ids, issued)
    ensures RecordsUnder(Recorded(c, g, recs, a), ids)
  {
    if a.Payment? && ReachesLog(g, a.req, a.env) {
      GrantedGenuine(g, a.req, a.env);
      SignedPrefix(a.req.token.value, issued);
    }
  }

  lemma {:induction false} RunUnder(c: Codec, g: Gateway, recs: seq<Rec>, acts: seq<Action>, ids: set<string>,
                                    issued: set<Token>)
    requires Issuance(issued) && RecordsUnder(recs, ids) && AllMadeUnder(acts, ids, issued)
    ensures RecordsUnder(RecordedRun(c, g, recs, acts), ids)
    decreases |acts|
  {
    if acts != [] {
      StepUnder(c, g, recs, acts[0], ids, issued);
      RunHead(c, g, recs, [], acts);
      RunUnder(c, Next(c, g, acts[0]), Recorded(c, g, recs, acts[0]), acts[1..], ids, issued);
    }
  }

  lemma SafeIdsDistinct(c: Codec, st: Store, recs: seq<Rec>, ids: set<string>)
    requires Listed(st, recs) && AllAsQueued(c, recs) && RecordsUnder(recs, ids) && Unconfusable(ids)
    ensures DistinctTexts(recs)
  {
    SeparatesExactly(ids);
    forall i, j | 0 <= i < j < |recs| ensures Raw(recs[i].tx) != Raw(recs[j].tx) {
      assert AsQueued(c, recs[i].tx) && AsQueued(c, recs[j].tx);
      assert Queueable(recs[i].tx) && Queueable(recs[j].tx);
    }
  }

  /** A record is settled once or not at all; unsettled records are pending, and unless the log was restarted, settled
      ones are not. */
  ghost predicate Once(txMap: map<string, Tx>, seen: set<string>, tx: Tx, settled: seq<Tx>, restarted: bool) {
    && tx.txId in txMap
    && multiset(settled)[tx] == (if tx.payloadHash in seen then 1 else 0)
    && (tx.payloadHash !in seen ==> txMap[tx.txId] == tx && IsPending(tx))
    && (!restarted && tx.payloadHash in seen ==> !IsPending(txMap[tx.txId]))
  }

  ghost predicate AllOnce(txMap: map<string, Tx>, seen: set<string>, recs: seq<Rec>, settled: seq<Tx>,
                          restarted: bool) {
    forall i :: 0 <= i < |recs| ==> Once(txMap, seen, recs[i].tx, settled, restarted)
  }

  lemma InvOnce(c: Codec, g: Gateway, recs: seq<Rec>, settled: seq<Tx>, restarted: bool)
    requires Inv(c, g, recs, settled, restarted) && DistinctPayloads(recs)
    ensures AllOnce(g.wal.txMap, g.recon.seen, recs, settled, restarted)
  {
    forall i | 0 <= i < |recs| ensures Once(g.wal.txMap, g.recon.seen, recs[i].tx, settled, restarted) {
      assert Kept(g.wal.txMap, g.recon.seen, recs[i].tx) && AsQueued(c, recs[i].tx);
      RecordCounted(g.recon.seen, recs, settled, i);
    }
  }

  /** The state of a run over safe ids. */
  lemma SafeRun(c: Codec, g: Gateway, acts: seq<Action>, ids: set<string>, issued: set<Token>)
    requires Faithful(c) && Injective(c.sha) && Initial(g) && AllAdmissible(c, g, acts)
    requires |RecordedRun(c, g, [], acts)| < U64
    requires Issuance(issued) && AllMadeUnder(acts, ids, issued) && Unconfusable(ids)
    ensures var recs := RecordedRun(c, g, [], acts);
            && Inv(c, RunFrom(c, g, acts), recs, SettledRun(c, g, acts), Restarts(acts)) && DistinctPayloads(recs)
  {
    var recs, e := RecordedRun(c, g, [], acts), RunFrom(c, g, acts);
    RunInv(c, g, acts);
    RunUnder(c, g, [], acts, ids, issued);
    SafeIdsDistinct(c, e.wal, recs, ids);
    TextsDecide(c, recs);
  }

  /** In every run over issued tokens, plain or not, whose transaction ids cannot be confused: each accepted
      transaction is settled exactly once if its hash has been seen and not at all otherwise; while unsettled it is
      pending; unless the log was restarted it is pending only while unsettled; and a replay at the end settles all
      that is left. */
  lemma ExactlyOnce(c: Codec, g: Gateway, acts: seq<Action>, ids: set<string>, issued: set<Token>)
    requires Faithful(c) && Injective(c.sha) && Initial(g) && AllAdmissible(c, g, acts)
    requires |RecordedRun(c, g, [], acts)| < U64
    requires Issuance(issued) && AllMadeUnder(acts, ids, issued) && Unconfusable(ids)
    ensures var e := RunFrom(c, g, acts);
            var recs := RecordedRun(c, g, [], acts);
            var settled := SettledRun(c, g, acts);
            && AllOnce(e.wal.txMap, e.recon.seen, recs, settled, Restarts(acts))
            && (forall t :: t in settled ==> IsRecord(recs, t))
            && CountedOnce(recs, settled + SettledBy(c, e, Reconcile))
  {
    SafeRun(c, g, acts, ids, issued);
    var e, recs, settled := RunFrom(c, g, acts), RecordedRun(c, g, [], acts), SettledRun(c, g, acts);
    InvOnce(c, e, recs, settled, Restarts(acts));
    ReplayCompletes(c, e, recs, settled, Restarts(acts));
  }

  /** After any run and a replay, with an injective digest: every record has been settled exactly once if and only if no
      two records have one text. */
  lemma SettledExactly(c: Codec, g: Gateway, acts: seq<Action>)
    requires Faithful(c) && Injective(c.sha) && Initial(g) && AllAdmissible(c, g, acts)
    requires |RecordedRun(c, g, [], acts)| < U64
    ensures var e := RunFrom(c, g, acts);
            var recs := RecordedRun(c, g, [], acts);
            CountedOnce(recs, SettledRun(c, g, acts) + SettledBy(c, e, Reconcile)) <==> DistinctTexts(recs)
  {
    ReplaySettlesEverything(c, g, acts);
    RunInv(c, g, acts);
    TextsDecide(c, RecordedRun(c, g, [], acts));
  }
}
