/** The gateway's answers: what decides an online and an offline payment, and what screening means for the money. */
module GatewayAnswers {
  import opened Sums
  import opened Queue
  import opened LedgerModel
  import opened LedgerConservation
  import opened WalModel
  import opened GatewayModel
  import opened PartitionRuns
  import opened MerchantIncome
  import opened TokenTexts
  import Auth = OfflineAuth
  import PayloadText
  import Fraud = FraudModel
  import FraudPruning

  /** Under `from` a transfer to `to` is recorded that is less than 60 seconds old. */
  ghost predicate PaidLately(g: Fraud.Graph, from: string, to: string, now: int) {
    from in g && exists i :: 0 <= i < |g[from]| && g[from][i].to == to && g[from][i].time > now - 60_000_000_000
  }

  /** The receiver has lately paid the sender back, directly or through one other account. */
  ghost predicate WayBack(g: Fraud.Graph, from: string, to: string, now: int) {
    exists hop :: PaidLately(g, to, hop, now) && (hop == from || PaidLately(g, hop, from, now))
  }

  /** The account's recorded transfers that are less than 60 seconds old, by position. */
  ghost function LateTransfers(g: Fraud.Graph, account: string, now: int): set<nat> {
    if account in g then set i | 0 <= i < |g[account]| && g[account][i].time > now - 60_000_000_000 else {}
  }

  /** The devices the account was last seen on less than 60 seconds ago. */
  ghost function LateDevices(d: Fraud.Sightings, account: string, now: int): set<string> {
    if account in d then set x | x in d[account] && d[account][x] > now - 60_000_000_000 else {}
  }

  /** Too many transfers lately, or fewer with three devices, or fewer still with three devices and a large amount. */
  ghost predicate TooFast(e: Fraud.Engine, account: string, amount: int, now: int) {
    var velocity, devices := |LateTransfers(e.transfers, account, now)|, |LateDevices(e.devices, account, now)|;
    || (e.reject > 0 && velocity >= e.reject)
    || (e.warn > 0 && velocity >= e.warn && devices >= 3)
    || (e.warn > 1 && velocity >= e.warn / 2 && devices >= 3 && amount > 500000)
  }

  /** The engine's records speak against the transfer. */
  ghost predicate Suspicious(e: Fraud.Engine, from: string, to: string, amount: int, now: int) {
    (to != "" && from != to && WayBack(e.transfers, from, to, now)) || TooFast(e, from, amount, now)
  }

  lemma LatelyRecent(g: Fraud.Graph, from: string, to: string, now: int)
    ensures PaidLately(g, from, to, now)
       <==> exists j :: 0 <= j < |Fraud.RecentOut(g, from, now)| && Fraud.RecentOut(g, from, now)[j].to == to
  {
    var all, recent := Fraud.Out(g, from), Fraud.RecentOut(g, from, now);
    if PaidLately(g, from, to, now) {
      var i :| 0 <= i < |all| && all[i].to == to && all[i].time > now - 60_000_000_000;
      Fraud.InRecent(all, now - Fraud.WINDOW, all[i]);
      var j :| 0 <= j < |recent| && recent[j] == all[i];
    }
    if j :| 0 <= j < |recent| && recent[j].to == to {
      Fraud.InRecent(all, now - Fraud.WINDOW, recent[j]);
      var i :| 0 <= i < |all| && all[i] == recent[j];
    }
  }

  lemma ReturnsWayBack(g: Fraud.Graph, from: string, to: string, now: int)
    ensures Fraud.Returns(g, from, to, now) <==> WayBack(g, from, to, now)
  {
    var recent := Fraud.RecentOut(g, to, now);
    if i :| 0 <= i < |recent| && Fraud.LeadsBack(g, recent[i].to, from, now) {
      LatelyRecent(g, to, recent[i].to, now);
      LatelyRecent(g, recent[i].to, from, now);
    }
    if hop :| PaidLately(g, to, hop, now) && (hop == from || PaidLately(g, hop, from, now)) {
      LatelyRecent(g, to, hop, now);
      LatelyRecent(g, hop, from, now);
      var i :| 0 <= i < |recent| && recent[i].to == hop;
      assert Fraud.LeadsBack(g, recent[i].to, from, now);
    }
  }

  lemma {:induction false} RecentCount(evs: seq<Fraud.Event>, cutoff: int)
    ensures |Fraud.Recent(evs, cutoff)| == |set i | 0 <= i < |evs| && evs[i].time > cutoff|
    decreases |evs|
  {
    var late := set i | 0 <= i < |evs| && evs[i].time > cutoff;
    if evs != [] {
      var init := evs[..|evs| - 1];
      RecentCount(init, cutoff);
      var before := set i | 0 <= i < |init| && init[i].time > cutoff;
      assert late == before + (if evs[|init|].time > cutoff then {|init|} else {});
    } else {
      assert late == {};
    }
  }

  lemma VelocityCount(g: Fraud.Graph, account: string, now: int)
    ensures |Fraud.RecentOut(g, account, now)| == |LateTransfers(g, account, now)|
  {
    RecentCount(Fraud.Out(g, account), now - Fraud.WINDOW);
  }

  lemma DeviceCount(d: Fraud.Sightings, account: string, now: int)
    ensures Fraud.RecentSeen(d, account, now).Keys == LateDevices(d, account, now)
  {
  }

  /** The decision of an engine, read off its records. */
  lemma DecisionExactly(e: Fraud.Engine, req: Fraud.Request)
    ensures Fraud.Decide(e, req).Approved? <==> !Suspicious(e, req.from, req.to, req.amount, req.now)
  {
    ReturnsWayBack(e.transfers, req.from, req.to, req.now);
    VelocityCount(e.transfers, req.from, req.now);
    DeviceCount(e.devices, req.from, req.now);
    Fraud.RiskyExactly(e.warn, e.reject, |Fraud.RecentOut(e.transfers, req.from, req.now)|,
                       |Fraud.RecentSeen(e.devices, req.from, req.now).Keys|, req.amount);
  }

  /** Screening approves exactly what the records do not speak against, pruned on this occasion or not. */
  lemma ScreeningExactly(e: Fraud.Engine, req: Fraud.Request)
    ensures Fraud.ScreenWith(true, e, req).1.Approved? <==> !Suspicious(e, req.from, req.to, req.amount, req.now)
  {
    var r := Fraud.Refreshed(true, e, req.now);
    assert FraudPruning.Same(e, e, req.now);
    FraudPruning.RefreshKeepsSame(e, e, req.now);
    FraudPruning.SameDecision(r, e, req);
    DecisionExactly(e, req);
  }

  /** The accounts after a payment: the amount has gone from the payer's online balance to the payee's. */
  ghost predicate Transferred(l: State, n: State, payer: string, payee: string, amount: int, id: string) {
    var a, b := Get(l.accounts, id), Get(n.accounts, id);
    b == a.(online := a.online - (if id == payer then amount else 0) + (if id == payee then amount else 0))
  }

  /** A payment that is approved moves the amount and books it in and out of escrow; one that is not, on a solvent
      ledger, leaves the ledger as it was. */
  lemma LedgerPaymentMoves(l: State, req: Request, id: string)
    requires Solvent(l.accounts)
    ensures var (n, resp) := PayFromLedger(l, req);
            if resp.Approved? then
              && resp == Approved(req.txId, req.accountId, req.amount)
              && Transferred(l, n, req.accountId, req.merchantId, req.amount, id)
              && n.entries == l.entries + [
                   Entry(|l.entries| + 1, req.txId, EntryReserve, req.accountId, ESCROW, req.amount),
                   Entry(|l.entries| + 2, req.txId, EntryCommit, ESCROW, req.merchantId, req.amount)]
            else n == l
  {
    if req.accountId in l.accounts { assert SolventAccount(req.accountId, l.accounts[req.accountId]); }
  }

  /** The transaction id of a request, or the random one if it has none. */
  function IdOf(req: Request, env: Surroundings): string {
    if req.txId == "" then env.randomTxId else req.txId
  }

  /** The request reaches the online path. */
  predicate GoesOnline(g: Gateway, req: Request, env: Surroundings) {
    !Cached(g, req) && env.dynamicQrValid && !g.network.Disconnected?
  }

  lemma OnlineParts(c: Codec, g: Gateway, req: Request, env: Surroundings)
    requires GoesOnline(g, req, env)
    ensures var (e, resp) := ProcessPayment(c, g, req, env);
            var d := Fraud.ScreenWith(true, g.engine, Screening(req, env)).1;
            if g.screening && !env.qrValid then (e.ledger, resp) == (g.ledger, Declined(QrMismatch))
            else if g.screening && !d.Approved? then (e.ledger, resp) == (g.ledger, Declined(MuleRingDetected))
            else (e.ledger, resp) == PayFromLedger(g.ledger, Completed(req, env))
  {
  }

  /** Every answer of the online path, exactly when it is given: for a QR code that does not match; for records that
      speak against the transfer; for want of cover; for an unknown account or an amount that is not positive; and
      otherwise an approval of what was asked for. Only the approval moves money, and it moves exactly the amount. */
  lemma OnlineAnswer(c: Codec, g: Gateway, req: Request, env: Surroundings, id: string)
    requires GoesOnline(g, req, env) && Solvent(g.ledger.accounts)
    ensures var (e, resp) := ProcessPayment(c, g, req, env);
            var mismatch := g.screening && !env.qrValid;
            var refused := g.screening && env.qrValid &&
                           Suspicious(g.engine, req.accountId, req.merchantId, req.amount, env.nanoseconds);
            var payable := !mismatch && !refused && req.amount > 0 && req.accountId in g.ledger.accounts;
            && (resp == Declined(QrMismatch) <==> mismatch)
            && (resp == Declined(MuleRingDetected) <==> refused)
            && (resp == Declined(InsufficientBalance)
                <==> payable && g.ledger.accounts[req.accountId].online < req.amount)
            && (resp == Declined(SystemError) <==> !mismatch && !refused && !payable)
            && (resp == Approved(IdOf(req, env), req.accountId, req.amount)
                <==> payable && g.ledger.accounts[req.accountId].online >= req.amount)
            && (if resp.Approved? then Transferred(g.ledger, e.ledger, req.accountId, req.merchantId, req.amount, id)
                else e.ledger == g.ledger)
  {
    OnlineParts(c, g, req, env);
    ScreeningExactly(g.engine, Screening(req, env));
    LedgerPaymentAnswers(g.ledger, Completed(req, env));
    LedgerPaymentMoves(g.ledger, Completed(req, env), id);
  }

  /** The request reaches the offline path. */
  predicate GoesOffline(g: Gateway, req: Request, env: Surroundings) {
    !Cached(g, req) && env.dynamicQrValid && g.network.Disconnected?
  }

  /** The token is out of date, bound to another terminal or not signed by the authority. */
  predicate BadToken(g: Gateway, t: Token, env: Surroundings) {
    env.seconds > t.expiration || t.terminalId !in {"*", g.auth.terminalId} || !env.tokenGenuine
  }

  function SpentOn(g: Gateway, t: Token): int {
    if t.tokenId in g.auth.spent then g.auth.spent[t.tokenId] else 0
  }

  /** The amount is above the ceiling of all tokens, of this one, or of what is left of it. */
  predicate TooHigh(g: Gateway, t: Token, amount: int) {
    amount > 5000 || amount > t.maxFloor || SpentOn(g, t) + amount > t.maxFloor
  }

  /** The record of an offline payment: every field as asked for, the next number, pending, with its digest. */
  ghost function RecordFor(c: Codec, g: Gateway, req: Request, env: Surroundings, t: Token): Tx {
    var time := if req.clientTimestamp == 0 then env.seconds else req.clientTimestamp;
    var tx := Tx(IdOf(req, env), time, g.auth.sequenceNum + 1, req.seqNo, req.vectorClock, t.tokenId, req.accountId,
                 req.merchantId, req.terminalId, req.amount, "PENDING", "");
    tx.(payloadHash := c.sha(PayloadText.Raw(tx)))
  }

  /** The offline path, with the authorizer's answer and the record as they come. */
  ghost function OfflineEnd(c: Codec, g: Gateway, tx: Tx, b: Auth.Authorizer, d: Auth.Decision)
    : (Auth.Authorizer, Store, Response)
  {
    match d
    case Refused(RevokedAtEdge) => (b, g.wal, Declined(RevokedAccountEdge))
    case Refused(TokenInvalid) => (b, g.wal, Declined(OfflineTokenInvalid))
    case Refused(FloorLimitExceeded) => (b, g.wal, Declined(FloorLimit))
    case Granted(_, _) =>
      if tx.txId in g.wal.txMap then (b, g.wal, Declined(SystemError))
      else (b, Append(c, g.wal, tx).0, OfflineAuthorized(tx.txId, tx.accountId, tx.amount, tx.tokenId))
  }

  lemma OfflineParts(c: Codec, g: Gateway, req: Request, env: Surroundings)
    requires GoesOffline(g, req, env)
    ensures var (e, resp) := ProcessPayment(c, g, req, env);
            var (m, r) := PayOffline(c, Counted(g), Completed(req, env), env);
            e.ledger == m.ledger && e.auth == m.auth && e.wal == m.wal && resp == r
  {
  }

  lemma QueuedFor(c: Codec, g: Gateway, req: Request, env: Surroundings, t: Token)
    ensures Queued(c, Completed(req, env), t, g.auth.sequenceNum + 1) == RecordFor(c, g, req, env, t)
  {
  }

  lemma OfflinePath(c: Codec, g: Gateway, req: Request, env: Surroundings, t: Token, tx: Tx)
    requires req.token == Some(t) && tx == Queued(c, req, t, g.auth.sequenceNum + 1)
    ensures var (m, r) := PayOffline(c, g, req, env);
            var (b, d) := Asked(g, req, t, env);
            (m.auth, m.wal, r) == OfflineEnd(c, g, tx, b, d)
  {
    OfflineDecision(g, req, env, t);
  }

  lemma OfflineDecision(g: Gateway, req: Request, env: Surroundings, t: Token)
    ensures var (b, d) := Asked(g, req, t, env);
            && (d == Auth.Refused(Auth.RevokedAtEdge) <==> env.tokenRevoked)
            && (d == Auth.Refused(Auth.TokenInvalid) <==> !env.tokenRevoked && BadToken(g, t, env))
            && (d == Auth.Refused(Auth.FloorLimitExceeded)
                <==> !env.tokenRevoked && !BadToken(g, t, env) && TooHigh(g, t, req.amount))
            && (if d.Granted?
                then d.sequenceNum == g.auth.sequenceNum + 1
                     && b == Auth.Authorizer(g.auth.terminalId,
                                             g.auth.spent[t.tokenId := SpentOn(g, t) + req.amount],
                                             g.auth.sequenceNum + 1)
                else b == g.auth)
  {
    var k := Auth.Checks(env.tokenRevoked, env.tokenGenuine, env.seconds);
    Auth.RefusedExactly(g.auth, t, req.amount, k);
    Auth.GrantedExactly(g.auth, t, req.amount, k);
  }

  /** Without a token nothing is authorized offline. */
  lemma TokenRequired(c: Codec, g: Gateway, req: Request, env: Surroundings)
    requires GoesOffline(g, req, env) && req.token.None?
    ensures var (e, resp) := ProcessPayment(c, g, req, env);
            resp == Declined(OfflineTokenInvalid) && e.ledger == g.ledger && e.wal == g.wal && e.auth == g.auth
  {
  }

  lemma EndAnswers(c: Codec, g: Gateway, tx: Tx, b: Auth.Authorizer, d: Auth.Decision, revoked: bool, bad: bool,
                   high: bool)
    requires d == Auth.Refused(Auth.RevokedAtEdge) <==> revoked
    requires d == Auth.Refused(Auth.TokenInvalid) <==> !revoked && bad
    requires d == Auth.Refused(Auth.FloorLimitExceeded) <==> !revoked && !bad && high
    ensures var (b', w, resp) := OfflineEnd(c, g, tx, b, d);
            var granted, known := !revoked && !bad && !high, tx.txId in g.wal.txMap;
            && (resp == Declined(RevokedAccountEdge) <==> revoked)
            && (resp == Declined(OfflineTokenInvalid) <==> !revoked && bad)
            && (resp == Declined(FloorLimit) <==> !revoked && !bad && high)
            && (resp == Declined(SystemError) <==> granted && known)
            && (resp == OfflineAuthorized(tx.txId, tx.accountId, tx.amount, tx.tokenId) <==> granted && !known)
            && (d.Granted? <==> granted) && b' == b
            && w == if granted && !known then Append(c, g.wal, tx).0 else g.wal
  {
  }

  /** What an offline payment with this token comes to. A grant is counted as spent, and recorded unless the log knows
      its id; a refusal changes neither. The ledger is not touched. */
  ghost predicate OfflineOutcome(c: Codec, g: Gateway, req: Request, env: Surroundings, t: Token, e: Gateway,
                                 resp: Response) {
    var id := IdOf(req, env);
    var bad, high := BadToken(g, t, env), TooHigh(g, t, req.amount);
    var granted := !env.tokenRevoked && !bad && !high;
    && (resp == Declined(RevokedAccountEdge) <==> env.tokenRevoked)
    && (resp == Declined(OfflineTokenInvalid) <==> !env.tokenRevoked && bad)
    && (resp == Declined(FloorLimit) <==> !env.tokenRevoked && !bad && high)
    && (resp == Declined(SystemError) <==> granted && id in g.wal.txMap)
    && (resp == OfflineAuthorized(id, req.accountId, req.amount, t.tokenId) <==> granted && id !in g.wal.txMap)
    && e.ledger == g.ledger
    && e.auth == (if granted
                  then Auth.Authorizer(g.auth.terminalId, g.auth.spent[t.tokenId := SpentOn(g, t) + req.amount],
                                       g.auth.sequenceNum + 1)
                  else g.auth)
    && e.wal == (if granted && id !in g.wal.txMap then Append(c, g.wal, RecordFor(c, g, req, env, t)).0 else g.wal)
  }

  lemma OutcomeFrom(c: Codec, g: Gateway, req: Request, env: Surroundings, t: Token, e: Gateway, resp: Response,
                    b: Auth.Authorizer, d: Auth.Decision)
    requires e.ledger == g.ledger
    requires (e.auth, e.wal, resp) == OfflineEnd(c, g, RecordFor(c, g, req, env, t), b, d)
    requires d == Auth.Refused(Auth.RevokedAtEdge) <==> env.tokenRevoked
    requires d == Auth.Refused(Auth.TokenInvalid) <==> !env.tokenRevoked && BadToken(g, t, env)
    requires d == Auth.Refused(Auth.FloorLimitExceeded)
        <==> !env.tokenRevoked && !BadToken(g, t, env) && TooHigh(g, t, req.amount)
    requires b == if d.Granted?
                  then Auth.Authorizer(g.auth.terminalId, g.auth.spent[t.tokenId := SpentOn(g, t) + req.amount],
                                       g.auth.sequenceNum + 1)
                  else g.auth
    ensures OfflineOutcome(c, g, req, env, t, e, resp)
  {
    EndAnswers(c, g, RecordFor(c, g, req, env, t), b, d, env.tokenRevoked, BadToken(g, t, env),
               TooHigh(g, t, req.amount));
  }

  /** The offline path for a request that is complete. */
  lemma PathOutcome(c: Codec, g: Gateway, req: Request, env: Surroundings, t: Token)
    requires req.token == Some(t) && req == Completed(req, env)
    ensures var (m, r) := PayOffline(c, g, req, env); OfflineOutcome(c, g, req, env, t, m, r)
  {
    var (m, r) := PayOffline(c, g, req, env);
    var (b, d) := Asked(g, req, t, env);
    QueuedFor(c, g, req, env, t);
    OfflinePath(c, g, req, env, t, RecordFor(c, g, req, env, t));
    OfflineDecision(g, req, env, t);
    OutcomeFrom(c, g, req, env, t, m, r, b, d);
  }

  lemma SameAsked(c: Codec, g: Gateway, req: Request, env: Surroundings, t: Token)
    ensures var h, full := Counted(g), Completed(req, env);
            && IdOf(full, env) == IdOf(req, env) && full.accountId == req.accountId && full.amount == req.amount
            && RecordFor(c, h, full, env, t) == RecordFor(c, g, req, env, t)
            && BadToken(h, t, env) == BadToken(g, t, env) && SpentOn(h, t) == SpentOn(g, t)
  {
  }

  /** The outcome does not depend on whether the request came complete, nor on the count of requests. */
  lemma CompletedOutcome(c: Codec, g: Gateway, req: Request, env: Surroundings, t: Token, m: Gateway, r: Response)
    requires OfflineOutcome(c, Counted(g), Completed(req, env), env, t, m, r)
    ensures OfflineOutcome(c, g, req, env, t, m, r)
  {
    SameAsked(c, g, req, env, t);
    var id, tx := IdOf(req, env), RecordFor(c, g, req, env, t);
    assert IdOf(Completed(req, env), env) == id && RecordFor(c, Counted(g), Completed(req, env), env, t) == tx;
  }

  lemma OutcomeCopied(c: Codec, g: Gateway, req: Request, env: Surroundings, t: Token, m: Gateway, e: Gateway,
                      r: Response)
    requires OfflineOutcome(c, g, req, env, t, m, r) && e.ledger == m.ledger && e.auth == m.auth && e.wal == m.wal
    ensures OfflineOutcome(c, g, req, env, t, e, r)
  {
  }

  /** Every answer of the offline path, exactly when it is given, and what it does. */
  lemma OfflineAnswer(c: Codec, g: Gateway, req: Request, env: Surroundings)
    requires GoesOffline(g, req, env) && req.token.Some?
    ensures var (e, resp) := ProcessPayment(c, g, req, env);
            OfflineOutcome(c, g, req, env, req.token.value, e, resp)
  {
    var (m, r) := PayOffline(c, Counted(g), Completed(req, env), env);
    OfflineParts(c, g, req, env);
    PathOutcome(c, Counted(g), Completed(req, env), env, req.token.value);
    CompletedOutcome(c, g, req, env, req.token.value, m, r);
    OutcomeCopied(c, g, req, env, req.token.value, m, ProcessPayment(c, g, req, env).0, r);
  }

  /** A tampered dynamic QR code is refused before anything else is looked at. */
  lemma TamperedRefused(c: Codec, g: Gateway, req: Request, env: Surroundings)
    requires !Cached(g, req) && !env.dynamicQrValid
    ensures var (e, resp) := ProcessPayment(c, g, req, env);
            && resp == Declined(QrTampering)
            && e == g.(requestCounter := g.requestCounter + 1, idempotency := e.idempotency)
  {
  }
}
