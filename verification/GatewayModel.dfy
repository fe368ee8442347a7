/** The payment gateway as a value: idempotent ingress, the offline and the online path, and reconciliation. */
module GatewayModel {
  import opened Sums
  import opened Queue
  import opened LedgerModel
  import opened WalModel
  import opened SettlementModel
  import opened TokenTexts
  import Auth = OfflineAuth
  import Fraud = FraudModel

  datatype NetworkStatus = Online | Disconnected | Reconnected

  datatype Reason =
    | QrTampering | QrMismatch | MuleRingDetected | InsufficientBalance | SystemError
    | OfflineTokenInvalid | RevokedAccountEdge | FloorLimit

  datatype Response =
    | Approved(txId: string, accountId: string, amount: int)
    | OfflineAuthorized(txId: string, accountId: string, amount: int, tokenId: string)
    | Declined(reason: Reason)

  datatype Request = Request(
    idempotencyKey: string, txId: string, accountId: string, merchantId: string, terminalId: string, amount: int,
    deviceId: string, clientTimestamp: int, token: Option<Token>, vectorClock: map<string, nat>, seqNo: nat)

  /** What the surroundings contribute to one request: random id, clocks, and the verdicts of the signature checks. */
  datatype Surroundings = Surroundings(
    randomTxId: string, seconds: int, nanoseconds: int,
    dynamicQrValid: bool, qrValid: bool, tokenRevoked: bool, tokenGenuine: bool)

  datatype Gateway = Gateway(
    network: NetworkStatus, screening: bool, idempotency: map<string, Response>, requestCounter: nat,
    ledger: State, engine: Fraud.Engine, auth: Auth.Authorizer, wal: Store, recon: Recon)

  function Completed(req: Request, env: Surroundings): Request {
    var r := if req.txId == "" then req.(txId := env.randomTxId) else req;
    if r.clientTimestamp == 0 then r.(clientTimestamp := env.seconds) else r
  }

  /** The record queued for an authorized offline payment. */
  function Queued(c: Codec, req: Request, token: Token, sequenceNum: int): Tx {
    var tx := Tx(req.txId, req.clientTimestamp, sequenceNum, req.seqNo, req.vectorClock, token.tokenId, req.accountId,
                 req.merchantId, req.terminalId, req.amount, PENDING, "");
    tx.(payloadHash := ComputeHash(c, tx))
  }

  function RefusalReason(r: Auth.Refusal): Reason {
    match r
    case RevokedAtEdge => RevokedAccountEdge
    case TokenInvalid => OfflineTokenInvalid
    case FloorLimitExceeded => FloorLimit
  }

  function PayOffline(c: Codec, g: Gateway, req: Request, env: Surroundings): (Gateway, Response) {
    match req.token
    case None => (g, Declined(OfflineTokenInvalid))
    case Some(token) =>
      var (a, d) := Auth.Authorize(g.auth, token, req.amount,
                                   Auth.Checks(env.tokenRevoked, env.tokenGenuine, env.seconds));
      match d
      case Refused(r) => (g.(auth := a), Declined(RefusalReason(r)))
      case Granted(n, _) =>
        var (w, ok) := Append(c, g.wal, Queued(c, req, token, n));
        (g.(auth := a, wal := w),
         if ok then OfflineAuthorized(req.txId, req.accountId, req.amount, token.tokenId) else Declined(SystemError))
  }

  /** Reserve, commit, and roll back if the commit fails. */
  function PayFromLedger(l: State, req: Request): (State, Response) {
    var (l1, reserved) := DoReserveFunds(l, req.accountId, req.amount, req.txId);
    if reserved == Failed(InsufficientFunds) then (l1, Declined(InsufficientBalance))
    else if !reserved.Done? then (l1, Declined(SystemError))
    else
      var (l2, committed) := DoCommitHold(l1, req.accountId, req.merchantId, req.amount, req.txId);
      if committed.Done? then (l2, Approved(req.txId, req.accountId, req.amount))
      else (DoReleaseHold(l2, req.accountId, req.amount, req.txId).0, Declined(SystemError))
  }

  function Screening(req: Request, env: Surroundings): Fraud.Request {
    Fraud.Request(req.accountId, req.merchantId, req.deviceId, req.amount, env.nanoseconds)
  }

  function PayOnline(g: Gateway, req: Request, env: Surroundings): (Gateway, Response) {
    if g.screening && !env.qrValid then (g, Declined(QrMismatch))
    else
      var (e, d) := if g.screening then Fraud.ScreenWith(true, g.engine, Screening(req, env))
          else (g.engine, Fraud.Approved(0));
      if !d.Approved? then (g.(engine := e), Declined(MuleRingDetected))
      else
        var (l, resp) := PayFromLedger(g.ledger, req);
        (g.(engine := e, ledger := l), resp)
  }

  function Remember(g: Gateway, key: string, resp: Response): Gateway {
    if key == "" then g else g.(idempotency := g.idempotency[key := resp])
  }

  predicate Cached(g: Gateway, req: Request) {
    req.idempotencyKey != "" && req.idempotencyKey in g.idempotency
  }

  /** The path of a request that is not answered from the cache. */
  function Pay(c: Codec, g: Gateway, req: Request, env: Surroundings): (Gateway, Response) {
    if !env.dynamicQrValid then (g, Declined(QrTampering))
    else if g.network.Disconnected? then PayOffline(c, g, req, env)
    else PayOnline(g, req, env)
  }

  function ProcessPayment(c: Codec, g: Gateway, req: Request, env: Surroundings): (Gateway, Response) {
    var g0 := g.(requestCounter := g.requestCounter + 1);
    if Cached(g, req) then (g0, g.idempotency[req.idempotencyKey])
    else
      var (g1, resp) := Pay(c, g0, Completed(req, env), env);
      (Remember(g1, req.idempotencyKey, resp), resp)
  }

  /** A replay that hangs never returns; its effects on the shared state stay. */
  ghost function TriggerReconciliation(c: Codec, g: Gateway): (Gateway, Report, bool) {
    var w := Replay(c, g.recon, g.ledger, g.wal);
    (g.(ledger := w.ledger, wal := w.wal, recon := g.recon.(seen := w.seen, logs := w.logs)), w.report, w.hung)
  }
}
