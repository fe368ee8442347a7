/** The gateway as the mutable object of the source, driving ledger, fraud engine, edge authorizer, log and
    reconciler. */
module PaymentGateways {
  import opened LedgerModel
  import opened Ledger
  import opened WalStores
  import opened SettlementModel
  import opened Reconcilers
  import opened GatewayModel
  import Auth = OfflineAuth
  import FraudEngines

  class PaymentGateway {
    var networkStatus: NetworkStatus
    var fraudScreeningEnabled: bool
    var idempotency: map<string, Response>
    var requestCounter: nat
    const ledger: ConservingLedger
    const fraudEngine: FraudEngines.InMemGraphFraudEngine
    const edgeAuthorizer: Auth.EdgeAuthorizer
    const edgeWAL: WALStore
    const reconciler: Reconciler

    ghost predicate Valid()
      reads this, ledger, edgeWAL, edgeAuthorizer, edgeAuthorizer.revocationFilter
    {
      ledger.Valid() && edgeWAL.Valid() && edgeAuthorizer.Valid() && edgeAuthorizer.Usable()
          && reconciler.ledger == ledger
    }

    ghost function Value(): Gateway
      reads this, ledger, fraudEngine, edgeAuthorizer, edgeWAL, reconciler
    {
      Gateway(networkStatus, fraudScreeningEnabled, idempotency, requestCounter, ledger.Value(), fraudEngine.Value(),
              edgeAuthorizer.Value(), edgeWAL.Value(), reconciler.Value())
    }

    constructor (ledger: ConservingLedger, fraudEngine: FraudEngines.InMemGraphFraudEngine,
                 edgeAuthorizer: Auth.EdgeAuthorizer, edgeWAL: WALStore, reconciler: Reconciler)
      requires ledger.Valid() && edgeWAL.Valid() && edgeAuthorizer.Valid() && edgeAuthorizer.Usable()
               && reconciler.ledger == ledger
      ensures Valid() && this.ledger == ledger && this.edgeAuthorizer == edgeAuthorizer && this.edgeWAL == edgeWAL
      ensures Value() == Gateway(NetworkStatus.Online, true, map[], 0, ledger.Value(), fraudEngine.Value(),
                                 edgeAuthorizer.Value(), edgeWAL.Value(), reconciler.Value())
    {
      this.ledger := ledger;
      this.fraudEngine := fraudEngine;
      this.edgeAuthorizer := edgeAuthorizer;
      this.edgeWAL := edgeWAL;
      this.reconciler := reconciler;
      networkStatus, fraudScreeningEnabled, idempotency, requestCounter := NetworkStatus.Online, true, map[], 0;
    }

    method SetNetworkStatus(status: NetworkStatus)
      requires Valid()
      modifies this`networkStatus
      ensures Valid() && Value() == old(Value()).(network := status)
    {
      networkStatus := status;
    }

    method SetFraudScreeningEnabled(enabled: bool)
      requires Valid()
      modifies this`fraudScreeningEnabled
      ensures Valid() && Value() == old(Value()).(screening := enabled)
    {
      fraudScreeningEnabled := enabled;
    }

    method HandleOfflinePayment(req: Request, env: Surroundings) returns (resp: Response)
      requires Valid()
      requires req.token.Some? ==> env.tokenRevoked == edgeAuthorizer.Revoked(req.token.value)
      modifies edgeAuthorizer`spentByToken, edgeAuthorizer`sequenceNum, edgeWAL
      ensures Valid() && (Value(), resp) == PayOffline(edgeWAL.codec, old(Value()), req, env)
    {
      if req.token.None? {
        return Declined(OfflineTokenInvalid);
      }
      var token := req.token.value;
      var answer := edgeAuthorizer.AuthorizeOffline(token, req.amount, env.tokenGenuine, env.seconds);
      var decision := answer.value;
      if decision.Refused? {
        return Declined(RefusalReason(decision.reason));
      }
      var ok := edgeWAL.Append(Queued(edgeWAL.codec, req, token, decision.sequenceNum));
      if !ok {
        return Declined(SystemError);
      }
      resp := OfflineAuthorized(req.txId, req.accountId, req.amount, token.tokenId);
    }

    method ReserveAndCommit(req: Request) returns (resp: Response)
      requires Valid()
      modifies ledger
      ensures Valid() && (ledger.Value(), resp) == PayFromLedger(old(ledger.Value()), req)
    {
      var reserved := ledger.ReserveFunds(req.accountId, req.amount, req.txId);
      if reserved == Failed(InsufficientFunds) {
        return Declined(InsufficientBalance);
      }
      if !reserved.Done? {
        return Declined(SystemError);
      }
      var committed := ledger.CommitHold(req.accountId, req.merchantId, req.amount, req.txId);
      if !committed.Done? {
        var _ := ledger.ReleaseHold(req.accountId, req.amount, req.txId);
        return Declined(SystemError);
      }
      resp := Approved(req.txId, req.accountId, req.amount);
    }

    method HandleOnlinePayment(req: Request, env: Surroundings) returns (resp: Response)
      requires Valid()
      modifies ledger, fraudEngine
      ensures Valid() && (Value(), resp) == PayOnline(old(Value()), req, env)
    {
      if fraudScreeningEnabled {
        if !env.qrValid {
          return Declined(QrMismatch);
        }
        var decision := fraudEngine.ScreenTransaction(Screening(req, env));
        if !decision.Approved? {
          return Declined(MuleRingDetected);
        }
      }
      resp := ReserveAndCommit(req);
    }

    method Answer(req: Request, env: Surroundings) returns (resp: Response)
      requires Valid()
      requires req.token.Some? ==> env.tokenRevoked == edgeAuthorizer.Revoked(req.token.value)
      modifies ledger, fraudEngine, edgeAuthorizer`spentByToken, edgeAuthorizer`sequenceNum, edgeWAL
      ensures Valid() && (Value(), resp) == Pay(edgeWAL.codec, old(Value()), req, env)
    {
      if !env.dynamicQrValid {
        return Declined(QrTampering);
      }
      if networkStatus.Disconnected? {
        resp := HandleOfflinePayment(req, env);
      } else {
        resp := HandleOnlinePayment(req, env);
      }
    }

    /** One payment request, answered from the cache if its key was answered before. The surroundings tell the truth
        about the revocation filter. */
    method ProcessPayment(req: Request, env: Surroundings) returns (resp: Response)
      requires Valid()
      requires req.token.Some? ==> env.tokenRevoked == edgeAuthorizer.Revoked(req.token.value)
      modifies this`requestCounter, this`idempotency, ledger, fraudEngine,
               edgeAuthorizer`spentByToken, edgeAuthorizer`sequenceNum, edgeWAL
      ensures Valid() && (Value(), resp) == GatewayModel.ProcessPayment(edgeWAL.codec, old(Value()), req, env)
    {
      requestCounter := requestCounter + 1;
      var full := Completed(req, env);
      if full.idempotencyKey != "" {
        if full.idempotencyKey in idempotency {
          return idempotency[full.idempotencyKey];
        }
      }
      resp := Answer(full, env);
      if full.idempotencyKey != "" {
        idempotency := idempotency[full.idempotencyKey := resp];
      }
    }

    method TriggerReconciliation() returns (report: Report, hung: bool)
      requires Valid()
      modifies ledger, edgeWAL`txMap, reconciler`seenHashes, reconciler`deficitLogs
      ensures Valid()
      ensures (Value(), report, hung) == GatewayModel.TriggerReconciliation(edgeWAL.codec, old(Value()))
    {
      report, hung := reconciler.Replay(edgeWAL);
    }
  }
}
