/** Screening over whole runs of the gateway: no ring of payments is ever paid out. */
module ScreenedRuns {
  import opened Sums
  import opened WalModel
  import opened GatewayModel
  import opened PartitionRuns
  import opened MerchantIncome
  import opened GatewayAnswers
  import Fraud = FraudModel
  import FraudPruning
  import FraudRings

  /** What the engine is asked in one step: online payments whose QR code matches, as long as screening is on. */
  ghost function ScreenedBy(g: Gateway, a: Action): seq<Fraud.Command> {
    if a.Payment? && GoesOnline(g, a.req, a.env) && g.screening && a.env.qrValid
    then [Fraud.Screen(Fraud.Request(a.req.accountId, a.req.merchantId, a.req.deviceId, a.req.amount,
                                     a.env.nanoseconds))]
    else []
  }

  ghost function ScreenedRun(c: Codec, g: Gateway, acts: seq<Action>): seq<Fraud.Command>
    decreases |acts|
  {
    if acts == [] then [] else ScreenedBy(g, acts[0]) + ScreenedRun(c, Next(c, g, acts[0]), acts[1..])
  }

  /** The payment a step approves with screening on, as an event; an answer from the cache pays nothing anew. */
  ghost function PaidBy(c: Codec, g: Gateway, a: Action): seq<Fraud.Event> {
    if g.screening && ApprovedBy(c, g, a) != []
    then [Fraud.Event(a.req.accountId, a.req.merchantId, a.env.nanoseconds)] else []
  }

  ghost function PaidRun(c: Codec, g: Gateway, acts: seq<Action>): seq<Fraud.Event>
    decreases |acts|
  {
    if acts == [] then [] else PaidBy(c, g, acts[0]) + PaidRun(c, Next(c, g, acts[0]), acts[1..])
  }

  lemma PaymentEngine(c: Codec, g: Gateway, req: Request, env: Surroundings)
    ensures var (e, resp) := ProcessPayment(c, g, req, env);
            if ScreenedBy(g, Payment(req, env)) == [] then
              e.engine == g.engine && (g.screening && !Cached(g, req) ==> !resp.Approved?)
            else
              var (n, d) := Fraud.ScreenWith(true, g.engine, ScreenedBy(g, Payment(req, env))[0].req);
              e.engine == n && (resp.Approved? ==> d.Approved?)
  {
  }

  lemma NextEngine(c: Codec, g: Gateway, a: Action)
    ensures Next(c, g, a).engine == Fraud.Run(true, g.engine, ScreenedBy(g, a))
  {
    if a.Payment? { PaymentEngine(c, g, a.req, a.env); }
  }

  lemma {:induction false} RunSplit(e: Fraud.Engine, cs: seq<Fraud.Command>, ds: seq<Fraud.Command>)
    ensures Fraud.Run(true, e, cs + ds) == Fraud.Run(true, Fraud.Run(true, e, cs), ds)
    decreases |cs|
  {
    if cs == [] {
      assert cs + ds == ds;
    } else {
      assert (cs + ds)[1..] == cs[1..] + ds;
      RunSplit(Fraud.Step(true, e, cs[0]).0, cs[1..], ds);
    }
  }

  /** Over every run of the gateway the engine has seen exactly the payments that were to be screened, in order. */
  lemma {:induction false} EngineOfRun(c: Codec, g: Gateway, acts: seq<Action>)
    ensures RunFrom(c, g, acts).engine == Fraud.Run(true, g.engine, ScreenedRun(c, g, acts))
    decreases |acts|
  {
    if acts != [] {
      NextEngine(c, g, acts[0]);
      EngineOfRun(c, Next(c, g, acts[0]), acts[1..]);
      RunSplit(g.engine, ScreenedBy(g, acts[0]), ScreenedRun(c, Next(c, g, acts[0]), acts[1..]));
    }
  }

  /** Everything the engine approves along these commands, on top of what is in the graph. */
  ghost function Approvals(g: Fraud.Graph, e: Fraud.Engine, cs: seq<Fraud.Command>): Fraud.Graph {
    FraudRings.ApprovedGraph(g, cs, Fraud.Decisions(true, e, cs))
  }

  lemma {:induction false} ApprovalsGrow(g: Fraud.Graph, cs: seq<Fraud.Command>, ds: seq<Option<Fraud.Decision>>,
                                         x: Fraud.Event)
    requires |cs| == |ds| && FraudRings.Recorded(g, x)
    ensures FraudRings.Recorded(FraudRings.ApprovedGraph(g, cs, ds), x)
    decreases |cs|
  {
    if cs != [] {
      var h := if cs[0].Screen? && ds[0].Some? && ds[0].value.Approved?
      then FraudRings.Added(g, Fraud.Event(cs[0].req.from, cs[0].req.to, cs[0].req.now)) else g;
      ApprovalsGrow(h, cs[1..], ds[1..], x);
    }
  }

  lemma ApprovalsHead(g: Fraud.Graph, e: Fraud.Engine, req: Fraud.Request, cs: seq<Fraud.Command>)
    returns (h: Fraud.Graph)
    ensures Approvals(g, e, [Fraud.Screen(req)] + cs) == Approvals(h, Fraud.ScreenWith(true, e, req).0, cs)
    ensures Fraud.ScreenWith(true, e, req).1.Approved? ==>
              h == FraudRings.Added(g, Fraud.Event(req.from, req.to, req.now))
  {
    var all := [Fraud.Screen(req)] + cs;
    h := if Fraud.ScreenWith(true, e, req).1.Approved?
    then FraudRings.Added(g, Fraud.Event(req.from, req.to, req.now)) else g;
    assert all[1..] == cs;
    assert Fraud.Decisions(true, e, all)[1..] == Fraud.Decisions(true, Fraud.ScreenWith(true, e, req).0, cs);
  }

  /** One step, with the graph that the rest of the run builds on. */
  lemma FirstPaid(c: Codec, g: Gateway, acts: seq<Action>, was: Fraud.Graph)
    returns (next: Gateway, now: Fraud.Graph)
    requires acts != []
    ensures next == Next(c, g, acts[0])
    ensures Approvals(was, g.engine, ScreenedRun(c, g, acts))
            == Approvals(now, next.engine, ScreenedRun(c, next, acts[1..]))
    ensures forall x :: x in PaidBy(c, g, acts[0]) ==> FraudRings.Recorded(now, x)
  {
    var a := acts[0];
    next := Next(c, g, a);
    var asked, rest := ScreenedBy(g, a), ScreenedRun(c, next, acts[1..]);
    NextEngine(c, g, a);
    if a.Payment? { PaymentEngine(c, g, a.req, a.env); }
    if asked == [] {
      now := was;
      assert [] + rest == rest;
    } else {
      now := ApprovalsHead(was, g.engine, asked[0].req, rest);
      assert asked == [Fraud.Screen(asked[0].req)];
    }
  }

  /** Every payment made with screening on is among the engine's approvals. */
  lemma {:induction false} PaidIsApproved(c: Codec, g: Gateway, acts: seq<Action>, was: Fraud.Graph, x: Fraud.Event)
    requires x in PaidRun(c, g, acts)
    ensures FraudRings.Recorded(Approvals(was, g.engine, ScreenedRun(c, g, acts)), x)
    decreases |acts|
  {
    var next, now := FirstPaid(c, g, acts, was);
    if x in PaidBy(c, g, acts[0]) {
      var rest := ScreenedRun(c, next, acts[1..]);
      ApprovalsGrow(now, rest, Fraud.Decisions(true, next.engine, rest), x);
    } else {
      PaidIsApproved(c, next, acts[1..], now, x);
    }
  }

  /** Payments name their merchant. */
  ghost predicate MerchantsNamed(acts: seq<Action>) {
    forall i :: 0 <= i < |acts| && acts[i].Payment? ==> acts[i].req.merchantId != ""
  }

  lemma {:induction false} ScreeningsNamed(c: Codec, g: Gateway, acts: seq<Action>)
    requires MerchantsNamed(acts)
    ensures FraudRings.NamedScreenings(ScreenedRun(c, g, acts))
    decreases |acts|
  {
    if acts != [] { ScreeningsNamed(c, Next(c, g, acts[0]), acts[1..]); }
  }

  ghost predicate NoRingAmong(evs: seq<Fraud.Event>) {
    && (forall a, b :: a in evs && b in evs ==> !FraudRings.Ring2(a, b))
    && (forall a, b, d :: a in evs && b in evs && d in evs ==> !FraudRings.Ring3(a, b, d))
  }

  /** Over every run of the gateway whose screenings reach the engine on time, the payments approved online with
      screening on contain no ring of two or three accounts within one window: such money is never paid out. */
  lemma NoRingPaid(c: Codec, g: Gateway, acts: seq<Action>)
    requires FraudRings.RingFree(g.engine.transfers) && MerchantsNamed(acts)
    requires FraudPruning.Punctual(g.engine, ScreenedRun(c, g, acts))
    ensures NoRingAmong(PaidRun(c, g, acts))
  {
    var cs := ScreenedRun(c, g, acts);
    ScreeningsNamed(c, g, acts);
    FraudRings.ApprovalsRingFree(g.engine, cs);
    forall x | x in PaidRun(c, g, acts) ensures FraudRings.Recorded(FraudRings.ApprovedBy(g.engine, cs), x) {
      PaidIsApproved(c, g, acts, g.engine.transfers, x);
    }
  }
}
