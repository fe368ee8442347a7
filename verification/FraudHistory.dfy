/** The engine against its plainest specification: a list of approved requests, searched from scratch each time. */
module FraudHistory {
  import opened Sums
  import opened FraudModel
  import opened FraudPruning

  /** The requests approved so far, oldest first. */
  type History = seq<Request>

  datatype Oracle = Oracle(past: History, warn: int, reject: int)

  predicate Within(r: Request, now: int) {
    r.now > now - WINDOW
  }

  /** How many approved requests of the account lie within the window. */
  function Velocity(h: History, account: string, now: int): nat {
    if h == [] then 0
    else Velocity(h[..|h| - 1], account, now)
         + (if h[|h| - 1].from == account && Within(h[|h| - 1], now) then 1 else 0)
  }

  /** The devices the account was approved on within the window. */
  function Devices(h: History, account: string, now: int): set<string> {
    set i | 0 <= i < |h| && h[i].from == account && h[i].device != "" && Within(h[i], now) :: h[i].device
  }

  predicate PaidWithin(h: History, from: string, to: string, now: int) {
    exists i :: 0 <= i < |h| && h[i].from == from && h[i].to == to && Within(h[i], now)
  }

  /** The receiver has paid the sender back within the window, directly or through one other account. */
  predicate WayBack(h: History, from: string, to: string, now: int) {
    exists i :: 0 <= i < |h| && h[i].from == to && Within(h[i], now)
                && (h[i].to == from || PaidWithin(h, h[i].to, from, now))
  }

  function Judge(o: Oracle, req: Request): Decision {
    if req.to != "" && req.from != req.to && WayBack(o.past, req.from, req.to, req.now) then MuleRing
    else
      var score := Score(o.warn, o.reject, Velocity(o.past, req.from, req.now), |Devices(o.past, req.from, req.now)|,
                         req.amount);
      if score >= 75 then TooRisky(score) else Approved(score)
  }

  function Forget(h: History, account: string): History {
    if h == [] then [] else Forget(h[..|h| - 1], account) + (if h[|h| - 1].from == account then [] else [h[|h| - 1]])
  }

  function Consult(o: Oracle, c: Command): (Oracle, Option<Decision>) {
    match c
    case Screen(req) => var d := Judge(o, req); (if d.Approved? then o.(past := o.past + [req]) else o, Some(d))
    case ClearAccountHistory(a) => (o.(past := Forget(o.past, a)), None)
    case Reset(_) => (o.(past := []), None)
    case SetVelocityThresholds(w, r) => (o.(warn := w, reject := r), None)
  }

  function Judgements(o: Oracle, cs: seq<Command>): seq<Option<Decision>>
    decreases |cs|
  {
    if cs == [] then [] else [Consult(o, cs[0]).1] + Judgements(Consult(o, cs[0]).0, cs[1..])
  }

  /** The events and last sightings that belong to a history. */
  function EventsOf(h: History, account: string): seq<Event> {
    if h == [] then []
    else EventsOf(h[..|h| - 1], account)
         + (if h[|h| - 1].from == account then [Event(account, h[|h| - 1].to, h[|h| - 1].now)] else [])
  }

  function SightingsOf(h: History, account: string): map<string, int> {
    if h == [] then map[]
    else
      var init, r := SightingsOf(h[..|h| - 1], account), h[|h| - 1];
      if r.from == account && r.device != "" then init[r.device := r.now] else init
  }

  /** Approved in the order of time, none later than the clock. */
  ghost predicate Timely(h: History, clock: int) {
    && (forall i, j :: 0 <= i < j < |h| ==> h[i].now <= h[j].now)
    && (forall i :: 0 <= i < |h| ==> h[i].now <= clock)
  }

  /** An engine that keeps everything holds exactly what the history says. */
  ghost predicate Represents(e: Engine, o: Oracle) {
    && e.warn == o.warn && e.reject == o.reject
    && forall a: string :: Out(e.transfers, a) == EventsOf(o.past, a) && Seen(e.devices, a) == SightingsOf(o.past, a)
  }

  lemma {:induction false} RecentEvents(h: History, account: string, now: int)
    ensures |Recent(EventsOf(h, account), now - WINDOW)| == Velocity(h, account, now)
  {
    if h != [] {
      var init, r := h[..|h| - 1], h[|h| - 1];
      RecentEvents(init, account, now);
      if r.from == account {
        RecentSnoc(EventsOf(init, account), Event(account, r.to, r.now), now - WINDOW);
      } else {
        assert EventsOf(h, account) == EventsOf(init, account);
      }
    }
  }

  lemma {:induction false} EventRecorded(h: History, account: string, e: Event)
    ensures e in EventsOf(h, account)
       <==> e.from == account &&
            exists i :: 0 <= i < |h| && h[i].from == account && h[i].to == e.to && h[i].now == e.time
  {
    if h != [] {
      var init, r := h[..|h| - 1], h[|h| - 1];
      EventRecorded(init, account, e);
      if i :| 0 <= i < |h| && h[i].from == account && h[i].to == e.to && h[i].now == e.time {
        if i < |init| { assert init[i] == h[i]; }
      }
      if i :| 0 <= i < |init| && init[i].from == account && init[i].to == e.to && init[i].now == e.time {
        assert h[i] == init[i];
      }
    }
  }

  /** The last sighting lies within the window exactly when some approved request on the device does: time runs
      forward. */
  lemma {:induction false} SightedWithin(h: History, account: string, now: int, device: string, clock: int)
    requires Timely(h, clock)
    ensures var s := SightingsOf(h, account);
            && (device in s ==> s[device] <= clock)
            && (device in s && s[device] > now - WINDOW <==> device in Devices(h, account, now))
  {
    if h != [] {
      var init, r := h[..|h| - 1], h[|h| - 1];
      SightedWithin(init, account, now, device, r.now);
      DevicesSnoc(init, r, account, now);
      assert h == init + [r];
    }
  }

  lemma DevicesSnoc(h: History, r: Request, account: string, now: int)
    ensures Devices(h + [r], account, now)
         == Devices(h, account, now) + (if r.from == account && r.device != "" && Within(r, now) then {r.device}
                                        else {})
  {
    var all := h + [r];
    forall d | d in Devices(h, account, now) ensures d in Devices(all, account, now) {
      var i :| 0 <= i < |h| && h[i].from == account && h[i].device != "" && Within(h[i], now) && h[i].device == d;
      assert all[i] == h[i];
    }
    if r.from == account && r.device != "" && Within(r, now) { assert all[|h|] == r; }
  }

  lemma SameDevices(e: Engine, o: Oracle, account: string, now: int, clock: int)
    requires Represents(e, o) && Timely(o.past, clock)
    ensures RecentSeen(e.devices, account, now).Keys == Devices(o.past, account, now)
  {
    forall d ensures d in RecentSeen(e.devices, account, now).Keys <==> d in Devices(o.past, account, now) {
      SightedWithin(o.past, account, now, d, clock);
    }
  }

  lemma RecentOutIn(e: Engine, o: Oracle, account: string, to: string, now: int)
    requires Represents(e, o)
    ensures PaidWithin(o.past, account, to, now)
       <==> exists j ::
              0 <= j < |RecentOut(e.transfers, account, now)| && RecentOut(e.transfers, account, now)[j].to == to
  {
    var recent := RecentOut(e.transfers, account, now);
    if i :| 0 <= i < |o.past| && o.past[i].from == account && o.past[i].to == to && Within(o.past[i], now) {
      var x := Event(account, to, o.past[i].now);
      EventRecorded(o.past, account, x);
      InRecent(Out(e.transfers, account), now - WINDOW, x);
      var j :| 0 <= j < |recent| && recent[j] == x;
    }
    if j :| 0 <= j < |recent| && recent[j].to == to {
      InRecent(Out(e.transfers, account), now - WINDOW, recent[j]);
      EventRecorded(o.past, account, recent[j]);
    }
  }

  lemma SameLeadsBack(e: Engine, o: Oracle, hop: string, from: string, now: int)
    requires Represents(e, o)
    ensures LeadsBack(e.transfers, hop, from, now) <==> hop == from || PaidWithin(o.past, hop, from, now)
  {
    RecentOutIn(e, o, hop, from, now);
  }

  lemma SameWayBack(e: Engine, o: Oracle, from: string, to: string, now: int)
    requires Represents(e, o)
    ensures Returns(e.transfers, from, to, now) <==> WayBack(o.past, from, to, now)
  {
    var recent := RecentOut(e.transfers, to, now);
    if i :| 0 <= i < |recent| && LeadsBack(e.transfers, recent[i].to, from, now) {
      InRecent(Out(e.transfers, to), now - WINDOW, recent[i]);
      EventRecorded(o.past, to, recent[i]);
      SameLeadsBack(e, o, recent[i].to, from, now);
    }
    if i :| 0 <= i < |o.past| && o.past[i].from == to && Within(o.past[i], now)
            && (o.past[i].to == from || PaidWithin(o.past, o.past[i].to, from, now)) {
      var x := Event(to, o.past[i].to, o.past[i].now);
      EventRecorded(o.past, to, x);
      InRecent(Out(e.transfers, to), now - WINDOW, x);
      SameLeadsBack(e, o, x.to, from, now);
      var j :| 0 <= j < |recent| && recent[j] == x;
    }
  }

  lemma SameJudgement(e: Engine, o: Oracle, req: Request, clock: int)
    requires Represents(e, o) && Timely(o.past, clock)
    ensures Decide(e, req) == Judge(o, req)
  {
    SameWayBack(e, o, req.from, req.to, req.now);
    RecentEvents(o.past, req.from, req.now);
    SameDevices(e, o, req.from, req.now, clock);
    assert Out(e.transfers, req.from) == EventsOf(o.past, req.from);
  }

  lemma RecordRepresents(e: Engine, o: Oracle, req: Request)
    requires Represents(e, o)
    ensures Represents(Record(e, req), o.(past := o.past + [req]))
  {
    var h := o.past + [req];
    assert h[..|h| - 1] == o.past;
    forall a: string
      ensures Out(Record(e, req).transfers, a) == EventsOf(h, a) && Seen(Record(e, req).devices, a) == SightingsOf(h, a)
    {
      assert Out(e.transfers, a) == EventsOf(o.past, a) && Seen(e.devices, a) == SightingsOf(o.past, a);
    }
  }

  lemma {:induction false} ForgetEvents(h: History, account: string, a: string)
    ensures EventsOf(Forget(h, account), a) == (if a == account then [] else EventsOf(h, a))
    ensures SightingsOf(Forget(h, account), a) == (if a == account then map[] else SightingsOf(h, a))
  {
    if h != [] {
      var init, r := h[..|h| - 1], h[|h| - 1];
      ForgetEvents(init, account, a);
      if r.from != account {
        assert (Forget(init, account) + [r])[..|Forget(init, account)|] == Forget(init, account);
      } else {
        assert Forget(h, account) == Forget(init, account);
      }
    }
  }

  lemma {:induction false} ForgetTimely(h: History, account: string, clock: int)
    requires Timely(h, clock)
    ensures Timely(Forget(h, account), clock)
  {
    if h != [] {
      var init, r := h[..|h| - 1], h[|h| - 1];
      ForgetTimely(init, account, r.now);
    }
  }

  lemma ClearRepresents(e: Engine, o: Oracle, account: string)
    requires Represents(e, o)
    ensures Represents(Step(false, e, ClearAccountHistory(account)).0, o.(past := Forget(o.past, account)))
  {
    var n := Step(false, e, ClearAccountHistory(account)).0;
    forall a: string
      ensures Out(n.transfers, a) == EventsOf(Forget(o.past, account), a)
      ensures Seen(n.devices, a) == SightingsOf(Forget(o.past, account), a)
    {
      assert Out(e.transfers, a) == EventsOf(o.past, a) && Seen(e.devices, a) == SightingsOf(o.past, a);
      ForgetEvents(o.past, account, a);
    }
  }

  lemma StepRepresents(e: Engine, o: Oracle, c: Command, clock: int)
    requires Represents(e, o) && Timely(o.past, clock) && TimeOf(c, clock) >= clock
    ensures Step(false, e, c).1 == Consult(o, c).1
    ensures Represents(Step(false, e, c).0, Consult(o, c).0) && Timely(Consult(o, c).0.past, TimeOf(c, clock))
  {
    match c
    case Screen(req) =>
      SameJudgement(e, o, req, clock);
      RecordRepresents(e, o, req);
    case ClearAccountHistory(a) =>
      ClearRepresents(e, o, a);
      ForgetTimely(o.past, a, clock);
    case Reset(_) =>
    case SetVelocityThresholds(_, _) =>
  }

  lemma {:induction false} KeeperRefines(e: Engine, o: Oracle, cs: seq<Command>, clock: int)
    requires Represents(e, o) && Timely(o.past, clock) && Forward(cs, clock)
    ensures Decisions(false, e, cs) == Judgements(o, cs)
    decreases |cs|
  {
    if cs != [] {
      StepRepresents(e, o, cs[0], clock);
      KeeperRefines(Step(false, e, cs[0]).0, Consult(o, cs[0]).0, cs[1..], TimeOf(cs[0], clock));
    }
  }

  /** From a new engine on, with forward time, the engine with its maps, last-seen times, in-place compaction and
      periodic pruning decides every request of every run exactly as a search through the whole list of approved
      requests would. */
  lemma EngineRefinesHistory(now: int, cs: seq<Command>)
    requires Forward(cs, now)
    ensures Decisions(true, Engine(map[], map[], now, 15, 25), cs) == Judgements(Oracle([], 15, 25), cs)
  {
    var e := Engine(map[], map[], now, 15, 25);
    assert Same(e, e, now);
    ForwardPunctual(e, cs, now);
    PruningInvisible(e, e, cs);
    KeeperRefines(e, Oracle([], 15, 25), cs, now);
  }
}
