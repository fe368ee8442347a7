/** No ring of two or three distinct accounts is ever recorded within one window. */
module FraudRings {
  import opened Sums
  import opened FraudModel
  import opened FraudPruning

  ghost predicate Recorded(g: Graph, e: Event) {
    e.from in g && e in g[e.from]
  }

  /** Both times lie within one window of the later one. */
  predicate Close(a: Event, b: Event) {
    a.time > b.time - WINDOW && b.time > a.time - WINDOW
  }

  predicate Ring2(a: Event, b: Event) {
    a.from != b.from && a.to == b.from && b.to == a.from && Close(a, b)
  }

  predicate Ring3(a: Event, b: Event, c: Event) {
    && a.from != b.from && b.from != c.from && c.from != a.from
    && a.to == b.from && b.to == c.from && c.to == a.from
    && Close(a, b) && Close(b, c) && Close(c, a)
  }

  ghost predicate RingFree(g: Graph) {
    && (forall a, b :: Recorded(g, a) && Recorded(g, b) ==> !Ring2(a, b))
    && (forall a, b, c :: Recorded(g, a) && Recorded(g, b) && Recorded(g, c) ==> !Ring3(a, b, c))
  }

  ghost predicate Includes(g: Graph, h: Graph) {
    forall e :: Recorded(h, e) ==> Recorded(g, e)
  }

  /** Events sit under their sender and are not from the future. */
  ghost predicate Tidy(g: Graph, clock: int) {
    forall a, i :: a in g && 0 <= i < |g[a]| ==> g[a][i].from == a && g[a][i].time <= clock
  }

  lemma SubgraphRingFree(g: Graph, h: Graph)
    requires RingFree(g) && Includes(g, h)
    ensures RingFree(h)
  {
  }

  /** A recorded event within the window that comes back to `from`, directly or through one more such event,
      makes the new transfer close a ring. */
  lemma DirectRingSeen(g: Graph, from: string, to: string, now: int, b: Event)
    requires Recorded(g, b) && b.from == to && b.to == from && b.time > now - WINDOW
    ensures Returns(g, from, to, now)
  {
    InRecent(Out(g, to), now - WINDOW, b);
    var i :| 0 <= i < |RecentOut(g, to, now)| && RecentOut(g, to, now)[i] == b;
    assert LeadsBack(g, RecentOut(g, to, now)[i].to, from, now);
  }

  lemma IndirectRingSeen(g: Graph, from: string, to: string, now: int, b: Event, c: Event)
    requires Recorded(g, b) && b.from == to && b.time > now - WINDOW
    requires Recorded(g, c) && c.from == b.to && c.to == from && c.time > now - WINDOW
    ensures Returns(g, from, to, now)
  {
    InRecent(Out(g, to), now - WINDOW, b);
    InRecent(Out(g, b.to), now - WINDOW, c);
    var i :| 0 <= i < |RecentOut(g, to, now)| && RecentOut(g, to, now)[i] == b;
    var j :| 0 <= j < |RecentOut(g, b.to, now)| && RecentOut(g, b.to, now)[j] == c;
    assert LeadsBack(g, RecentOut(g, to, now)[i].to, from, now);
  }

  ghost function Added(g: Graph, e: Event): Graph {
    g[e.from := Out(g, e.from) + [e]]
  }

  lemma AddedRecords(g: Graph, e: Event, x: Event)
    ensures Recorded(Added(g, e), x) <==> Recorded(g, x) || x == e
  {
  }

  /** A ring that uses the new edge as its first edge would have been seen. */
  lemma NewEdgeRing2(g: Graph, e: Event, b: Event)
    requires Recorded(g, b) && !Returns(g, e.from, e.to, e.time)
    ensures !Ring2(e, b)
  {
    if Ring2(e, b) { DirectRingSeen(g, e.from, e.to, e.time, b); }
  }

  lemma NewEdgeRing3(g: Graph, e: Event, b: Event, c: Event)
    requires Recorded(g, b) && Recorded(g, c) && !Returns(g, e.from, e.to, e.time)
    ensures !Ring3(e, b, c)
  {
    if Ring3(e, b, c) { IndirectRingSeen(g, e.from, e.to, e.time, b, c); }
  }

  /** A transfer to oneself is part of no ring of distinct accounts. */
  lemma SelfTransferHarmless(g: Graph, e: Event)
    requires RingFree(g) && e.from == e.to
    ensures RingFree(Added(g, e))
  {
    forall x | Recorded(Added(g, e), x) && !Recorded(g, x) ensures x == e { AddedRecords(g, e, x); }
  }

  /** Adding an edge without a way back within the window keeps the graph ring-free. */
  lemma AddKeepsRingFree(g: Graph, e: Event)
    requires RingFree(g) && !Returns(g, e.from, e.to, e.time)
    ensures RingFree(Added(g, e))
  {
    var h := Added(g, e);
    forall a, b | Recorded(h, a) && Recorded(h, b) ensures !Ring2(a, b) {
      AddedKinds2(g, e, a, b);
    }
    forall a, b, c | Recorded(h, a) && Recorded(h, b) && Recorded(h, c) ensures !Ring3(a, b, c) {
      AddedKinds3(g, e, a, b, c);
    }
  }

  lemma AddedKinds2(g: Graph, e: Event, a: Event, b: Event)
    requires RingFree(g) && !Returns(g, e.from, e.to, e.time)
    requires Recorded(Added(g, e), a) && Recorded(Added(g, e), b)
    ensures !Ring2(a, b)
  {
    AddedRecords(g, e, a);
    AddedRecords(g, e, b);
    if Ring2(a, b) && Recorded(g, b) && !Recorded(g, a) {
      NewEdgeRing2(g, e, b);
    } else if Ring2(a, b) && Recorded(g, a) && !Recorded(g, b) {
      NewEdgeRing2(g, e, a);
    }
  }

  lemma AddedKinds3(g: Graph, e: Event, a: Event, b: Event, c: Event)
    requires RingFree(g) && !Returns(g, e.from, e.to, e.time)
    requires Recorded(Added(g, e), a) && Recorded(Added(g, e), b) && Recorded(Added(g, e), c)
    ensures !Ring3(a, b, c)
  {
    if Ring3(a, b, c) {
      AddedRecords(g, e, a);
      AddedRecords(g, e, b);
      AddedRecords(g, e, c);
      if !Recorded(g, a) {
        NewEdgeRing3(g, e, b, c);
      } else if !Recorded(g, b) {
        NewEdgeRing3(g, e, c, a);
      } else if !Recorded(g, c) {
        NewEdgeRing3(g, e, a, b);
      }
    }
  }

  /** A way back makes the new edge part of a ring of two or three distinct accounts. */
  lemma ReturnMakesRing(g: Graph, e: Event, clock: int)
    requires Tidy(g, clock) && clock <= e.time && e.from != e.to && Returns(g, e.from, e.to, e.time)
    ensures !RingFree(Added(g, e))
  {
    var recent := RecentOut(g, e.to, e.time);
    var i :| 0 <= i < |recent| && LeadsBack(g, recent[i].to, e.from, e.time);
    var b := recent[i];
    WindowRecorded(g, clock, e.to, e.time, b);
    AddedRecords(g, e, e);
    AddedRecords(g, e, b);
    if b.to == e.from {
      assert Ring2(e, b);
    } else {
      var back := RecentOut(g, b.to, e.time);
      var j :| 0 <= j < |back| && back[j].to == e.from;
      var d := back[j];
      WindowRecorded(g, clock, b.to, e.time, d);
      AddedRecords(g, e, d);
      if b.to == e.to { assert Ring2(e, d); } else { assert Ring3(e, b, d); }
    }
  }

  lemma WindowRecorded(g: Graph, clock: int, account: string, now: int, b: Event)
    requires Tidy(g, clock) && clock <= now && b in RecentOut(g, account, now)
    ensures Recorded(g, b) && b.from == account && now - WINDOW < b.time <= now
  {
    InRecent(Out(g, account), now - WINDOW, b);
    var i :| 0 <= i < |Out(g, account)| && Out(g, account)[i] == b;
  }

  /** An approved transfer keeps the recorded graph ring-free exactly when it names a receiver or, naming none, has no
      way back within the window or is a transfer to oneself: the check is skipped for an empty receiver and for
      nothing else that matters. */
  lemma ApprovalRingFreeExactly(g: Graph, from: string, to: string, now: int, clock: int)
    requires RingFree(g) && Tidy(g, clock) && clock <= now && !ClosesRing(g, from, to, now)
    ensures RingFree(Added(g, Event(from, to, now))) <==> (to != "" || from == "" || !Returns(g, from, to, now))
  {
    var e := Event(from, to, now);
    if from == to {
      SelfTransferHarmless(g, e);
    } else if Returns(g, from, to, now) {
      ReturnMakesRing(g, e, clock);
    } else {
      AddKeepsRingFree(g, e);
    }
  }

  /** Screened transfers name their receiver. */
  predicate Named(c: Command) {
    c.Screen? ==> c.req.to != ""
  }

  lemma PruneIncludes(e: Engine, now: int)
    ensures Includes(e.transfers, Prune(e, now).transfers)
  {
    var p: Graph := Prune(e, now).transfers;
    forall x | Recorded(p, x) ensures Recorded(e.transfers, x) {
      InRecent(Out(e.transfers, x.from), now - WINDOW, x);
    }
  }

  lemma StepKeepsRingFree(prunes: bool, e: Engine, c: Command)
    requires RingFree(e.transfers) && Named(c)
    ensures RingFree(Step(prunes, e, c).0.transfers)
  {
    match c
    case Screen(req) =>
      PruneIncludes(e, req.now);
      var r := Refreshed(prunes, e, req.now);
      SubgraphRingFree(e.transfers, r.transfers);
      if Decide(r, req).Approved? {
        var ev := Event(req.from, req.to, req.now);
        if req.from == req.to { SelfTransferHarmless(r.transfers, ev); } else { AddKeepsRingFree(r.transfers, ev); }
      }
    case ClearAccountHistory(a) => SubgraphRingFree(e.transfers, e.transfers - {a});
    case _ =>
  }

  /** The recorded graph never contains a ring of two or three distinct accounts all of whose transfers lie within one
      window of the latest of them, through any run with pruning, clearing, resets and threshold changes, in whatever
      order of time the screenings reach the engine. */
  lemma {:induction false} RunStaysRingFree(prunes: bool, e: Engine, cs: seq<Command>)
    requires RingFree(e.transfers) && forall i :: 0 <= i < |cs| ==> Named(cs[i])
    ensures RingFree(Run(prunes, e, cs).transfers)
    decreases |cs|
  {
    if cs != [] {
      assert Named(cs[0]);
      StepKeepsRingFree(prunes, e, cs[0]);
      RunStaysRingFree(prunes, Step(prunes, e, cs[0]).0, cs[1..]);
    }
  }

  /** Everything the engine has approved along a run. */
  ghost function ApprovedGraph(g: Graph, cs: seq<Command>, ds: seq<Option<Decision>>): Graph
    requires |cs| == |ds|
    decreases |cs|
  {
    if cs == [] then g else
      ApprovedGraph(if cs[0].Screen? && ds[0].Some? && ds[0].value.Approved?
                    then Added(g, Event(cs[0].req.from, cs[0].req.to, cs[0].req.now)) else g, cs[1..], ds[1..])
  }

  predicate Screens(c: Command) {
    c.Screen? || c.SetVelocityThresholds?
  }

  /** Without clearing and resets, the engine that keeps everything holds exactly what was approved. */
  lemma {:induction false} KeeperHoldsApproved(k: Engine, cs: seq<Command>)
    requires forall i :: 0 <= i < |cs| ==> Screens(cs[i])
    ensures Run(false, k, cs).transfers == ApprovedGraph(k.transfers, cs, Decisions(false, k, cs))
    decreases |cs|
  {
    if cs != [] {
      assert Screens(cs[0]);
      KeeperHoldsApproved(Step(false, k, cs[0]).0, cs[1..]);
    }
  }

  /** A run of screenings and threshold changes in which every transfer names its receiver. */
  ghost predicate NamedScreenings(cs: seq<Command>) {
    forall i :: 0 <= i < |cs| ==> Named(cs[i]) && Screens(cs[i])
  }

  /** What the pruning engine has approved over the whole run, forgotten or not. */
  ghost function ApprovedBy(e: Engine, cs: seq<Command>): Graph {
    ApprovedGraph(e.transfers, cs, Decisions(true, e, cs))
  }

  /** Although it forgets, the pruning engine has never approved a ring over its whole history: the approvals of any
      punctual run of screenings contain no ring within one window. */
  lemma ApprovalsRingFree(e: Engine, cs: seq<Command>)
    requires RingFree(e.transfers) && Punctual(e, cs) && NamedScreenings(cs)
    ensures RingFree(ApprovedBy(e, cs))
  {
    assert Same(e, e, e.lastPrune);
    PruningInvisible(e, e, cs);
    KeeperHoldsApproved(e, cs);
    RunStaysRingFree(false, e, cs);
  }

  /** An unnamed receiver escapes the check: two transfers, one to nobody, are both approved and close a ring. */
  lemma UnnamedReceiverClosesRing(a: string, now: int)
    requires a != ""
    ensures var e := Engine(map[], map[], now, 15, 25);
            var cs := [Screen(Request("", a, "", 1, now)), Screen(Request(a, "", "", 1, now))];
            !RingFree(Run(true, e, cs).transfers)
  {
    var e := Engine(map[], map[], now, 15, 25);
    var cs := [Screen(Request("", a, "", 1, now)), Screen(Request(a, "", "", 1, now))];
    var e1 := Step(true, e, cs[0]).0;
    assert Recent([], now - WINDOW) == [];
    assert RecentSeen(map[], "", now) == map[];
    assert e1 == Record(e, cs[0].req);
    var e2 := Step(true, e1, cs[1]).0;
    assert RecentSeen(map[], a, now) == map[];
    assert e2 == Record(e1, cs[1].req);
    assert cs[1..] == [cs[1]] && cs[1..][1..] == [];
    assert Run(true, e1, cs[1..]) == e2;
    var x, y := Event("", a, now), Event(a, "", now);
    assert Recorded(e2.transfers, x) && Recorded(e2.transfers, y);
    assert Ring2(x, y);
  }

  /** The first turn of a run. */
  lemma ApprovedHead(e: Engine, g: Graph, cs: seq<Command>)
    requires cs != [] && cs[0].Screen? && Step(true, e, cs[0]).1 == Some(Approved(5))
    ensures ApprovedGraph(g, cs, Decisions(true, e, cs))
         == ApprovedGraph(Added(g, Event(cs[0].req.from, cs[0].req.to, cs[0].req.now)), cs[1..],
                          Decisions(true, Step(true, e, cs[0]).0, cs[1..]))
  {
    assert Decisions(true, e, cs)[1..] == Decisions(true, Step(true, e, cs[0]).0, cs[1..]);
  }

  /** A sender without recent transfers and devices, and a receiver without recent transfers: approved with the base
      score. */
  lemma QuietApproved(e: Engine, from: string, to: string, now: int)
    requires from !in e.transfers && to !in e.transfers && from !in e.devices && e.warn == 15 && e.reject == 25
    ensures Decide(e, Request(from, to, "", 1, now)) == Approved(5)
  {
    assert Recent([], now - WINDOW) == [];
    assert RecentSeen(e.devices, from, now) == map[];
  }

  const FIRST_ENGINE := Engine(map[], map[], 0, 15, 25)

  /** An engine that holds one transfer and no device. */
  function Holding(ev: Event): Engine {
    FIRST_ENGINE.(transfers := map[ev.from := [ev]])
  }

  lemma FirstApproved(a: string, b: string)
    ensures Step(true, FIRST_ENGINE, Screen(Request(a, b, "", 1, 0))) == (Holding(Event(a, b, 0)), Some(Approved(5)))
  {
    QuietApproved(FIRST_ENGINE, a, b, 0);
    assert Out(FIRST_ENGINE.transfers, a) == [] && [] + [Event(a, b, 0)] == [Event(a, b, 0)];
  }

  lemma WindowForgets(a: string, b: string)
    ensures Refreshed(true, Holding(Event(a, b, 0)), WINDOW) == FIRST_ENGINE.(lastPrune := WINDOW)
  {
    var e1, evs := Holding(Event(a, b, 0)), [Event(a, b, 0)];
    assert evs[..0] == [] && Recent(evs[..0], 0) == [];
    assert RecentOut(e1.transfers, a, WINDOW) == [];
    assert Prune(e1, WINDOW).transfers == map[] && Prune(e1, WINDOW).devices == map[];
  }

  lemma SecondApproved(a: string, b: string, c: string)
    ensures Step(true, Holding(Event(a, b, 0)), Screen(Request(c, c, "", 1, WINDOW)))
         == (Record(FIRST_ENGINE.(lastPrune := WINDOW), Request(c, c, "", 1, WINDOW)), Some(Approved(5)))
  {
    WindowForgets(a, b);
    QuietApproved(FIRST_ENGINE.(lastPrune := WINDOW), c, c, WINDOW);
  }

  /** One nanosecond before the last pruning. */
  const LATE := WINDOW - 1

  lemma LateApproved(a: string, b: string, c: string)
    requires a != c && b != c
    ensures var e2 := Record(FIRST_ENGINE.(lastPrune := WINDOW), Request(c, c, "", 1, WINDOW));
            Step(true, e2, Screen(Request(b, a, "", 1, LATE))).1 == Some(Approved(5))
  {
    var e2 := Record(FIRST_ENGINE.(lastPrune := WINDOW), Request(c, c, "", 1, WINDOW));
    QuietApproved(e2, b, a, LATE);
  }

  function LateRun(a: string, b: string, c: string): seq<Command> {
    [Screen(Request(a, b, "", 1, 0)), Screen(Request(c, c, "", 1, WINDOW)), Screen(Request(b, a, "", 1, LATE))]
  }

  /** A request whose clock was read one nanosecond before a pruning, but which reaches the engine after it, is approved
      although it closes a ring with a transfer just forgotten. */
  lemma LateRequestClosesRing(a: string, b: string, c: string)
    requires a != b && b != c && a != c
    ensures !RingFree(ApprovedBy(FIRST_ENGINE, LateRun(a, b, c)))
  {
    var cs := LateRun(a, b, c);
    assert cs[1..] == [cs[1], cs[2]] && cs[1..][1..] == [cs[2]] && cs[1..][1..][1..] == [];
    var e1 := Holding(Event(a, b, 0));
    var e2 := Record(FIRST_ENGINE.(lastPrune := WINDOW), cs[1].req);
    FirstApproved(a, b);
    SecondApproved(a, b, c);
    LateApproved(a, b, c);
    var x, z := Event(a, b, 0), Event(b, a, LATE);
    var g1 := Added(map[], x);
    var g2 := Added(g1, Event(c, c, WINDOW));
    ApprovedHead(FIRST_ENGINE, map[], cs);
    ApprovedHead(e1, g1, cs[1..]);
    ApprovedHead(e2, g2, cs[1..][1..]);
    assert Recorded(Added(g2, z), x) && Recorded(Added(g2, z), z) && Ring2(x, z);
  }

  /** Every screening is at most `d` nanoseconds earlier than the last pruning of the engine it meets. */
  ghost predicate LateBy(d: nat, e: Engine, cs: seq<Command>)
    decreases |cs|
  {
    cs != [] ==> (cs[0].Screen? ==> cs[0].req.now + d >= e.lastPrune) && LateBy(d, Step(true, e, cs[0]).0, cs[1..])
  }

  lemma {:induction false} NeverLateIsPunctual(e: Engine, cs: seq<Command>)
    ensures LateBy(0, e, cs) <==> Punctual(e, cs)
    decreases |cs|
  {
    if cs != [] { NeverLateIsPunctual(Step(true, e, cs[0]).0, cs[1..]); }
  }

  lemma LateRunLateness(a: string, b: string, c: string, d: nat)
    requires d > 0
    ensures LateBy(d, FIRST_ENGINE, LateRun(a, b, c))
  {
    var cs := LateRun(a, b, c);
    FirstApproved(a, b);
    SecondApproved(a, b, c);
    assert cs[1..] == [cs[1], cs[2]] && cs[1..][1..] == [cs[2]] && cs[1..][1..][1..] == [];
    var e2 := Step(true, Holding(Event(a, b, 0)), cs[1]).0;
    assert LateBy(d, Step(true, e2, cs[2]).0, []);
    assert LateBy(d, e2, cs[1..][1..]);
    assert LateBy(d, Holding(Event(a, b, 0)), cs[1..]);
  }

  /** Over runs whose screenings are late by at most `d`, no ring is ever approved. */
  ghost predicate NoRingApproved(d: nat) {
    forall e: Engine, cs: seq<Command> ::
      RingFree(e.transfers) && NamedScreenings(cs) && LateBy(d, e, cs) ==> RingFree(ApprovedBy(e, cs))
  }

  lemma OneRunBreaks(d: nat, e: Engine, cs: seq<Command>)
    requires RingFree(e.transfers) && NamedScreenings(cs) && LateBy(d, e, cs) && !RingFree(ApprovedBy(e, cs))
    ensures !NoRingApproved(d)
  {
  }

  lemma LateRunNamed(a: string, b: string, c: string)
    requires a != "" && b != "" && c != ""
    ensures NamedScreenings(LateRun(a, b, c)) && RingFree(FIRST_ENGINE.transfers)
  {
  }

  lemma LatenessBreaks(d: nat, a: string, b: string, c: string)
    requires d > 0 && a != "" && b != "" && c != "" && a != b && b != c && a != c
    ensures !NoRingApproved(d)
  {
    LateRunLateness(a, b, c, d);
    LateRequestClosesRing(a, b, c);
    LateRunNamed(a, b, c);
    OneRunBreaks(d, FIRST_ENGINE, LateRun(a, b, c));
  }

  lemma NeverLateRingFree(e: Engine, cs: seq<Command>)
    requires RingFree(e.transfers) && NamedScreenings(cs) && LateBy(0, e, cs)
    ensures RingFree(ApprovedBy(e, cs))
  {
    NeverLateIsPunctual(e, cs);
    ApprovalsRingFree(e, cs);
  }

  /** Exactly how late a screening may be for the whole history of approvals to stay free of rings: not at all. */
  lemma LatenessExactly(d: nat)
    ensures NoRingApproved(d) <==> d == 0
  {
    if d > 0 {
      LatenessBreaks(d, "a", "b", "c");
    } else {
      forall e: Engine, cs: seq<Command> | RingFree(e.transfers) && NamedScreenings(cs) && LateBy(d, e, cs)
        ensures RingFree(ApprovedBy(e, cs))
      {
        NeverLateRingFree(e, cs);
      }
    }
  }
}
