/** Sliding-window screening of transfers: the engine's state and decisions as values. */
module FraudModel {
  import opened Sums

  /** Nanoseconds, as in the source's durations. */
  const WINDOW := 60_000_000_000
  const PRUNE_EVERY := 30_000_000_000

  datatype Event = Event(from: string, to: string, time: int)

  type Graph = map<string, seq<Event>>
  type Sightings = map<string, map<string, int>>

  datatype Engine = Engine(transfers: Graph, devices: Sightings, lastPrune: int, warn: int, reject: int)

  datatype Request = Request(from: string, to: string, device: string, amount: int, now: int)

  /** Scores in hundredths. */
  datatype Decision = Approved(score: nat) | MuleRing | TooRisky(score: nat)

  datatype Command =
    | Screen(req: Request)
    | ClearAccountHistory(account: string)
    | Reset(now: int)
    | SetVelocityThresholds(warn: int, reject: int)

  /** The events strictly after the cutoff, in order. */
  function Recent(evs: seq<Event>, cutoff: int): seq<Event> {
    if evs == [] then []
    else Recent(evs[..|evs| - 1], cutoff) + (if evs[|evs| - 1].time > cutoff then [evs[|evs| - 1]] else [])
  }

  /** Exactly the events after the cutoff survive. */
  lemma {:induction false} InRecent(evs: seq<Event>, cutoff: int, e: Event)
    ensures e in Recent(evs, cutoff) <==> e in evs && e.time > cutoff
    decreases |evs|
  {
    if evs != [] {
      var init, last := evs[..|evs| - 1], evs[|evs| - 1];
      InRecent(init, cutoff, e);
      assert evs == init + [last];
    }
  }

  function Out(g: Graph, account: string): seq<Event> {
    if account in g then g[account] else []
  }

  function RecentOut(g: Graph, account: string, now: int): seq<Event> {
    Recent(Out(g, account), now - WINDOW)
  }

  function Seen(d: Sightings, account: string): map<string, int> {
    if account in d then d[account] else map[]
  }

  function RecentSeen(d: Sightings, account: string, now: int): map<string, int> {
    map x | x in Seen(d, account) && Seen(d, account)[x] > now - WINDOW :: Seen(d, account)[x]
  }

  /** Within the window, `to` has paid `from` back directly or through one intermediary. */
  predicate Returns(g: Graph, from: string, to: string, now: int) {
    exists i :: 0 <= i < |RecentOut(g, to, now)| && LeadsBack(g, RecentOut(g, to, now)[i].to, from, now)
  }

  /** The engine's check, which skips transfers without a receiver and to oneself. */
  predicate ClosesRing(g: Graph, from: string, to: string, now: int) {
    to != "" && from != to && Returns(g, from, to, now)
  }

  predicate LeadsBack(g: Graph, hop: string, from: string, now: int) {
    hop == from || exists j :: 0 <= j < |RecentOut(g, hop, now)| && RecentOut(g, hop, now)[j].to == from
  }

  function Score(warn: int, reject: int, velocity: nat, devices: nat, amount: int): nat {
    var base := 5
      + (if reject > 0 && velocity >= reject then 80
         else if warn > 0 && velocity >= warn then 50
         else if warn > 1 && velocity >= warn / 2 then 20
         else 0)
      + (if devices >= 3 then 35 else 0)
      + (if amount > 500000 then 15 else 0);
    if base > 100 then 100 else base
  }

  /** When the score alone refuses a transfer: at the reject velocity; at the warning velocity with three devices; or at
      half the warning velocity with three devices and a large amount. The amount alone never does. */
  lemma RiskyExactly(warn: int, reject: int, velocity: nat, devices: nat, amount: int)
    ensures Score(warn, reject, velocity, devices, amount) >= 75 <==>
      || (reject > 0 && velocity >= reject)
      || (warn > 0 && velocity >= warn && devices >= 3)
      || (warn > 1 && velocity >= warn / 2 && devices >= 3 && amount > 500000)
  {
  }

  /** Every score that is reported, and exactly for which transfers. */
  lemma ScoreTable(warn: int, reject: int, velocity: nat, devices: nat, amount: int)
    ensures var score := Score(warn, reject, velocity, devices, amount);
            var rejecting := reject > 0 && velocity >= reject;
            var warning := !rejecting && warn > 0 && velocity >= warn;
            var rising := !rejecting && !warning && warn > 1 && velocity >= warn / 2;
            var calm := !rejecting && !warning && !rising;
            var many, large := devices >= 3, amount > 500000;
            && (score == 100 <==> (rejecting && (many || large)) || (warning && many && large))
            && (score == 90 <==> warning && many && !large)
            && (score == 85 <==> rejecting && !many && !large)
            && (score == 75 <==> rising && many && large)
            && (score == 70 <==> warning && !many && large)
            && (score == 60 <==> rising && many && !large)
            && (score == 55 <==> (warning && !many && !large) || (calm && many && large))
            && (score == 40 <==> (rising && !many && large) || (calm && many && !large))
            && (score == 25 <==> rising && !many && !large)
            && (score == 20 <==> calm && !many && large)
            && (score == 5 <==> calm && !many && !large)
  {
  }

  function Decide(e: Engine, req: Request): Decision {
    if ClosesRing(e.transfers, req.from, req.to, req.now) then MuleRing
    else
      var score := Score(e.warn, e.reject, |RecentOut(e.transfers, req.from, req.now)|,
                         |RecentSeen(e.devices, req.from, req.now).Keys|, req.amount);
      if score >= 75 then TooRisky(score) else Approved(score)
  }

  function Record(e: Engine, req: Request): Engine {
    e.(transfers := e.transfers[req.from := Out(e.transfers, req.from) + [Event(req.from, req.to, req.now)]],
       devices := if req.device == "" then e.devices
                  else e.devices[req.from := Seen(e.devices, req.from)[req.device := req.now]])
  }

  /** Drops expired transfers and sightings, and accounts left with none. A sighting exactly at the cutoff stays. */
  function Prune(e: Engine, now: int): Engine {
    e.(transfers := map a | a in e.transfers && RecentOut(e.transfers, a, now) != [] :: RecentOut(e.transfers, a, now),
       devices := map a | a in e.devices && KeptSeen(e.devices, a, now) != map[] :: KeptSeen(e.devices, a, now))
  }

  function KeptSeen(d: Sightings, account: string, now: int): map<string, int> {
    map x | x in Seen(d, account) && Seen(d, account)[x] >= now - WINDOW :: Seen(d, account)[x]
  }

  /** The engine as it stands when it looks at a request: pruned if the last pruning is too long ago. */
  function Refreshed(prunes: bool, e: Engine, now: int): Engine {
    if prunes && now - e.lastPrune > PRUNE_EVERY then Prune(e, now).(lastPrune := now) else e
  }

  function ScreenWith(prunes: bool, e: Engine, req: Request): (Engine, Decision) {
    var r := Refreshed(prunes, e, req.now);
    var d := Decide(r, req);
    (if d.Approved? then Record(r, req) else r, d)
  }

  /** One command; with `prunes` false this is an engine that keeps all history. */
  function Step(prunes: bool, e: Engine, c: Command): (Engine, Option<Decision>) {
    match c
    case Screen(req) => var (n, d) := ScreenWith(prunes, e, req); (n, Some(d))
    case ClearAccountHistory(a) => (e.(transfers := e.transfers - {a}, devices := e.devices - {a}), None)
    case Reset(now) => (e.(transfers := map[], devices := map[], lastPrune := now), None)
    case SetVelocityThresholds(w, r) => (e.(warn := w, reject := r), None)
  }

  function Run(prunes: bool, e: Engine, cs: seq<Command>): Engine
    decreases |cs|
  {
    if cs == [] then e else Run(prunes, Step(prunes, e, cs[0]).0, cs[1..])
  }

  function Decisions(prunes: bool, e: Engine, cs: seq<Command>): (ds: seq<Option<Decision>>)
    ensures |ds| == |cs|
    decreases |cs|
  {
    if cs == [] then [] else [Step(prunes, e, cs[0]).1] + Decisions(prunes, Step(prunes, e, cs[0]).0, cs[1..])
  }

  /** Screening times never run backwards. */
  ghost predicate Forward(cs: seq<Command>, clock: int)
    decreases |cs|
  {
    cs == [] || (TimeOf(cs[0], clock) >= clock && Forward(cs[1..], TimeOf(cs[0], clock)))
  }

  function TimeOf(c: Command, clock: int): int {
    match c
    case Screen(req) => req.now
    case Reset(now) => now
    case _ => clock
  }
}
