/** Pruning is invisible: the pruning engine answers every request like one that keeps all history. */
module FraudPruning {
  import opened FraudModel

  ghost predicate SameAt(e: Engine, k: Engine, now: int, account: string) {
    && RecentOut(e.transfers, account, now) == RecentOut(k.transfers, account, now)
    && RecentSeen(e.devices, account, now) == RecentSeen(k.devices, account, now)
  }

  /** Equal in everything a request at `now` or later can see. */
  ghost predicate Same(e: Engine, k: Engine, now: int) {
    && e.warn == k.warn && e.reject == k.reject
    && forall a: string :: SameAt(e, k, now, a)
  }

  lemma RecentSnoc(evs: seq<Event>, e: Event, cutoff: int)
    ensures Recent(evs + [e], cutoff) == Recent(evs, cutoff) + (if e.time > cutoff then [e] else [])
  {
    assert (evs + [e])[..|evs|] == evs;
  }

  lemma {:induction false} RecentTwice(evs: seq<Event>, c1: int, c2: int)
    requires c1 <= c2
    ensures Recent(Recent(evs, c1), c2) == Recent(evs, c2)
    decreases |evs|
  {
    if evs != [] {
      var init, last := evs[..|evs| - 1], evs[|evs| - 1];
      RecentTwice(init, c1, c2);
      if last.time > c1 {
        RecentSnoc(Recent(init, c1), last, c2);
      } else {
        assert Recent(evs, c1) == Recent(init, c1);
      }
    }
  }

  lemma SameAtLater(e: Engine, k: Engine, now: int, later: int, a: string)
    requires SameAt(e, k, now, a) && now <= later
    ensures SameAt(e, k, later, a)
  {
    RecentTwice(Out(e.transfers, a), now - WINDOW, later - WINDOW);
    RecentTwice(Out(k.transfers, a), now - WINDOW, later - WINDOW);
    LaterSeen(e.devices, a, now, later);
    LaterSeen(k.devices, a, now, later);
  }

  /** What agrees at one time agrees at every later time. */
  lemma SameLater(e: Engine, k: Engine, now: int, later: int)
    requires Same(e, k, now) && now <= later
    ensures Same(e, k, later)
  {
    forall a: string ensures SameAt(e, k, later, a) {
      assert SameAt(e, k, now, a);
      SameAtLater(e, k, now, later, a);
    }
  }

  ghost function Narrow(m: map<string, int>, now: int): map<string, int> {
    map x | x in m && m[x] > now - WINDOW :: m[x]
  }

  lemma LaterSeen(d: Sightings, a: string, now: int, later: int)
    requires now <= later
    ensures RecentSeen(d, a, later) == Narrow(RecentSeen(d, a, now), later)
  {
  }

  /** Pruning changes nothing that is still within the window. */
  lemma PruneKeepsRecent(e: Engine, now: int, a: string)
    ensures SameAt(Prune(e, now), e, now, a)
  {
    RecentTwice(Out(e.transfers, a), now - WINDOW, now - WINDOW);
    var p := Prune(e, now);
    assert RecentOut(p.transfers, a, now) == RecentOut(e.transfers, a, now) by {
      if a in e.transfers && RecentOut(e.transfers, a, now) != [] {
        assert Out(p.transfers, a) == RecentOut(e.transfers, a, now);
      } else {
        assert Out(p.transfers, a) == [];
      }
    }
    assert RecentSeen(p.devices, a, now) == RecentSeen(e.devices, a, now) by {
      if a in e.devices && KeptSeen(e.devices, a, now) != map[] {
        assert Seen(p.devices, a) == KeptSeen(e.devices, a, now);
      } else {
        assert Seen(p.devices, a) == map[];
        assert KeptSeen(e.devices, a, now) == map[];
        forall x | x in RecentSeen(e.devices, a, now) ensures x in KeptSeen(e.devices, a, now) {}
        assert RecentSeen(e.devices, a, now) == map[];
      }
    }
  }

  /** What a pruning keeps: transfers less than 60 seconds old, and sightings at most 60 seconds old. */
  lemma PruneExactly(e: Engine, now: int, account: string, ev: Event, device: string)
    ensures var p, cutoff := Prune(e, now), now - 60_000_000_000;
            && (account in p.transfers && ev in p.transfers[account] <==>
                  account in e.transfers && ev in e.transfers[account] && ev.time > cutoff)
            && (account in p.devices && device in p.devices[account] <==>
                  account in e.devices && device in e.devices[account] && e.devices[account][device] >= cutoff)
  {
    InRecent(Out(e.transfers, account), now - WINDOW, ev);
    if account in e.devices && KeptSeen(e.devices, account, now) == map[] {
      assert device !in KeptSeen(e.devices, account, now);
    }
  }

  lemma RefreshKeepsSame(e: Engine, k: Engine, now: int)
    requires Same(e, k, now)
    ensures Same(Refreshed(true, e, now), k, now)
  {
    forall a: string ensures SameAt(Refreshed(true, e, now), k, now, a) {
      assert SameAt(e, k, now, a);
      PruneKeepsRecent(e, now, a);
    }
  }

  lemma SameDecision(e: Engine, k: Engine, req: Request)
    requires Same(e, k, req.now)
    ensures Decide(e, req) == Decide(k, req)
  {
    SameRing(e, k, req.from, req.to, req.now);
    assert SameAt(e, k, req.now, req.from);
  }

  lemma SameRing(e: Engine, k: Engine, from: string, to: string, now: int)
    requires Same(e, k, now)
    ensures ClosesRing(e.transfers, from, to, now) == ClosesRing(k.transfers, from, to, now)
  {
    assert SameAt(e, k, now, to);
    forall hop: string ensures LeadsBack(e.transfers, hop, from, now) == LeadsBack(k.transfers, hop, from, now) {
      assert SameAt(e, k, now, hop);
    }
  }

  /** Recording one request in both keeps them alike, also as seen from an earlier time. */
  lemma RecordKeepsSame(e: Engine, k: Engine, req: Request, t: int)
    requires Same(e, k, t) && t <= req.now
    ensures Same(Record(e, req), Record(k, req), t)
  {
    forall a: string ensures SameAt(Record(e, req), Record(k, req), t, a) {
      assert SameAt(e, k, t, a);
      RecordedOut(e, req, a, t);
      RecordedOut(k, req, a, t);
      if a == req.from {
        RecordedSeen(e, req, t);
        RecordedSeen(k, req, t);
      } else {
        assert Seen(Record(e, req).devices, a) == Seen(e.devices, a);
        assert Seen(Record(k, req).devices, a) == Seen(k.devices, a);
      }
    }
  }

  lemma RecordedOut(e: Engine, req: Request, a: string, t: int)
    requires t <= req.now
    ensures RecentOut(Record(e, req).transfers, a, t)
         == RecentOut(e.transfers, a, t) + (if a == req.from then [Event(req.from, req.to, req.now)] else [])
  {
    if a == req.from { RecentSnoc(Out(e.transfers, a), Event(req.from, req.to, req.now), t - WINDOW); }
  }

  lemma RecordedSeen(e: Engine, req: Request, t: int)
    requires t <= req.now
    ensures RecentSeen(Record(e, req).devices, req.from, t)
         == (if req.device == "" then RecentSeen(e.devices, req.from, t)
             else RecentSeen(e.devices, req.from, t)[req.device := req.now])
  {
  }

  lemma ClearKeepsSame(e: Engine, k: Engine, now: int, account: string)
    requires Same(e, k, now)
    ensures Same(Step(true, e, ClearAccountHistory(account)).0, Step(false, k, ClearAccountHistory(account)).0, now)
  {
    var e', k' := Step(true, e, ClearAccountHistory(account)).0, Step(false, k, ClearAccountHistory(account)).0;
    forall a: string ensures SameAt(e', k', now, a) {
      assert SameAt(e, k, now, a);
      if a != account {
        assert Out(e'.transfers, a) == Out(e.transfers, a) && Out(k'.transfers, a) == Out(k.transfers, a);
        assert Seen(e'.devices, a) == Seen(e.devices, a) && Seen(k'.devices, a) == Seen(k.devices, a);
      }
    }
  }

  /** The screening is not earlier than the last pruning of the engine it meets. */
  predicate OnTime(e: Engine, c: Command) {
    c.Screen? ==> c.req.now >= e.lastPrune
  }

  lemma StepKeepsSame(e: Engine, k: Engine, c: Command)
    requires Same(e, k, e.lastPrune) && OnTime(e, c)
    ensures Step(true, e, c).1 == Step(false, k, c).1
    ensures Same(Step(true, e, c).0, Step(false, k, c).0, Step(true, e, c).0.lastPrune)
  {
    match c
    case Screen(req) =>
      var r := Refreshed(true, e, req.now);
      SameLater(e, k, e.lastPrune, req.now);
      RefreshKeepsSame(e, k, req.now);
      SameDecision(r, k, req);
      RecordKeepsSame(r, k, req, r.lastPrune);
    case ClearAccountHistory(a) => ClearKeepsSame(e, k, e.lastPrune, a);
    case Reset(now) =>
      forall a: string ensures SameAt(Step(true, e, c).0, Step(false, k, c).0, now, a) {}
    case SetVelocityThresholds(w, r) =>
      forall a: string ensures SameAt(Step(true, e, c).0, Step(false, k, c).0, e.lastPrune, a) {
        assert SameAt(e, k, e.lastPrune, a);
      }
  }

  /** Every screening of the run is on time; between prunings the order of time does not matter. */
  ghost predicate Punctual(e: Engine, cs: seq<Command>)
    decreases |cs|
  {
    cs != [] ==> OnTime(e, cs[0]) && Punctual(Step(true, e, cs[0]).0, cs[1..])
  }

  /** Over every punctual run, with clearing, resets and threshold changes anywhere, the engine that prunes and the
      engine that keeps everything give the same answer to every command. */
  lemma {:induction false} PruningInvisible(e: Engine, k: Engine, cs: seq<Command>)
    requires Same(e, k, e.lastPrune) && Punctual(e, cs)
    ensures Decisions(true, e, cs) == Decisions(false, k, cs)
    decreases |cs|
  {
    if cs != [] {
      StepKeepsSame(e, k, cs[0]);
      PruningInvisible(Step(true, e, cs[0]).0, Step(false, k, cs[0]).0, cs[1..]);
    }
  }

  /** Time that never runs backwards is punctual. */
  lemma {:induction false} ForwardPunctual(e: Engine, cs: seq<Command>, clock: int)
    requires Forward(cs, clock) && e.lastPrune <= clock
    ensures Punctual(e, cs)
    decreases |cs|
  {
    if cs != [] { ForwardPunctual(Step(true, e, cs[0]).0, cs[1..], TimeOf(cs[0], clock)); }
  }

  ghost predicate LeanAt(e: Engine, account: string) {
    && (account in e.transfers ==>
          && e.transfers[account] != []
          && forall i :: 0 <= i < |e.transfers[account]| ==> e.transfers[account][i].time > e.lastPrune - WINDOW)
    && (account in e.devices ==>
          && e.devices[account] != map[]
          && forall x :: x in e.devices[account] ==> e.devices[account][x] >= e.lastPrune - WINDOW)
  }

  /** Nothing is kept that the last pruning should have dropped, and no account without anything to keep. */
  ghost predicate Lean(e: Engine) {
    forall a: string :: LeanAt(e, a)
  }

  lemma PrunedIsLean(e: Engine, now: int, a: string)
    ensures LeanAt(Prune(e, now).(lastPrune := now), a)
  {
    var p := Prune(e, now);
    if a in p.transfers {
      forall i | 0 <= i < |p.transfers[a]| ensures p.transfers[a][i].time > now - WINDOW {
        InRecent(Out(e.transfers, a), now - WINDOW, p.transfers[a][i]);
      }
    }
  }

  lemma RefreshedIsLean(e: Engine, now: int)
    requires Lean(e)
    ensures Lean(Refreshed(true, e, now))
  {
    forall a: string ensures LeanAt(Refreshed(true, e, now), a) {
      assert LeanAt(e, a);
      PrunedIsLean(e, now, a);
    }
  }

  lemma RecordedIsLean(e: Engine, req: Request, a: string)
    requires LeanAt(e, a) && LeanAt(e, req.from) && req.now >= e.lastPrune
    ensures LeanAt(Record(e, req), a)
  {
    var seen := Seen(e.devices, req.from)[req.device := req.now];
    assert req.device in seen && seen != map[];
  }

  lemma StepKeepsLean(e: Engine, c: Command)
    requires Lean(e) && OnTime(e, c)
    ensures Lean(Step(true, e, c).0)
  {
    var n := Step(true, e, c).0;
    if c.Screen? {
      var r := Refreshed(true, e, c.req.now);
      RefreshedIsLean(e, c.req.now);
      forall a: string ensures LeanAt(Record(r, c.req), a) {
        assert LeanAt(r, a) && LeanAt(r, c.req.from);
        RecordedIsLean(r, c.req, a);
      }
    } else {
      forall a: string ensures LeanAt(n, a) { assert LeanAt(e, a); }
    }
  }

  lemma {:induction false} RunKeepsLean(e: Engine, cs: seq<Command>)
    requires Lean(e) && Punctual(e, cs)
    ensures Lean(Run(true, e, cs))
    decreases |cs|
  {
    if cs != [] {
      StepKeepsLean(e, cs[0]);
      RunKeepsLean(Step(true, e, cs[0]).0, cs[1..]);
    }
  }

  lemma {:induction false} PunctualSnoc(e: Engine, cs: seq<Command>, c: Command)
    requires Punctual(e, cs + [c])
    ensures Punctual(e, cs) && OnTime(Run(true, e, cs), c)
    ensures Run(true, e, cs + [c]) == Step(true, Run(true, e, cs), c).0
    decreases |cs|
  {
    var all := cs + [c];
    if cs == [] {
      assert all[1..] == [];
    } else {
      assert all[1..] == cs[1..] + [c];
      PunctualSnoc(Step(true, e, cs[0]).0, cs[1..], c);
    }
  }

  /** Memory is bounded by what happens in a minute and a half: after every punctual run that ends with a screening,
      nothing older than 90 seconds is kept, and no account of which nothing is kept. */
  lemma Forgets(e: Engine, cs: seq<Command>, req: Request, account: string)
    requires Lean(e) && Punctual(e, cs + [Screen(req)])
    ensures var n := Run(true, e, cs + [Screen(req)]);
            && (account in n.transfers ==>
                  && n.transfers[account] != []
                  && forall i :: 0 <= i < |n.transfers[account]| ==>
                       n.transfers[account][i].time > req.now - 90_000_000_000)
            && (account in n.devices ==>
                  && n.devices[account] != map[]
                  && forall x :: x in n.devices[account] ==> n.devices[account][x] >= req.now - 90_000_000_000)
  {
    PunctualSnoc(e, cs, Screen(req));
    RunKeepsLean(e, cs);
    var m := Run(true, e, cs);
    StepKeepsLean(m, Screen(req));
    assert LeanAt(Step(true, m, Screen(req)).0, account);
    assert req.now - Step(true, m, Screen(req)).0.lastPrune <= 30_000_000_000;
  }
}
