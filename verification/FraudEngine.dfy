/** The fraud engine as the mutable object of the source, with its loops and in-place compaction. */
module FraudEngines {
  import opened FraudModel
  import opened FraudPruning

  /** Overwriting the first element behind a prefix extends the prefix. */
  lemma Overwrite<T>(s: seq<T>, k: nat, x: T)
    requires k < |s|
    ensures s[k := x][..k + 1] == s[..k] + [x]
  {
  }

  /** One more event read: it survives if it is after the cutoff. */
  lemma RecentNext(s: seq<Event>, r: nat, cutoff: int)
    requires r < |s|
    ensures Recent(s[..r + 1], cutoff) == Recent(s[..r], cutoff) + (if s[r].time > cutoff then [s[r]] else [])
  {
    assert s[..r + 1] == s[..r] + [s[r]];
    RecentSnoc(s[..r], s[r], cutoff);
  }

  /** Moves the events after the cutoff to the front of the slice, in place and in order. */
  method Compact(a: array<Event>, cutoff: int) returns (k: nat)
    modifies a
    ensures k <= a.Length && a[..k] == Recent(old(a[..]), cutoff)
  {
    k := 0;
    ghost var was := a[..];
    for r := 0 to a.Length
      invariant k <= r
      invariant a[..k] == Recent(was[..r], cutoff)
      invariant forall j :: r <= j < a.Length ==> a[j] == was[j]
    {
      RecentNext(was, r, cutoff);
      if a[r].time > cutoff {
        ghost var before := a[..];
        a[k] := a[r];
        assert a[..] == before[k := was[r]];
        Overwrite(before, k, was[r]);
        assert a[..k + 1] == a[..][..k + 1] && before[..k] == Recent(was[..r], cutoff);
        k := k + 1;
      }
    }
    assert was[..a.Length] == was;
  }

  /** The number of recent events of an account. */
  method CountRecent(evs: seq<Event>, cutoff: int) returns (n: nat)
    ensures n == |Recent(evs, cutoff)|
  {
    n := 0;
    for i := 0 to |evs|
      invariant n == |Recent(evs[..i], cutoff)|
    {
      assert evs[..i + 1] == evs[..i] + [evs[i]];
      RecentSnoc(evs[..i], evs[i], cutoff);
      if evs[i].time > cutoff {
        n := n + 1;
      }
    }
    assert evs[..|evs|] == evs;
  }

  ghost function Late(keys: set<string>, seen: map<string, int>, cutoff: int): set<string>
    requires keys <= seen.Keys
  {
    set x | x in keys && seen[x] > cutoff
  }

  lemma LateSplit(keys: set<string>, seen: map<string, int>, cutoff: int, d: string)
    requires keys <= seen.Keys && d in keys
    ensures |Late(keys, seen, cutoff)| == |Late(keys - {d}, seen, cutoff)| + (if seen[d] > cutoff then 1 else 0)
  {
    if seen[d] > cutoff {
      assert Late(keys, seen, cutoff) == Late(keys - {d}, seen, cutoff) + {d};
    } else {
      assert Late(keys, seen, cutoff) == Late(keys - {d}, seen, cutoff);
    }
  }

  /** The number of devices seen after the cutoff, visited in any order. */
  method CountSeen(seen: map<string, int>, cutoff: int) returns (n: nat)
    ensures n == |Late(seen.Keys, seen, cutoff)|
  {
    n := 0;
    var todo := seen.Keys;
    while todo != {}
      invariant todo <= seen.Keys
      invariant n + |Late(todo, seen, cutoff)| == |Late(seen.Keys, seen, cutoff)|
      decreases todo
    {
      var d :| d in todo;
      LateSplit(todo, seen, cutoff, d);
      if seen[d] > cutoff {
        n := n + 1;
      }
      todo := todo - {d};
    }
  }

  class InMemGraphFraudEngine {
    var transfers: Graph
    var devices: Sightings
    var lastPrune: int
    var warn: int
    var reject: int

    ghost function Value(): Engine
      reads this
    {
      Engine(transfers, devices, lastPrune, warn, reject)
    }

    constructor (now: int)
      ensures Value() == Engine(map[], map[], now, 15, 25)
    {
      transfers, devices, lastPrune, warn, reject := map[], map[], now, 15, 25;
    }

    method SetVelocityThresholds(warn: int, reject: int)
      modifies this
      ensures Value() == Step(true, old(Value()), Command.SetVelocityThresholds(warn, reject)).0
      ensures Value() == old(Value()).(warn := warn, reject := reject)
    {
      this.warn := warn;
      this.reject := reject;
    }

    method ClearAccountHistory(account: string)
      modifies this
      ensures Value() == Step(true, old(Value()), Command.ClearAccountHistory(account)).0
    {
      transfers := transfers - {account};
      devices := devices - {account};
    }

    method Reset(now: int)
      modifies this
      ensures Value() == Step(true, old(Value()), Command.Reset(now)).0
      ensures Value() == Engine(map[], map[], now, old(warn), old(reject))
    {
      transfers, devices, lastPrune := map[], map[], now;
    }

    /** The second hop: does `hop` lead back to `from` within the window? */
    method SecondHop(hop: string, from: string, now: int) returns (back: bool)
      ensures back == (hop == from || exists j :: 0 <= j < |RecentOut(transfers, hop, now)|
                                                  && RecentOut(transfers, hop, now)[j].to == from)
    {
      if hop == from {
        return true;
      }
      var evs := Out(transfers, hop);
      var recent := RecentOut(transfers, hop, now);
      for j := 0 to |evs|
        invariant forall t :: 0 <= t < j && evs[t].time > now - WINDOW ==> evs[t].to != from
      {
        if evs[j].time > now - WINDOW && evs[j].to == from {
          InRecent(evs, now - WINDOW, evs[j]);
          assert evs[j] in recent;
          return true;
        }
      }
      forall t | 0 <= t < |recent| ensures recent[t].to != from {
        InRecent(evs, now - WINDOW, recent[t]);
        assert recent[t] in evs;
      }
      back := false;
    }

    method DetectCycle(from: string, to: string, now: int) returns (ring: bool)
      ensures ring == ClosesRing(transfers, from, to, now)
    {
      if to == "" || from == to {
        return false;
      }
      var evs := Out(transfers, to);
      ghost var recent := RecentOut(transfers, to, now);
      for i := 0 to |evs|
        invariant forall t :: 0 <= t < i && evs[t].time > now - WINDOW ==> !LeadsBack(transfers, evs[t].to, from, now)
      {
        if evs[i].time > now - WINDOW {
          var back := SecondHop(evs[i].to, from, now);
          if back {
            InRecent(evs, now - WINDOW, evs[i]);
            assert evs[i] in recent;
            return true;
          }
        }
      }
      forall t | 0 <= t < |recent| ensures !LeadsBack(transfers, recent[t].to, from, now) {
        InRecent(evs, now - WINDOW, recent[t]);
        assert recent[t] in evs;
      }
      ring := false;
    }

    method PruneTransfers(now: int)
      modifies this`transfers
      ensures transfers == Prune(old(Value()), now).transfers
    {
      var todo := transfers.Keys;
      while todo != {}
        invariant todo <= old(transfers).Keys && transfers.Keys <= old(transfers).Keys
        invariant forall a :: a in todo ==> a in transfers && transfers[a] == old(transfers)[a]
        invariant forall a :: a in old(transfers) && a !in todo ==>
          var kept := RecentOut(old(transfers), a, now);
          if kept == [] then a !in transfers else a in transfers && transfers[a] == kept
        decreases todo
      {
        var acc :| acc in todo;
        var evs := transfers[acc];
        var slice := new Event[|evs|](i requires 0 <= i < |evs| => evs[i]);
        assert slice[..] == evs;
        var k := Compact(slice, now - WINDOW);
        if k == 0 {
          transfers := transfers - {acc};
        } else {
          transfers := transfers[acc := slice[..k]];
        }
        todo := todo - {acc};
      }
    }

    method PruneDevices(now: int)
      modifies this`devices
      ensures devices == Prune(old(Value()), now).devices
    {
      var todo := devices.Keys;
      while todo != {}
        invariant todo <= old(devices).Keys && devices.Keys <= old(devices).Keys
        invariant forall a :: a in todo ==> a in devices && devices[a] == old(devices)[a]
        invariant forall a :: a in old(devices) && a !in todo ==>
          var kept := KeptSeen(old(devices), a, now);
          if kept == map[] then a !in devices else a in devices && devices[a] == kept
        decreases todo
      {
        var acc :| acc in todo;
        var kept := DropBefore(devices[acc], now - WINDOW);
        assert kept == KeptSeen(old(devices), acc, now);
        if kept.Keys == {} {
          assert kept == map[];
          devices := devices - {acc};
        } else {
          devices := devices[acc := kept];
        }
        todo := todo - {acc};
      }
    }

    method ScreenTransaction(req: Request) returns (d: Decision)
      modifies this
      ensures (Value(), d) == ScreenWith(true, old(Value()), req)
    {
      if req.now - lastPrune > PRUNE_EVERY {
        PruneTransfers(req.now);
        PruneDevices(req.now);
        lastPrune := req.now;
      }
      ghost var r := Value();
      assert r == Refreshed(true, old(Value()), req.now);
      var ring := DetectCycle(req.from, req.to, req.now);
      if ring {
        return MuleRing;
      }
      var velocity := CountRecent(Out(transfers, req.from), req.now - WINDOW);
      var seen := CountSeen(Seen(devices, req.from), req.now - WINDOW);
      assert RecentSeen(devices, req.from, req.now).Keys
          == Late(Seen(devices, req.from).Keys, Seen(devices, req.from), req.now - WINDOW);
      var score := Score(warn, reject, velocity, seen, req.amount);
      if score >= 75 {
        return TooRisky(score);
      }
      transfers := transfers[req.from := Out(transfers, req.from) + [Event(req.from, req.to, req.now)]];
      if req.device != "" {
        devices := devices[req.from := Seen(devices, req.from)[req.device := req.now]];
      }
      d := Approved(score);
    }
  }

  /** Deletes the sightings before the cutoff one by one. */
  method DropBefore(seen: map<string, int>, cutoff: int) returns (kept: map<string, int>)
    ensures kept == map x | x in seen && seen[x] >= cutoff :: seen[x]
  {
    kept := seen;
    var todo := seen.Keys;
    while todo != {}
      invariant todo <= seen.Keys && kept.Keys <= seen.Keys
      invariant forall x :: x in seen ==> (x in kept <==> x in todo || seen[x] >= cutoff)
      invariant forall x :: x in kept ==> kept[x] == seen[x]
      decreases todo
    {
      var d :| d in todo;
      if seen[d] < cutoff {
        kept := kept - {d};
      }
      todo := todo - {d};
    }
  }
}
