/** The order in which queued transactions are replayed: vector clocks first, then five tie-breakers. */
module ReplayOrder {
  import opened Queue
  import opened Tournaments
  import L = Lexicographic

  type Clock = map<string, nat>

  /** A terminal that is not mentioned counts zero. */
  function At(v: Clock, k: string): nat {
    if k in v then v[k] else 0
  }

  ghost predicate AtMost(a: Clock, b: Clock) {
    forall k: string :: At(a, k) <= At(b, k)
  }

  /** Causal precedence: everything `a` has seen, `b` has seen, and `b` has seen more. */
  ghost predicate Precedes(a: Clock, b: Clock) {
    AtMost(a, b) && !AtMost(b, a)
  }

  /** Clears a flag for each direction in which some counter is larger; the keys are visited in any order. */
  method CompareVectorClocks(va: Clock, vb: Clock) returns (r: int)
    ensures r == -1 || r == 0 || r == 1
    ensures r == -1 <==> Precedes(va, vb)
    ensures r == 1 <==> Precedes(vb, va)
  {
    if |va| == 0 && |vb| == 0 {
      return 0;
    }
    var aLeB, bLeA := true, true;
    var allKeys := va.Keys + vb.Keys;
    var todo := allKeys;
    while todo != {}
      invariant todo <= allKeys
      invariant aLeB <==> forall k :: k in allKeys - todo ==> At(va, k) <= At(vb, k)
      invariant bLeA <==> forall k :: k in allKeys - todo ==> At(vb, k) <= At(va, k)
      decreases todo
    {
      var k :| k in todo;
      var ca, cb := At(va, k), At(vb, k);
      if ca > cb {
        aLeB := false;
      }
      if cb > ca {
        bLeA := false;
      }
      todo := todo - {k};
    }
    OnKeys(va, vb);
    OnKeys(vb, va);
    r := if aLeB && !bLeA then -1 else if bLeA && !aLeB then 1 else 0;
  }

  /** Only the keys of the two clocks matter. */
  lemma OnKeys(a: Clock, b: Clock)
    ensures AtMost(a, b) <==> forall k :: k in a.Keys + b.Keys ==> At(a, k) <= At(b, k)
  {
    if forall k :: k in a.Keys + b.Keys ==> At(a, k) <= At(b, k) {
      forall k: string ensures At(a, k) <= At(b, k) {
        if k in a.Keys + b.Keys {}
      }
    }
  }

  /** The tie-breakers, a lexicographic order ending with the transaction id. */
  predicate TieBreak(a: Tx, b: Tx) {
    if a.seqNo != b.seqNo then a.seqNo < b.seqNo
    else if a.sequenceNum != b.sequenceNum then a.sequenceNum < b.sequenceNum
    else if a.terminalId != b.terminalId then L.Less(a.terminalId, b.terminalId)
    else if a.clientTimestamp != b.clientTimestamp then a.clientTimestamp < b.clientTimestamp
    else L.Less(a.txId, b.txId)
  }

  /** The comparator handed to the stable sort. */
  ghost predicate Before(a: Tx, b: Tx) {
    if Precedes(a.vectorClock, b.vectorClock) then true
    else if Precedes(b.vectorClock, a.vectorClock) then false
    else TieBreak(a, b)
  }

  method IsBefore(a: Tx, b: Tx) returns (r: bool)
    ensures r == Before(a, b)
  {
    var cmp := CompareVectorClocks(a.vectorClock, b.vectorClock);
    r := if cmp != 0 then cmp < 0 else TieBreak(a, b);
  }

  lemma TieBreakDecides(a: Tx, b: Tx)
    ensures !TieBreak(a, a)
    ensures a.txId != b.txId ==> TieBreak(a, b) != TieBreak(b, a)
  {
    L.Irreflexive(a.txId);
    L.Total(a.terminalId, b.terminalId);
    L.Total(a.txId, b.txId);
    LessAsymmetric(a.terminalId, b.terminalId);
    LessAsymmetric(a.txId, b.txId);
  }

  lemma LessAsymmetric(a: string, b: string)
    ensures !(L.Less(a, b) && L.Less(b, a))
  {
    if L.Less(a, b) && L.Less(b, a) {
      L.Transitive(a, b, a);
      L.Irreflexive(a);
    }
  }

  lemma TieBreakTransitive(a: Tx, b: Tx, c: Tx)
    requires TieBreak(a, b) && TieBreak(b, c)
    ensures TieBreak(a, c)
  {
    if L.Less(a.terminalId, b.terminalId) && L.Less(b.terminalId, c.terminalId) {
      L.Transitive(a.terminalId, b.terminalId, c.terminalId);
    }
    if L.Less(a.txId, b.txId) && L.Less(b.txId, c.txId) {
      L.Transitive(a.txId, b.txId, c.txId);
    }
    LessAsymmetric(a.terminalId, b.terminalId);
    LessAsymmetric(b.terminalId, c.terminalId);
    L.Irreflexive(a.terminalId);
  }

  /** No transaction id occurs twice in the batch. */
  ghost predicate DistinctIds(s: seq<Tx>) {
    forall i, j :: 0 <= i < j < |s| ==> s[i].txId != s[j].txId
  }

  /** The comparator decides every pair of a batch, one way only. */
  lemma BatchIsTournament(s: seq<Tx>)
    requires DistinctIds(s)
    ensures Tournament(Before, s)
  {
    forall x, y | x in s && y in s ensures Decided(Before, x, y) {
      var i :| 0 <= i < |s| && s[i] == x;
      var j :| 0 <= j < |s| && s[j] == y;
      TieBreakDecides(x, y);
      if x != y { assert i != j && x.txId != y.txId; }
    }
  }

  /** The three transactions form a cycle under the comparator. */
  ghost predicate InconsistentTriple(x: Tx, y: Tx, z: Tx) {
    Before(x, y) && Before(y, z) && Before(z, x)
  }

  ghost predicate NoInconsistentTriple(s: seq<Tx>) {
    forall x, y, z :: x in s && y in s && z in s ==> !InconsistentTriple(x, y, z)
  }

  /** Every arrival order of the batch is replayed in the same order. */
  ghost predicate ReplayDeterministic(s: seq<Tx>) {
    forall p: seq<Tx> :: multiset(p) == multiset(s) ==> Sort(Before, p) == Sort(Before, s)
  }

  lemma TripleIsCycle(s: seq<Tx>)
    ensures NoInconsistentTriple(s) <==> Acyclic(Before, s)
  {
    if NoInconsistentTriple(s) {
      forall x, y, z | x in s && y in s && z in s ensures !Cycle(Before, x, y, z) {
        assert !InconsistentTriple(x, y, z);
      }
    }
    if Acyclic(Before, s) {
      forall x, y, z | x in s && y in s && z in s ensures !InconsistentTriple(x, y, z) {
        assert !Cycle(Before, x, y, z);
      }
    }
  }

  /** The promised independence from arrival order holds exactly for batches without an inconsistent triple. */
  lemma DeterministicExactly(s: seq<Tx>)
    requires DistinctIds(s)
    ensures ReplayDeterministic(s) <==> NoInconsistentTriple(s)
  {
    BatchIsTournament(s);
    ArrivalIndependence(Before, s);
    TripleIsCycle(s);
  }

  /** Whatever sorting procedure is used: the comparator leaves one replay order open exactly for batches without an
      inconsistent triple, and at least two for every other batch. */
  lemma OneReplayExactly(s: seq<Tx>)
    requires DistinctIds(s)
    ensures Arranges(Before, s, Sort(Before, s))
    ensures OneArrangement(Before, s) <==> NoInconsistentTriple(s)
  {
    BatchIsTournament(s);
    OneArrangementExactly(Before, s);
    TripleIsCycle(s);
  }

  /** Every sorting procedure that keeps a sorting library's promise replays the batch in one order, whatever the
      order of arrival, exactly if the batch has no inconsistent triple. */
  lemma EveryReplayExactly(s: seq<Tx>)
    requires DistinctIds(s)
    ensures (forall sorter: seq<Tx> -> seq<Tx> :: Sorts(Before, sorter) ==> IgnoresArrival(sorter, s))
            <==> NoInconsistentTriple(s)
  {
    BatchIsTournament(s);
    EverySortExactly(Before, s);
    TripleIsCycle(s);
  }

  /** Sequence numbers follow causality. */
  ghost predicate Monotone(s: seq<Tx>) {
    forall x, y :: x in s && y in s && Precedes(x.vectorClock, y.vectorClock) ==> x.seqNo < y.seqNo
  }

  /** With monotone sequence numbers the clocks only confirm the tie-breakers. */
  lemma MonotoneIsTieBreak(s: seq<Tx>, x: Tx, y: Tx)
    requires Monotone(s) && x in s && y in s
    ensures Before(x, y) == TieBreak(x, y)
  {
  }

  lemma MonotoneConsistent(s: seq<Tx>)
    requires Monotone(s)
    ensures NoInconsistentTriple(s)
  {
    forall x, y, z | x in s && y in s && z in s ensures !InconsistentTriple(x, y, z) {
      MonotoneIsTieBreak(s, x, y);
      MonotoneIsTieBreak(s, y, z);
      MonotoneIsTieBreak(s, z, x);
      if InconsistentTriple(x, y, z) {
        TieBreakTransitive(x, y, z);
        TieBreakTransitive(x, z, x);
        TieBreakDecides(x, x);
      }
    }
  }

  /** No transaction is replayed before one that causally precedes it. */
  ghost predicate Causal(p: seq<Tx>) {
    forall i, j :: 0 <= i < j < |p| ==> !Precedes(p[j].vectorClock, p[i].vectorClock)
  }

  /** Without an inconsistent triple there is one arrangement a sort can produce, and it is a linear extension of the
      causal order. This needs nothing of the sorting procedure but that it leaves no neighbours in the wrong order. */
  lemma CausalReplay(s: seq<Tx>, p: seq<Tx>)
    requires DistinctIds(s) && NoInconsistentTriple(s) && Arranges(Before, s, p)
    ensures p == Sort(Before, s) && Causal(p)
  {
    BatchIsTournament(s);
    TripleIsCycle(s);
    AcyclicSortUnique(Before, s, p);
    forall i, j | 0 <= i < j < |p| ensures !Precedes(p[j].vectorClock, p[i].vectorClock) {
      assert Before(p[i], p[j]);
    }
  }

  /** The first string is the smaller one at their first difference. */
  ghost predicate StringBefore(a: string, b: string) {
    exists k: nat :: L.SmallerAt(a, b, k)
  }

  /** Terminal sequence number, authorization number, terminal, client time and transaction id, in this order, rise. */
  ghost predicate FieldsRise(a: Tx, b: Tx) {
    || a.seqNo < b.seqNo
    || (a.seqNo == b.seqNo && a.sequenceNum < b.sequenceNum)
    || (a.seqNo == b.seqNo && a.sequenceNum == b.sequenceNum && StringBefore(a.terminalId, b.terminalId))
    || (a.seqNo == b.seqNo && a.sequenceNum == b.sequenceNum && a.terminalId == b.terminalId
        && a.clientTimestamp < b.clientTimestamp)
    || (a.seqNo == b.seqNo && a.sequenceNum == b.sequenceNum && a.terminalId == b.terminalId
        && a.clientTimestamp == b.clientTimestamp && StringBefore(a.txId, b.txId))
  }

  /** The comparator on the fields: causal precedence, or else rising fields. */
  lemma BeforeExactly(a: Tx, b: Tx)
    ensures Before(a, b) <==>
      Precedes(a.vectorClock, b.vectorClock) || (!Precedes(b.vectorClock, a.vectorClock) && FieldsRise(a, b))
  {
    L.LessExactly(a.terminalId, b.terminalId);
    L.LessExactly(a.txId, b.txId);
    L.Irreflexive(a.terminalId);
  }

  /** In the replay of a consistent batch, whatever comes first precedes what comes later causally, or is concurrent
      with it and has the smaller fields. */
  lemma ReplayFields(s: seq<Tx>, i: nat, j: nat)
    requires DistinctIds(s) && NoInconsistentTriple(s) && i < j < |Sort(Before, s)|
    ensures var a, b := Sort(Before, s)[i], Sort(Before, s)[j];
            || Precedes(a.vectorClock, b.vectorClock)
            || (!Precedes(b.vectorClock, a.vectorClock) && FieldsRise(a, b))
  {
    var p := Sort(Before, s);
    BatchIsTournament(s);
    TripleIsCycle(s);
    OneReplayExactly(s);
    AcyclicSortUnique(Before, s, p);
    BeforeExactly(p[i], p[j]);
  }

  function Sample(id: string, seqNo: nat, clock: Clock): Tx {
    Tx(id, 0, 0, seqNo, clock, "", "", "", "", 1, PENDING, id)
  }

  const EARLY := Sample("a", 3, map["X" := 3])
  const LATE := Sample("b", 1, map["X" := 3, "Y" := 1])
  const ASIDE := Sample("c", 2, map["Z" := 2])

  lemma SampleClocks()
    ensures Precedes(EARLY.vectorClock, LATE.vectorClock)
    ensures !Precedes(EARLY.vectorClock, ASIDE.vectorClock) && !Precedes(ASIDE.vectorClock, EARLY.vectorClock)
    ensures !Precedes(LATE.vectorClock, ASIDE.vectorClock) && !Precedes(ASIDE.vectorClock, LATE.vectorClock)
  {
    var a, b, c := EARLY.vectorClock, LATE.vectorClock, ASIDE.vectorClock;
    assert At(a, "X") == 3 && At(b, "X") == 3 && At(c, "X") == 0;
    assert At(a, "Y") == 0 && At(b, "Y") == 1;
    assert At(a, "Z") == 0 && At(b, "Z") == 0 && At(c, "Z") == 2;
    assert AtMost(a, b);
  }

  lemma SampleOrder()
    ensures Before(EARLY, LATE) && Before(LATE, ASIDE) && Before(ASIDE, EARLY)
    ensures !Before(LATE, EARLY) && !Before(ASIDE, LATE) && !Before(EARLY, ASIDE)
  {
    SampleClocks();
  }

  lemma SampleCausal()
    ensures Causal([EARLY, LATE, ASIDE]) && !Causal([LATE, ASIDE, EARLY])
  {
    SampleClocks();
    var p := [LATE, ASIDE, EARLY];
    assert Precedes(p[2].vectorClock, p[0].vectorClock);
  }

  lemma ThreeSettled(x: Tx, y: Tx, z: Tx)
    requires !Before(y, x) && !Before(z, y)
    ensures Sort(Before, [x, y, z]) == [x, y, z]
  {
    var s := [x, y, z];
    forall i | 0 <= i < |s| - 1 ensures !Before(s[i + 1], s[i]) {}
    SortSettled(Before, s);
  }

  /** Sequence numbers against causality: three transactions form a cycle, two arrival orders are replayed differently,
      and one of them settles an effect before its cause. */
  lemma CausalityBroken()
    ensures InconsistentTriple(EARLY, LATE, ASIDE)
    ensures var s := [EARLY, LATE, ASIDE];
            var p := [LATE, ASIDE, EARLY];
            && multiset(p) == multiset(s)
            && Sort(Before, s) == s && Sort(Before, p) == p
            && Causal(s) && !Causal(p)
  {
    SampleOrder();
    SampleCausal();
    ThreeSettled(EARLY, LATE, ASIDE);
    ThreeSettled(LATE, ASIDE, EARLY);
    assert multiset([LATE, ASIDE, EARLY]) == multiset{EARLY, LATE, ASIDE} == multiset([EARLY, LATE, ASIDE]);
  }

  /** Swaps the element at `i` down past those it precedes. */
  method InsertDown(a: array<Tx>, i: nat)
    requires i < a.Length
    modifies a
    ensures a[..i + 1] == Insert(Before, old(a[..i]), old(a[i]))
    ensures a[i + 1..] == old(a[i + 1..])
  {
    ghost var done, x := a[..i], a[i];
    var j := i;
    while j > 0
      invariant 0 <= j <= i
      invariant a[j] == x && a[i + 1..] == old(a[i + 1..])
      invariant forall k :: 0 <= k < j ==> a[k] == done[k]
      invariant forall k :: j < k <= i ==> a[k] == done[k - 1]
      invariant forall k :: j <= k < i ==> Before(x, done[k])
    {
      var down := IsBefore(a[j], a[j - 1]);
      if !down {
        break;
      }
      a[j], a[j - 1] := a[j - 1], a[j];
      j := j - 1;
    }
    Spliced(a[..i + 1], done, j, x);
    InsertAt(Before, done, j, x);
  }

  /** Sorts the slice in place by insertion. */
  method SortTransactionsVectorClock(a: array<Tx>)
    modifies a
    ensures a[..] == Sort(Before, old(a[..]))
  {
    ghost var was := a[..];
    for i := 0 to a.Length
      invariant a[..i] == Sort(Before, was[..i])
      invariant a[i..] == was[i..]
    {
      assert a[i] == was[i] by { assert a[i] == a[i..][0] && was[i] == was[i..][0]; }
      assert was[..i + 1][..i] == was[..i];
      assert a[i + 1..] == a[i..][1..] && was[i + 1..] == was[i..][1..];
      InsertDown(a, i);
    }
    assert a[..a.Length] == a[..] && was[..a.Length] == was;
  }
}
