/** Insertion sort under a comparator that decides every pair but need not be transitive. */
module Tournaments {
  import opened Sums

  /** Any two distinct elements compare one way, no element precedes itself, and none occurs twice. */
  ghost predicate Tournament<T>(less: (T, T) -> bool, s: seq<T>) {
    && (forall i, j :: 0 <= i < j < |s| ==> s[i] != s[j])
    && (forall x, y :: x in s && y in s ==> Decided(less, x, y))
  }

  ghost predicate Decided<T>(less: (T, T) -> bool, x: T, y: T) {
    if x == y then !less(x, y) else less(x, y) != less(y, x)
  }

  /** No two neighbours are in the wrong order. */
  ghost predicate Settled<T>(less: (T, T) -> bool, s: seq<T>) {
    forall i :: 0 <= i < |s| - 1 ==> !less(s[i + 1], s[i])
  }

  /** Every element precedes all that come after it. */
  ghost predicate Ordered<T>(less: (T, T) -> bool, s: seq<T>) {
    forall i, j :: 0 <= i < j < |s| ==> less(s[i], s[j])
  }

  predicate Cycle<T>(less: (T, T) -> bool, x: T, y: T, z: T) {
    less(x, y) && less(y, z) && less(z, x)
  }

  ghost predicate Acyclic<T>(less: (T, T) -> bool, s: seq<T>) {
    forall x, y, z :: x in s && y in s && z in s ==> !Cycle(less, x, y, z)
  }

  /** A rearrangement of `s` that a sorting procedure could have stopped at. */
  ghost predicate Arranges<T>(less: (T, T) -> bool, s: seq<T>, p: seq<T>) {
    multiset(p) == multiset(s) && Settled(less, p)
  }

  /** Moves `x` in from the right past everything it precedes. */
  ghost function Insert<T>(less: (T, T) -> bool, s: seq<T>, x: T): seq<T> {
    if s == [] || !less(x, s[|s| - 1]) then s + [x]
    else Insert(less, s[..|s| - 1], x) + [s[|s| - 1]]
  }

  /** Insertion sort, which is what a stable sort of a short slice does. */
  ghost function Sort<T>(less: (T, T) -> bool, s: seq<T>): seq<T> {
    if s == [] then [] else Insert(less, Sort(less, s[..|s| - 1]), s[|s| - 1])
  }

  /** Where an element lands: right behind the last one it does not precede. */
  lemma {:induction false} InsertAt<T>(less: (T, T) -> bool, s: seq<T>, j: nat, x: T)
    requires j <= |s| && (j > 0 ==> !less(x, s[j - 1])) && forall k :: j <= k < |s| ==> less(x, s[k])
    ensures Insert(less, s, x) == s[..j] + [x] + s[j..]
  {
    if j < |s| {
      var init := s[..|s| - 1];
      InsertAt(less, init, j, x);
      assert s[j..] == init[j..] + [s[|s| - 1]];
    }
  }

  lemma Spliced<T>(t: seq<T>, s: seq<T>, j: nat, x: T)
    requires j <= |s| && |t| == |s| + 1 && t[j] == x
    requires forall k :: 0 <= k < j ==> t[k] == s[k]
    requires forall k :: j < k < |t| ==> t[k] == s[k - 1]
    ensures t == s[..j] + [x] + s[j..]
  {
  }

  lemma {:induction false} InsertContents<T>(less: (T, T) -> bool, s: seq<T>, x: T)
    ensures multiset(Insert(less, s, x)) == multiset(s) + multiset{x}
  {
    if s != [] && less(x, s[|s| - 1]) {
      InsertContents(less, s[..|s| - 1], x);
      assert s == s[..|s| - 1] + [s[|s| - 1]];
    }
  }

  lemma {:induction false} SortContents<T>(less: (T, T) -> bool, s: seq<T>)
    ensures multiset(Sort(less, s)) == multiset(s)
  {
    if s != [] {
      var init, x := s[..|s| - 1], s[|s| - 1];
      SortContents(less, init);
      InsertContents(less, Sort(less, init), x);
      assert s == init + [x];
    }
  }

  lemma SameElements<T>(s: seq<T>, p: seq<T>, x: T)
    requires multiset(p) == multiset(s)
    ensures x in p <==> x in s
  {
    assert x in p <==> x in multiset(p);
    assert x in s <==> x in multiset(s);
  }

  lemma {:induction false} InsertKeepsSettled<T>(less: (T, T) -> bool, s: seq<T>, x: T)
    requires Settled(less, s) && forall y :: y in s ==> !(less(x, y) && less(y, x))
    ensures Settled(less, Insert(less, s, x))
    ensures Insert(less, s, x) != []
    ensures Insert(less, s, x)[|Insert(less, s, x)| - 1] == if s == [] || !less(x, s[|s| - 1]) then x else s[|s| - 1]
  {
    if s != [] && less(x, s[|s| - 1]) {
      var init, last := s[..|s| - 1], s[|s| - 1];
      InsertKeepsSettled(less, init, x);
      if init != [] { assert !less(last, init[|init| - 1]) by { assert s[|s| - 2] == init[|init| - 1]; } }
    }
  }

  lemma TournamentPrefix<T>(less: (T, T) -> bool, s: seq<T>, k: nat)
    requires Tournament(less, s) && k <= |s|
    ensures Tournament(less, s[..k])
  {
    forall x, y | x in s[..k] && y in s[..k] ensures Decided(less, x, y) {
      assert x in s && y in s;
    }
  }

  /** Sorting always ends with no two neighbours in the wrong order, cycles or not. */
  lemma {:induction false} SortSettles<T>(less: (T, T) -> bool, s: seq<T>)
    requires Tournament(less, s)
    ensures Settled(less, Sort(less, s))
  {
    if s != [] {
      var init, x := s[..|s| - 1], s[|s| - 1];
      TournamentPrefix(less, s, |s| - 1);
      SortSettles(less, init);
      SortContents(less, init);
      forall y | y in Sort(less, init) ensures !(less(x, y) && less(y, x)) {
        SameElements(init, Sort(less, init), y);
        assert y in s && x in s;
        assert Decided(less, x, y);
      }
      InsertKeepsSettled(less, Sort(less, init), x);
    }
  }

  /** What is settled already is left alone. */
  lemma {:induction false} SortSettled<T>(less: (T, T) -> bool, s: seq<T>)
    requires Settled(less, s)
    ensures Sort(less, s) == s
  {
    if s != [] {
      var k := |s| - 1;
      assert Settled(less, s[..k]);
      SortSettled(less, s[..k]);
      if k > 0 { assert !less(s[k - 1 + 1], s[k - 1]); }
      assert s == s[..k] + [s[k]];
    }
  }

  lemma {:induction false} DistinctRearranged<T>(s: seq<T>, p: seq<T>)
    requires multiset(p) == multiset(s)
    requires forall i, j :: 0 <= i < j < |s| ==> s[i] != s[j]
    ensures forall i, j :: 0 <= i < j < |p| ==> p[i] != p[j]
  {
    forall i, j | 0 <= i < j < |p| ensures p[i] != p[j] {
      if p[i] == p[j] {
        TwiceCounted(p, i, j);
        OnceCounted(s, p[i]);
        assert false;
      }
    }
  }

  lemma TwiceCounted<T>(p: seq<T>, i: nat, j: nat)
    requires i < j < |p| && p[i] == p[j]
    ensures multiset(p)[p[i]] >= 2
  {
    assert p == p[..j] + p[j..];
    assert p[i] in p[..j] && p[j] in p[j..];
    assert multiset(p[..j])[p[i]] >= 1 && multiset(p[j..])[p[j]] >= 1;
    assert multiset(p) == multiset(p[..j]) + multiset(p[j..]);
  }

  lemma {:induction false} OnceCounted<T>(s: seq<T>, x: T)
    requires forall i, j :: 0 <= i < j < |s| ==> s[i] != s[j]
    ensures multiset(s)[x] <= 1
  {
    if s != [] {
      OnceCounted(s[1..], x);
      assert s == [s[0]] + s[1..];
      if s[0] == x {
        assert x !in s[1..];
        assert multiset(s[1..])[x] == 0;
      }
    }
  }

  lemma TournamentRearranged<T>(less: (T, T) -> bool, s: seq<T>, p: seq<T>)
    requires Tournament(less, s) && multiset(p) == multiset(s)
    ensures Tournament(less, p)
  {
    DistinctRearranged(s, p);
    forall x, y | x in p && y in p ensures Decided(less, x, y) {
      SameElements(s, p, x);
      SameElements(s, p, y);
    }
  }

  lemma AcyclicRearranged<T>(less: (T, T) -> bool, s: seq<T>, p: seq<T>)
    requires Acyclic(less, s) && multiset(p) == multiset(s)
    ensures Acyclic(less, p)
  {
    forall x, y, z | x in p && y in p && z in p ensures !Cycle(less, x, y, z) {
      SameElements(s, p, x);
      SameElements(s, p, y);
      SameElements(s, p, z);
    }
  }

  /** Without cycles, settled neighbours mean a fully ordered sequence. */
  lemma {:induction false} SettledIsOrdered<T>(less: (T, T) -> bool, s: seq<T>)
    requires Tournament(less, s) && Acyclic(less, s) && Settled(less, s)
    ensures Ordered(less, s)
  {
    forall i, j | 0 <= i < j < |s| ensures less(s[i], s[j]) {
      SettledPair(less, s, i, j);
    }
  }

  lemma {:induction false} SettledPair<T>(less: (T, T) -> bool, s: seq<T>, i: nat, j: nat)
    requires Tournament(less, s) && Acyclic(less, s) && Settled(less, s) && i < j < |s|
    ensures less(s[i], s[j])
    decreases j
  {
    assert Decided(less, s[j - 1], s[j]) && Decided(less, s[i], s[j]);
    assert s[j - 1] != s[j] && s[i] != s[j];
    assert less(s[j - 1], s[j]) by { assert !less(s[j - 1 + 1], s[j - 1]); }
    if i < j - 1 {
      SettledPair(less, s, i, j - 1);
      assert !Cycle(less, s[i], s[j - 1], s[j]);
    }
  }

  /** An ordered arrangement is determined by its elements. */
  lemma {:induction false} OrderedUnique<T>(less: (T, T) -> bool, p: seq<T>, q: seq<T>)
    requires Tournament(less, p) && Tournament(less, q) && Ordered(less, p) && Ordered(less, q)
    requires multiset(p) == multiset(q)
    ensures p == q
    decreases |p|
  {
    if p == [] {
      assert |multiset(q)| == 0;
    } else {
      assert |multiset(q)| == |multiset(p)| > 0;
      FirstsAgree(less, p, q);
      SameTails(p, q);
      TailTournament(less, p);
      TailTournament(less, q);
      OrderedUnique(less, p[1..], q[1..]);
    }
  }

  lemma SameTails<T>(p: seq<T>, q: seq<T>)
    requires p != [] && q != [] && p[0] == q[0] && multiset(p) == multiset(q)
    ensures multiset(p[1..]) == multiset(q[1..])
    ensures p[1..] == q[1..] ==> p == q
  {
    assert p == [p[0]] + p[1..] && q == [q[0]] + q[1..];
    assert multiset(p[1..]) == multiset(p) - multiset{p[0]};
    assert multiset(q[1..]) == multiset(q) - multiset{q[0]};
  }

  lemma TailTournament<T>(less: (T, T) -> bool, p: seq<T>)
    requires Tournament(less, p) && p != []
    ensures Tournament(less, p[1..])
  {
    forall x, y | x in p[1..] && y in p[1..] ensures Decided(less, x, y) {
      assert x in p && y in p;
    }
  }

  lemma FirstsAgree<T>(less: (T, T) -> bool, p: seq<T>, q: seq<T>)
    requires Tournament(less, p) && Ordered(less, p) && Ordered(less, q)
    requires multiset(p) == multiset(q) && p != [] && q != []
    ensures p[0] == q[0]
  {
    SameElements(p, q, p[0]);
    SameElements(q, p, q[0]);
    var i :| 0 <= i < |q| && q[i] == p[0];
    var j :| 0 <= j < |p| && p[j] == q[0];
    var x, y := p[0], q[0];
    assert Decided(less, x, y);
    assert i > 0 ==> less(y, x);
    assert j > 0 ==> less(x, y);
  }

  /** Without cycles every arrival order is sorted into one and the same sequence, and so is every arrangement that any
      other sorting procedure could stop at. */
  lemma AcyclicSortUnique<T>(less: (T, T) -> bool, s: seq<T>, p: seq<T>)
    requires Tournament(less, s) && Acyclic(less, s) && Arranges(less, s, p)
    ensures p == Sort(less, s) && Ordered(less, p)
  {
    var q := Sort(less, s);
    SortContents(less, s);
    SortSettles(less, s);
    TournamentRearranged(less, s, p);
    TournamentRearranged(less, s, q);
    AcyclicRearranged(less, s, p);
    AcyclicRearranged(less, s, q);
    SettledIsOrdered(less, p);
    SettledIsOrdered(less, q);
    OrderedUnique(less, p, q);
  }

  /** Which positions carry a cycle. */
  ghost predicate CycleAt<T>(less: (T, T) -> bool, s: seq<T>, x: T, y: T, z: T) {
    x in s && y in s && z in s && Cycle(less, x, y, z)
  }

  lemma InsertedElsewhere<T>(less: (T, T) -> bool, p: seq<T>, q: seq<T>, x: T)
    requires p != q && multiset(p) == multiset(q) && x !in p && x !in q
    ensures Insert(less, p, x) != Insert(less, q, x)
  {
    InsertThenRemove(less, p, x);
    InsertThenRemove(less, q, x);
  }

  /** The sequence with every occurrence of `x` left out. */
  ghost function Drop<T>(s: seq<T>, x: T): seq<T> {
    if s == [] then [] else Drop(s[..|s| - 1], x) + (if s[|s| - 1] == x then [] else [s[|s| - 1]])
  }

  lemma InitLast<T>(s: seq<T>)
    requires s != []
    ensures s == s[..|s| - 1] + [s[|s| - 1]]
    ensures forall x :: x !in s ==> x !in s[..|s| - 1] && x != s[|s| - 1]
  {
  }

  lemma DropSnoc<T>(s: seq<T>, y: T, x: T)
    ensures Drop(s + [y], x) == Drop(s, x) + (if y == x then [] else [y])
  {
    assert (s + [y])[..|s|] == s;
  }

  lemma {:induction false} DropNothing<T>(s: seq<T>, x: T)
    requires x !in s
    ensures Drop(s, x) == s
  {
    if s != [] {
      DropNothing(s[..|s| - 1], x);
      assert s == s[..|s| - 1] + [s[|s| - 1]];
    }
  }

  lemma {:induction false} InsertThenRemove<T>(less: (T, T) -> bool, s: seq<T>, x: T)
    requires x !in s
    ensures Drop(Insert(less, s, x), x) == s
  {
    if s == [] || !less(x, s[|s| - 1]) {
      DropSnoc(s, x, x);
      DropNothing(s, x);
    } else {
      var init, last := s[..|s| - 1], s[|s| - 1];
      InitLast(s);
      InsertThenRemove(less, init, x);
      DropSnoc(Insert(less, init, x), last, x);
    }
  }

  lemma ThreeWays<T>(less: (T, T) -> bool, x: T, y: T, z: T)
    requires Cycle(less, x, y, z) && !less(y, x) && !less(z, y) && !less(x, z) && x != y
    ensures Settled(less, [x, y, z]) && Settled(less, [y, z, x]) && [x, y, z] != [y, z, x]
  {
    assert [x, y, z][0] != [y, z, x][0];
  }

  lemma WithoutTournament<T>(less: (T, T) -> bool, s: seq<T>, i: nat)
    requires Tournament(less, s) && i < |s|
    ensures Tournament(less, Without(s, i)) && s[i] !in Without(s, i)
    ensures forall x :: x in s && x != s[i] ==> x in Without(s, i)
  {
    var t := Without(s, i);
    forall k | 0 <= k < |t| ensures t[k] in s && t[k] != s[i] {
      assert t[k] == if k < i then s[k] else s[k + 1];
    }
    forall x | x in s && x != s[i] ensures x in t {
      var k :| 0 <= k < |s| && s[k] == x;
      assert x == t[if k < i then k else k - 1];
    }
    forall a, b | 0 <= a < b < |t| ensures t[a] != t[b] {
      assert t[a] == s[if a < i then a else a + 1] && t[b] == s[if b < i then b else b + 1];
    }
  }

  /** A batch with a cycle has two different arrangements that are both already settled. */
  lemma {:induction false} CycleTwoWays<T>(less: (T, T) -> bool, s: seq<T>, x: T, y: T, z: T)
    returns (p: seq<T>, q: seq<T>)
    requires Tournament(less, s) && CycleAt(less, s, x, y, z)
    ensures Arranges(less, s, p) && Arranges(less, s, q) && p != q
    decreases |s|
  {
    assert Decided(less, x, y) && Decided(less, y, z) && Decided(less, z, x);
    if i :| 0 <= i < |s| && s[i] != x && s[i] != y && s[i] != z {
      var t := Without(s, i);
      WithoutTournament(less, s, i);
      var p', q' := CycleTwoWays(less, t, x, y, z);
      p, q := Insert(less, p', s[i]), Insert(less, q', s[i]);
      ExtendArrangement(less, s, i, p');
      ExtendArrangement(less, s, i, q');
      InsertedElsewhere(less, p', q', s[i]);
    } else {
      p, q := [x, y, z], [y, z, x];
      ThreeWays(less, x, y, z);
      OnlyThree(s, x, y, z);
    }
  }

  /** Inserting the element left out into an arrangement of the others arranges them all. */
  lemma ExtendArrangement<T>(less: (T, T) -> bool, s: seq<T>, i: nat, p: seq<T>)
    requires Tournament(less, s) && i < |s| && Arranges(less, Without(s, i), p)
    ensures Arranges(less, s, Insert(less, p, s[i])) && s[i] !in p
  {
    var t := Without(s, i);
    WithoutTournament(less, s, i);
    WithoutMultiset(s, i);
    InsertContents(less, p, s[i]);
    assert multiset(s)[s[i]] > 0;
    SameElements(t, p, s[i]);
    forall y | y in p ensures !(less(s[i], y) && less(y, s[i])) {
      SameElements(t, p, y);
      assert y in multiset(t);
      assert y in multiset(s);
      assert Decided(less, s[i], y);
    }
    InsertKeepsSettled(less, p, s[i]);
  }

  lemma OnlyThree<T>(s: seq<T>, x: T, y: T, z: T)
    requires forall i, j :: 0 <= i < j < |s| ==> s[i] != s[j]
    requires forall i :: 0 <= i < |s| ==> s[i] == x || s[i] == y || s[i] == z
    requires x in s && y in s && z in s && x != y && y != z && z != x
    ensures multiset(s) == multiset([x, y, z]) == multiset([y, z, x])
  {
    forall e ensures multiset(s)[e] == multiset([x, y, z])[e] {
      OnceCounted(s, e);
      assert e in s <==> e in multiset(s);
      assert multiset([x, y, z]) == multiset{x, y, z};
    }
    assert multiset([y, z, x]) == multiset{x, y, z} == multiset([x, y, z]);
  }

  /** Whether every arrival order of the batch is sorted into the same sequence. */
  ghost predicate ArrivalIndependent<T(!new)>(less: (T, T) -> bool, s: seq<T>) {
    forall p: seq<T> :: multiset(p) == multiset(s) ==> Sort(less, p) == Sort(less, s)
  }

  /** The sorted result is independent of arrival exactly when no three elements form a cycle. */
  lemma ArrivalIndependence<T(!new)>(less: (T, T) -> bool, s: seq<T>)
    requires Tournament(less, s)
    ensures ArrivalIndependent(less, s) <==> Acyclic(less, s)
  {
    if Acyclic(less, s) {
      forall p: seq<T> | multiset(p) == multiset(s) ensures Sort(less, p) == Sort(less, s) {
        TournamentRearranged(less, s, p);
        SortContents(less, p);
        SortSettles(less, p);
        AcyclicSortUnique(less, s, Sort(less, p));
      }
    } else {
      var x, y, z :| x in s && y in s && z in s && Cycle(less, x, y, z);
      var p, q := CycleTwoWays(less, s, x, y, z);
      SortSettled(less, p);
      SortSettled(less, q);
      assert Sort(less, p) != Sort(less, q);
    }
  }

  /** All arrangements that any sorting procedure could stop at are one and the same. */
  ghost predicate OneArrangement<T(!new)>(less: (T, T) -> bool, s: seq<T>) {
    forall p: seq<T>, q: seq<T> :: Arranges(less, s, p) && Arranges(less, s, q) ==> p == q
  }

  /** Whatever the sorting procedure: there always is an arrangement with no neighbours in the wrong order, and there
      is only one exactly when no three elements form a cycle. */
  lemma OneArrangementExactly<T(!new)>(less: (T, T) -> bool, s: seq<T>)
    requires Tournament(less, s)
    ensures Arranges(less, s, Sort(less, s))
    ensures OneArrangement(less, s) <==> Acyclic(less, s)
  {
    SortContents(less, s);
    SortSettles(less, s);
    if Acyclic(less, s) {
      forall p: seq<T>, q: seq<T> | Arranges(less, s, p) && Arranges(less, s, q) ensures p == q {
        AcyclicSortUnique(less, s, p);
        AcyclicSortUnique(less, s, q);
      }
    } else {
      var x, y, z :| x in s && y in s && z in s && Cycle(less, x, y, z);
      var p, q := CycleTwoWays(less, s, x, y, z);
    }
  }

  /** What a sorting library promises: where the comparator is a strict order, a rearrangement with no neighbours in the
      wrong order. Nothing is promised for batches with a cycle. */
  ghost predicate Sorts<T(!new)>(less: (T, T) -> bool, sorter: seq<T> -> seq<T>) {
    forall s: seq<T> {:trigger sorter(s)} :: Tournament(less, s) && Acyclic(less, s) ==> Arranges(less, s, sorter(s))
  }

  ghost predicate IgnoresArrival<T(!new)>(sorter: seq<T> -> seq<T>, s: seq<T>) {
    forall p: seq<T> :: multiset(p) == multiset(s) ==> sorter(p) == sorter(s)
  }

  ghost function InsertionSorter<T>(less: (T, T) -> bool): seq<T> -> seq<T> {
    (s: seq<T>) => Sort(less, s)
  }

  lemma InsertionSorts<T(!new)>(less: (T, T) -> bool)
    ensures Sorts(less, InsertionSorter(less))
  {
    forall s: seq<T> | Tournament(less, s) && Acyclic(less, s) ensures Arranges(less, s, InsertionSorter(less)(s)) {
      SortContents(less, s);
      SortSettles(less, s);
    }
  }

  lemma SortedAlike<T(!new)>(less: (T, T) -> bool, sorter: seq<T> -> seq<T>, s: seq<T>)
    requires Tournament(less, s) && Acyclic(less, s) && Sorts(less, sorter)
    ensures IgnoresArrival(sorter, s)
  {
    forall p: seq<T> | multiset(p) == multiset(s) ensures sorter(p) == sorter(s) {
      TournamentRearranged(less, s, p);
      AcyclicRearranged(less, s, p);
      assert Arranges(less, p, sorter(p)) && Arranges(less, s, sorter(s));
      AcyclicSortUnique(less, s, sorter(p));
      AcyclicSortUnique(less, s, sorter(s));
    }
  }

  /** Every sorting procedure that keeps the promise ignores the arrival order of a batch exactly when no three
      elements form a cycle; for a batch with a cycle the promise alone does not settle the outcome. */
  lemma EverySortExactly<T(!new)>(less: (T, T) -> bool, s: seq<T>)
    requires Tournament(less, s)
    ensures (forall sorter: seq<T> -> seq<T> :: Sorts(less, sorter) ==> IgnoresArrival(sorter, s)) <==> Acyclic(less, s)
  {
    if Acyclic(less, s) {
      forall sorter: seq<T> -> seq<T> | Sorts(less, sorter) ensures IgnoresArrival(sorter, s) {
        SortedAlike(less, sorter, s);
      }
    } else {
      InsertionSorts(less);
      ArrivalIndependence(less, s);
      var sorter := InsertionSorter(less);
      if IgnoresArrival(sorter, s) {
        forall p: seq<T> | multiset(p) == multiset(s) ensures Sort(less, p) == Sort(less, s) {
          assert sorter(p) == sorter(s);
        }
        assert false;
      }
    }
  }
}
