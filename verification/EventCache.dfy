/**
 The bounded cache of operational events. Threads reserve sequence numbers before they take the cache
 lock, so events arrive in any order; the cache holds the newest ones all the same.
 */
module EventCache {
  datatype Event = Event(sequence: nat, text: string)

  ghost predicate Sorted(q: seq<Event>) {
    forall i, j :: 0 <= i < j < |q| ==> q[i].sequence < q[j].sequence
  }

  /** Index of the first event with a greater sequence. */
  function UpperBound(q: seq<Event>, sequence: nat): (p: nat)
    ensures p <= |q|
  {
    if q == [] || sequence < q[0].sequence then 0 else 1 + UpperBound(q[1..], sequence)
  }

  function Newest(q: seq<Event>, capacity: nat): seq<Event> {
    if |q| <= capacity then q else q[|q| - capacity..]
  }

  function Inserted(q: seq<Event>, event: Event, capacity: nat): seq<Event> {
    var p := UpperBound(q, event.sequence);
    Newest(Placed(q, p, event), capacity)
  }

  lemma {:induction false} UpperBoundExactly(q: seq<Event>, sequence: nat, p: nat)
    requires Sorted(q) && p <= |q|
    requires forall i :: 0 <= i < p ==> q[i].sequence <= sequence
    requires p < |q| ==> sequence < q[p].sequence
    ensures p == UpperBound(q, sequence)
  {
    if p > 0 {
      UpperBoundExactly(q[1..], sequence, p - 1);
    }
  }

  /** Binary search for the place, insertion, and removal of the oldest events beyond the capacity. */
  method Insert(q: seq<Event>, event: Event, capacity: nat) returns (r: seq<Event>)
    requires Sorted(q)
    ensures r == Inserted(q, event, capacity)
  {
    var low, high := 0, |q|;
    while low < high
      invariant 0 <= low <= high <= |q|
      invariant forall i :: 0 <= i < low ==> q[i].sequence <= event.sequence
      invariant forall i :: high <= i < |q| ==> event.sequence < q[i].sequence
    {
      var middle := (low + high) / 2;
      if event.sequence < q[middle].sequence {
        high := middle;
      } else {
        low := middle + 1;
      }
    }
    UpperBoundExactly(q, event.sequence, low);
    r := q[..low] + [event] + q[low..];
    ghost var whole := r;
    while |r| > capacity
      invariant |r| <= |whole| && r == whole[|whole| - |r|..]
      invariant |r| >= capacity || r == whole
    {
      r := r[1..];
    }
  }

  /** The cache after a sequence of arrivals. */
  function Cache(arrivals: seq<Event>, capacity: nat): seq<Event> {
    if arrivals == [] then [] else Inserted(Cache(arrivals[..|arrivals| - 1], capacity), arrivals[|arrivals| - 1], capacity)
  }

  /**
   A cache of a set of events: sorted, within its capacity, complete unless full, and nothing left out
   is newer than anything kept.
   */
  ghost predicate HoldsNewest(q: seq<Event>, events: set<Event>, capacity: nat) {
    && Sorted(q) && (forall i :: 0 <= i < |q| ==> q[i] in events) && |q| <= capacity
    && (|q| < capacity ==> forall e :: e in events ==> e in q)
    && (forall e, i :: e in events && e !in q && 0 <= i < |q| ==> e.sequence < q[i].sequence)
  }

  lemma {:induction false} UpperBoundSplits(q: seq<Event>, sequence: nat)
    requires Sorted(q)
    ensures var p := UpperBound(q, sequence);
            && (forall i :: 0 <= i < p ==> q[i].sequence <= sequence)
            && (forall i :: p <= i < |q| ==> sequence < q[i].sequence)
  {
    if q != [] && !(sequence < q[0].sequence) {
      UpperBoundSplits(q[1..], sequence);
      var p := UpperBound(q, sequence);
      forall i | 0 <= i < |q|
        ensures i < p ==> q[i].sequence <= sequence
        ensures p <= i ==> sequence < q[i].sequence
      {
        if i > 0 {
          assert q[i] == q[1..][i - 1];
        }
      }
    }
  }

  function Placed(q: seq<Event>, p: nat, event: Event): (r: seq<Event>)
    requires p <= |q|
    ensures |r| == |q| + 1
  {
    q[..p] + [event] + q[p..]
  }

  lemma PlacedAt(q: seq<Event>, p: nat, event: Event, i: nat)
    requires p <= |q| && i <= |q|
    ensures Placed(q, p, event)[i] == if i < p then q[i] else if i == p then event else q[i - 1]
  {
  }

  /** The place found keeps the order, as no sequence is used twice. */
  lemma InsertedSorted(q: seq<Event>, event: Event)
    requires Sorted(q) && forall i :: 0 <= i < |q| ==> q[i].sequence != event.sequence
    ensures Sorted(Placed(q, UpperBound(q, event.sequence), event))
  {
    hide Placed, UpperBound;
    UpperBoundSplits(q, event.sequence);
    var p := UpperBound(q, event.sequence);
    forall i, j | 0 <= i < j <= |q|
      ensures Placed(q, p, event)[i].sequence < Placed(q, p, event)[j].sequence
    {
      PlacedAt(q, p, event, i);
      PlacedAt(q, p, event, j);
    }
  }

  lemma PlacedHolds(q: seq<Event>, p: nat, event: Event)
    requires p <= |q|
    ensures var placed := Placed(q, p, event);
            && event in placed && (forall i :: 0 <= i < |q| ==> q[i] in placed)
            && (forall i :: 0 <= i < |placed| ==> placed[i] == event || placed[i] in q)
  {
    hide Placed;
    var placed := Placed(q, p, event);
    PlacedAt(q, p, event, p);
    forall i | 0 <= i < |q|
      ensures q[i] in placed
    {
      PlacedAt(q, p, event, if i < p then i else i + 1);
      assert placed[if i < p then i else i + 1] == q[i];
    }
    forall i | 0 <= i < |placed| && placed[i] != event
      ensures placed[i] in q
    {
      PlacedAt(q, p, event, i);
    }
  }

  lemma RoomForOneMore(q: seq<Event>, events: set<Event>, event: Event, capacity: nat)
    requires HoldsNewest(q, events, capacity) && |q| < capacity && forall e :: e in events ==> e.sequence != event.sequence
    ensures HoldsNewest(Inserted(q, event, capacity), events + {event}, capacity)
  {
    hide Placed, UpperBound;
    InsertedSorted(q, event);
    PlacedHolds(q, UpperBound(q, event.sequence), event);
    forall e | e in events
      ensures e in q
    {
    }
  }

  /** A full cache drops its oldest event for a newer one, and leaves an event older than all of them out. */
  lemma OldestGivesWay(q: seq<Event>, events: set<Event>, event: Event, capacity: nat)
    requires HoldsNewest(q, events, capacity) && |q| == capacity && forall e :: e in events ==> e.sequence != event.sequence
    ensures HoldsNewest(Inserted(q, event, capacity), events + {event}, capacity)
  {
    hide HoldsNewest, Placed;
    CacheIsSorted(q, events, capacity);
    UpperBoundSplits(q, event.sequence);
    var p := UpperBound(q, event.sequence);
    assert Placed(q, p, event)[1..] == Inserted(q, event, capacity) by { NewestOfPlaced(q, p, event); }
    if p == 0 {
      assert Placed(q, p, event)[1..] == q by { PlacedFirst(q, event); }
      EventLeftOut(q, events, event, capacity);
    } else {
      FirstGivesWay(q, events, event, capacity, p);
    }
  }

  lemma CacheIsSorted(q: seq<Event>, events: set<Event>, capacity: nat)
    requires HoldsNewest(q, events, capacity)
    ensures Sorted(q)
  {
  }

  lemma NewestOfPlaced(q: seq<Event>, p: nat, event: Event)
    requires p <= |q|
    ensures Newest(Placed(q, p, event), |q|) == Placed(q, p, event)[1..]
  {
  }

  lemma PlacedFirst(q: seq<Event>, event: Event)
    ensures Placed(q, 0, event)[1..] == q
  {
  }

  lemma EventLeftOut(q: seq<Event>, events: set<Event>, event: Event, capacity: nat)
    requires HoldsNewest(q, events, capacity) && |q| == capacity
    requires forall i :: 0 <= i < |q| ==> event.sequence < q[i].sequence
    ensures HoldsNewest(q, events + {event}, capacity)
  {
  }

  /** Dropping the first of the new ones keeps the event and all of the old ones but the first. */
  lemma WithoutFirst(q: seq<Event>, p: nat, event: Event)
    requires 0 < p <= |q|
    ensures var kept := Placed(q, p, event)[1..];
            && event in kept && (forall i :: 0 < i < |q| ==> q[i] in kept)
            && (forall i :: 0 <= i < |kept| ==> kept[i] == event || kept[i] in q[1..])
  {
    hide Placed;
    var kept := Placed(q, p, event)[1..];
    PlacedAt(q, p, event, p);
    assert kept[p - 1] == event;
    forall i | 0 < i < |q|
      ensures q[i] in kept
    {
      PlacedAt(q, p, event, if i < p then i else i + 1);
      assert kept[if i < p then i - 1 else i] == q[i];
    }
    forall i | 0 <= i < |kept| && kept[i] != event
      ensures kept[i] in q[1..]
    {
      PlacedAt(q, p, event, i + 1);
      assert kept[i] == q[1..][if i + 1 < p then i else i - 1];
    }
  }

  lemma FirstGivesWay(q: seq<Event>, events: set<Event>, event: Event, capacity: nat, p: nat)
    requires HoldsNewest(q, events, capacity) && |q| == capacity && p == UpperBound(q, event.sequence) > 0
    requires forall e :: e in events ==> e.sequence != event.sequence
    ensures HoldsNewest(Placed(q, p, event)[1..], events + {event}, capacity)
  {
    hide Placed, UpperBound;
    InsertedSorted(q, event);
    UpperBoundSplits(q, event.sequence);
    WithoutFirst(q, p, event);
    var kept := Placed(q, p, event)[1..];
    forall e | e in events + {event} && e !in kept
      ensures e.sequence <= q[0].sequence
    {
    }
    forall i | 0 <= i < |kept|
      ensures kept[i] in events + {event} && q[0].sequence < kept[i].sequence
    {
      assert q[0].sequence < event.sequence;
      assert forall x :: x in q[1..] ==> x in events && q[0].sequence < x.sequence;
    }
  }

  lemma {:induction false} CacheHoldsNewest(arrivals: seq<Event>, capacity: nat)
    requires Distinct(arrivals)
    ensures HoldsNewest(Cache(arrivals, capacity), Arrived(arrivals), capacity)
  {
    hide Inserted, HoldsNewest;
    if arrivals == [] {
      EmptyHoldsNewest(capacity);
    } else {
      var before, last := arrivals[..|arrivals| - 1], arrivals[|arrivals| - 1];
      CacheHoldsNewest(before, capacity);
      ArrivedNext(arrivals);
      var q := Cache(before, capacity);
      WithinCapacity(q, Arrived(before), capacity);
      if |q| < capacity {
        RoomForOneMore(q, Arrived(before), last, capacity);
      } else {
        OldestGivesWay(q, Arrived(before), last, capacity);
      }
    }
  }

  ghost predicate Distinct(arrivals: seq<Event>) {
    forall i, j :: 0 <= i < j < |arrivals| ==> arrivals[i].sequence != arrivals[j].sequence
  }

  ghost function Arrived(arrivals: seq<Event>): set<Event> {
    set e | e in arrivals
  }

  lemma ArrivedNext(arrivals: seq<Event>)
    requires Distinct(arrivals) && arrivals != []
    ensures var before, last := arrivals[..|arrivals| - 1], arrivals[|arrivals| - 1];
            && Arrived(arrivals) == Arrived(before) + {last}
            && forall e :: e in Arrived(before) ==> e.sequence != last.sequence
  {
    assert arrivals == arrivals[..|arrivals| - 1] + [arrivals[|arrivals| - 1]];
  }

  lemma EmptyHoldsNewest(capacity: nat)
    ensures HoldsNewest([], Arrived([]), capacity)
  {
  }

  lemma WithinCapacity(q: seq<Event>, events: set<Event>, capacity: nat)
    requires HoldsNewest(q, events, capacity)
    ensures |q| <= capacity
  {
  }

  // ----- there is only one such cache -----

  lemma {:induction false} SortedSize(q: seq<Event>)
    requires Sorted(q)
    ensures |Arrived(q)| == |q|
  {
    if q != [] {
      var before, last := q[..|q| - 1], q[|q| - 1];
      SortedSize(before);
      ArrivedNext(q);
      assert last !in Arrived(before);
    }
  }

  /** Two caches of the same events cannot differ in what they hold. */
  lemma SameHeld(a: seq<Event>, b: seq<Event>, events: set<Event>, capacity: nat)
    requires HoldsNewest(a, events, capacity) && HoldsNewest(b, events, capacity)
    ensures Arrived(a) <= Arrived(b)
  {
    if x :| x in Arrived(a) && x !in Arrived(b) {
      SortedSize(a);
      SortedSize(b);
      if Arrived(b) <= Arrived(a) - {x} {
        Smaller(Arrived(b), Arrived(a) - {x});
        assert false;
      } else {
        assert false;
      }
    }
  }

  lemma {:induction false} Smaller(a: set<Event>, b: set<Event>)
    requires a <= b
    ensures |a| <= |b|
  {
    assert b == a + (b - a);
  }

  lemma SameLast(a: seq<Event>, b: seq<Event>)
    requires Sorted(a) && Sorted(b) && Arrived(a) == Arrived(b) && a != [] && b != []
    ensures a[|a| - 1] == b[|b| - 1]
  {
    var x, y := a[|a| - 1], b[|b| - 1];
    assert x in Arrived(b) && y in Arrived(a);
    var i :| 0 <= i < |b| && b[i] == x;
    var j :| 0 <= j < |a| && a[j] == y;
  }

  lemma {:induction false} SortedIsDetermined(a: seq<Event>, b: seq<Event>)
    requires Sorted(a) && Sorted(b) && Arrived(a) == Arrived(b)
    ensures a == b
    decreases |a|
  {
    hide Arrived;
    SortedSize(a);
    SortedSize(b);
    if a != [] {
      var n := |a| - 1;
      SameLast(a, b);
      assert Arrived(a[..n]) == Arrived(b[..n]) by { ArrivedBefore(a, b); }
      SortedIsDetermined(a[..n], b[..n]);
      assert a == a[..n] + [a[n]] && b == b[..n] + [b[n]];
    }
  }

  lemma ArrivedBefore(a: seq<Event>, b: seq<Event>)
    requires Sorted(a) && Sorted(b) && Arrived(a) == Arrived(b) && a != [] && b != [] && a[|a| - 1] == b[|b| - 1]
    ensures Arrived(a[..|a| - 1]) == Arrived(b[..|b| - 1])
  {
    ArrivedNext(a);
    ArrivedNext(b);
    assert Arrived(a[..|a| - 1]) == Arrived(a) - {a[|a| - 1]};
    assert Arrived(b[..|b| - 1]) == Arrived(b) - {b[|b| - 1]};
  }

  /**
   In whatever order the events of a set arrive, the cache ends up the same: the newest ones, oldest
   first, as many as fit.
   */
  lemma ArrivalOrderIsIrrelevant(arrivals: seq<Event>, others: seq<Event>, capacity: nat)
    requires Distinct(arrivals) && Distinct(others) && Arrived(arrivals) == Arrived(others)
    ensures Cache(arrivals, capacity) == Cache(others, capacity)
    ensures HoldsNewest(Cache(arrivals, capacity), Arrived(arrivals), capacity)
  {
    hide Cache;
    CacheHoldsNewest(arrivals, capacity);
    CacheHoldsNewest(others, capacity);
    SameHeld(Cache(arrivals, capacity), Cache(others, capacity), Arrived(arrivals), capacity);
    SameHeld(Cache(others, capacity), Cache(arrivals, capacity), Arrived(arrivals), capacity);
    SortedIsDetermined(Cache(arrivals, capacity), Cache(others, capacity));
  }
}
