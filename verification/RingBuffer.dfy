/**
 The ring's operations as code over its fields, for callers that do not overlap: a bounded queue.
 The interleavings of overlapping callers are the subject of MpscRing.
 */
module RingBuffer {
  import opened Wrappers
  import opened Laps
  import opened MpscRing

  class Buffer<T> {
    var slots: array<Slot<T>>
    var slotPermits: nat
    var itemPermits: nat
    var tail: nat
    var head: nat
    ghost var contents: seq<T>

    /** Stored values lie between head and tail under published stamps; all other slots wait for their next position. */
    ghost predicate Valid()
      reads this, slots
    {
      && slots.Length > 0 && tail == head + |contents| && |contents| <= slots.Length
      && slotPermits + |contents| == slots.Length && |contents| <= itemPermits
      && (forall p :: head <= p < tail ==> slots[Index(p, slots.Length)] == Slot(p + 1, Some(contents[p - head])))
      && (forall p :: tail <= p < head + slots.Length ==> slots[Index(p, slots.Length)] == Slot(p, None))
    }

    constructor (capacity: nat)
      requires capacity > 0
      ensures Valid() && fresh(slots) && slots.Length == capacity && contents == [] && itemPermits == 0
    {
      slots := new Slot<T>[capacity]((i: nat) => Slot(i, None));
      slotPermits, itemPermits, tail, head := capacity, 0, 0, 0;
      contents := [];
      new;
      forall p | 0 <= p < capacity
        ensures slots[Index(p, capacity)] == Slot(p, None)
      {
        IndexIsSelf(p, capacity);
      }
    }

    /** Stores the value behind all others, or reports a full ring; the spin loop never waits. */
    method TryPush(value: T) returns (pushed: bool)
      requires Valid()
      modifies this, slots
      ensures Valid() && slots == old(slots)
      ensures pushed == (|old(contents)| < slots.Length)
      ensures contents == if pushed then old(contents) + [value] else old(contents)
      ensures itemPermits == old(itemPermits) + One(pushed)
    {
      if slotPermits == 0 {
        return false;
      }
      slotPermits := slotPermits - 1;
      var pos := tail;
      tail := tail + 1;
      var i := Index(pos, slots.Length);
      assert slots[i].stamp == pos;   // so the spin loop ends at its first look
      OtherSlots(pos);
      slots[i] := slots[i].(value := Some(value));
      slots[i] := slots[i].(stamp := pos + 1);
      contents := contents + [value];
      itemPermits := itemPermits + 1;
      return true;
    }

    /** Takes the oldest value. Without one it returns nothing, and a sentinel's permit is used up. */
    method TryPop() returns (value: Option<T>)
      requires Valid()
      modifies this, slots
      ensures Valid() && slots == old(slots)
      ensures old(contents) == [] ==> value == None && contents == [] && itemPermits == old(itemPermits) - One(old(itemPermits) > 0)
      ensures old(contents) != [] ==> value == Some(old(contents)[0]) && contents == old(contents)[1..]
                                      && itemPermits == old(itemPermits) - 1
    {
      if itemPermits == 0 {
        return None;
      }
      itemPermits := itemPermits - 1;
      var i := Index(head, slots.Length);
      if slots[i].stamp != head + 1 {
        return None;
      }
      value := Take();
    }

    /** Moves the head's value out and recycles its slot for the next lap. */
    method Take() returns (value: Option<T>)
      requires slots.Length > 0 && contents != [] && tail == head + |contents| && |contents| <= slots.Length
      requires slotPermits + |contents| == slots.Length && |contents| <= itemPermits + 1
      requires forall p :: head <= p < tail ==> slots[Index(p, slots.Length)] == Slot(p + 1, Some(contents[p - head]))
      requires forall p :: tail <= p < head + slots.Length ==> slots[Index(p, slots.Length)] == Slot(p, None)
      modifies this, slots
      ensures Valid() && slots == old(slots)
      ensures value == Some(old(contents)[0]) && contents == old(contents)[1..] && itemPermits == old(itemPermits)
    {
      var pos := head;
      var i := Index(pos, slots.Length);
      value := slots[i].value;
      OtherSlots(pos);
      IndexNextLap(pos, slots.Length);
      slots[i] := slots[i].(value := None);
      slots[i] := slots[i].(stamp := pos + slots.Length);
      head := head + 1;
      contents := contents[1..];
      slotPermits := slotPermits + 1;
    }

    /** The blocking form, once a permit is there: it takes a value unless it was woken to stop. */
    method PopItem(stopRequested: bool) returns (value: Option<T>)
      requires Valid() && itemPermits > 0 && (contents != [] || stopRequested)
      modifies this, slots
      ensures Valid() && slots == old(slots) && itemPermits == old(itemPermits) - 1
      ensures old(contents) == [] ==> value == None && contents == []
      ensures old(contents) != [] ==> value == Some(old(contents)[0]) && contents == old(contents)[1..]
    {
      itemPermits := itemPermits - 1;
      var i := Index(head, slots.Length);
      if slots[i].stamp != head + 1 {
        return None;
      }
      value := Take();
    }

    method WakeConsumer()
      requires Valid()
      modifies this`itemPermits
      ensures Valid() && itemPermits == old(itemPermits) + 1
    {
      itemPermits := itemPermits + 1;
    }

    /** No other position of the current lap shares a slot with `pos`. */
    lemma OtherSlots(pos: nat)
      requires slots.Length > 0 && head <= pos < head + slots.Length
      ensures forall p :: head <= p < head + slots.Length && p != pos ==> Index(p, slots.Length) != Index(pos, slots.Length)
    {
      forall p | head <= p < head + slots.Length && p != pos
        ensures Index(p, slots.Length) != Index(pos, slots.Length)
      {
        DistinctPositions(p, pos, slots.Length);
      }
    }
  }

  lemma IndexIsSelf(p: nat, capacity: nat)
    requires p < capacity
    ensures Index(p, capacity) == p
  {
    DivisionIsUnique(p, capacity, 0, p);
  }
}
