/**
 The bounded multi-producer, single-consumer ring. Every atomic operation and every access to a
 slot is one step; any number of producers interleave with one consumer. Positions grow without
 bound and position p lives in slot p mod capacity.
 */
module MpscRing {
  import opened Wrappers
  import opened Laps

  datatype Slot<T> = Slot(stamp: nat, value: Option<T>)

  /** A producer inside try_push; a thread outside has no stage. */
  datatype Producer<T> =
    | Acquired(value: T)             // holds a slot permit
    | Claimed(pos: nat, value: T)    // took a position, waits for its slot to be recycled
    | Ready(pos: nat, value: T)      // saw its stamp
    | Written(pos: nat)              // stored the value
    | Published                      // stored the stamp, still has to release an item permit

  datatype Consumer =
    | Idle
    | Popping                        // pop_item holds an item permit
    | Missed                         // pop_item saw another stamp, looks at the stop token
    | TryPopping                     // try_pop holds an item permit
    | Matched                        // saw the stamp of the head position
    | Taken                          // moved the value out
    | Recycled                       // stored the stamp of the next lap
    | Advanced                       // moved the head, still has to release a slot permit

  datatype Ring<T> = Ring(
    slots: seq<Slot<T>>,
    slotPermits: nat,
    itemPermits: nat,
    tail: nat,
    head: nat,
    producers: map<nat, Producer<T>>,
    consumer: Consumer,
    stopRequested: bool,
    claimed: seq<T>,                 // every value that got a position, in position order
    popped: seq<T>,                  // every value the consumer took, in order
    owner: map<nat, nat>,            // the thread that still has to publish a position
    wakes: nat,                      // stop sentinels released
    abandoned: nat                   // item permits the consumer used up without taking a value
  )

  function Start<T>(capacity: nat): Ring<T> {
    Ring(seq(capacity, (i: nat) => Slot(i, None)), capacity, 0, 0, 0, map[], Idle, false, [], [], map[], 0, 0)
  }

  function SlotOf<T>(s: Ring<T>, p: nat): Slot<T>
    requires |s.slots| > 0
  {
    s.slots[Index(p, |s.slots|)]
  }

  function SetSlot<T>(s: Ring<T>, p: nat, slot: Slot<T>): Ring<T>
    requires |s.slots| > 0
  {
    s.(slots := s.slots[Index(p, |s.slots|) := slot])
  }

  function Stage<T>(s: Ring<T>, t: nat, stage: Producer<T>): Ring<T> {
    s.(producers := s.producers[t := stage])
  }

  // ----- producer steps -----

  /** try_push gives up at once when no slot permit is left. */
  function AcquireSlot<T>(s: Ring<T>, t: nat, value: T): Ring<T> {
    if t in s.producers || s.slotPermits == 0 then s
    else Stage(s, t, Acquired(value)).(slotPermits := s.slotPermits - 1)
  }

  function Claim<T>(s: Ring<T>, t: nat, value: T): Ring<T> {
    Stage(s, t, Claimed(s.tail, value)).(tail := s.tail + 1, claimed := s.claimed + [value],
                                         owner := s.owner[s.tail := t])
  }

  /** One turn of the producer's spin loop. */
  function AwaitTurn<T>(s: Ring<T>, t: nat, pos: nat, value: T): Ring<T>
    requires |s.slots| > 0
  {
    if SlotOf(s, pos).stamp == pos then Stage(s, t, Ready(pos, value)) else s
  }

  function Write<T>(s: Ring<T>, t: nat, pos: nat, value: T): Ring<T>
    requires |s.slots| > 0
  {
    Stage(SetSlot(s, pos, SlotOf(s, pos).(value := Some(value))), t, Written(pos))
  }

  function Publish<T>(s: Ring<T>, t: nat, pos: nat): Ring<T>
    requires |s.slots| > 0
  {
    Stage(SetSlot(s, pos, SlotOf(s, pos).(stamp := pos + 1)), t, Published).(owner := s.owner - {pos})
  }

  function ReleaseItem<T>(s: Ring<T>, t: nat): Ring<T> {
    s.(producers := s.producers - {t}, itemPermits := s.itemPermits + 1)
  }

  function ProducerStep<T>(s: Ring<T>, t: nat): Ring<T>
    requires |s.slots| > 0
  {
    if t !in s.producers then s
    else
      match s.producers[t]
      case Acquired(value) => Claim(s, t, value)
      case Claimed(pos, value) => AwaitTurn(s, t, pos, value)
      case Ready(pos, value) => Write(s, t, pos, value)
      case Written(pos) => Publish(s, t, pos)
      case Published => ReleaseItem(s, t)
  }

  // ----- consumer steps -----

  function AcquireItem<T>(s: Ring<T>, blocking: bool): Ring<T> {
    if s.consumer != Idle || s.itemPermits == 0 then s
    else s.(consumer := if blocking then Popping else TryPopping, itemPermits := s.itemPermits - 1)
  }

  function Abandon<T>(s: Ring<T>): Ring<T> {
    s.(consumer := Idle, abandoned := s.abandoned + 1)
  }

  function ConsumerStep<T>(s: Ring<T>): Ring<T>
    requires |s.slots| > 0
  {
    var slot := SlotOf(s, s.head);
    match s.consumer
    case Idle => s
    case Popping => s.(consumer := if slot.stamp == s.head + 1 then Matched else Missed)
    case Missed => if s.stopRequested then Abandon(s) else s.(consumer := Popping)
    case TryPopping => if slot.stamp == s.head + 1 then s.(consumer := Matched) else Abandon(s)
    case Matched =>
      (match slot.value
       case None => s   // moving out of an empty optional is undefined; no run gets here
       case Some(value) =>
         SetSlot(s, s.head, slot.(value := None)).(consumer := Taken, popped := s.popped + [value]))
    case Taken => SetSlot(s, s.head, slot.(stamp := s.head + |s.slots|)).(consumer := Recycled)
    case Recycled => s.(head := s.head + 1, consumer := Advanced)
    case Advanced => s.(slotPermits := s.slotPermits + 1, consumer := Idle)
  }

  // ----- runs -----

  datatype Step<T> =
    | Enter(t: nat, value: T)
    | Produce(t: nat)
    | Pop
    | TryPop
    | Consume
    | WakeConsumer
    | RequestStop

  function Exec<T>(s: Ring<T>, step: Step<T>): Ring<T>
    requires |s.slots| > 0
  {
    match step
    case Enter(t, value) => AcquireSlot(s, t, value)
    case Produce(t) => ProducerStep(s, t)
    case Pop => AcquireItem(s, true)
    case TryPop => AcquireItem(s, false)
    case Consume => ConsumerStep(s)
    case WakeConsumer => s.(itemPermits := s.itemPermits + 1, wakes := s.wakes + 1)
    case RequestStop => s.(stopRequested := true)
  }

  function After<T>(capacity: nat, steps: seq<Step<T>>): (s: Ring<T>)
    requires capacity > 0
    ensures |s.slots| == capacity
  {
    if steps == [] then Start(capacity) else Exec(After(capacity, steps[..|steps| - 1]), steps[|steps| - 1])
  }

  // ----- the invariant -----

  predicate HasPosition<T>(p: Producer<T>) {
    p.Claimed? || p.Ready? || p.Written?
  }

  ghost function Acquirers<T>(producers: map<nat, Producer<T>>): set<nat> {
    set t | t in producers && producers[t].Acquired?
  }

  /** Producers that hold a position, or published one without having released its item permit. */
  ghost function Pending<T>(producers: map<nat, Producer<T>>): set<nat> {
    set t | t in producers && !producers[t].Acquired?
  }

  /** The consumer is between taking the head's value and moving the head. */
  predicate InHand(c: Consumer) {
    c.Taken? || c.Recycled?
  }

  /** The consumer used up an item permit it has not accounted for yet. */
  predicate HoldsItem(c: Consumer) {
    c.Popping? || c.Missed? || c.TryPopping? || c.Matched?
  }

  ghost predicate Ordered<T>(s: Ring<T>) {
    && |s.slots| > 0 && s.tail == |s.claimed| && s.head <= s.tail <= s.head + |s.slots|
    && |s.popped| == s.head + One(InHand(s.consumer)) <= s.tail
    && s.popped == s.claimed[..|s.popped|]
  }

  ghost predicate Owned<T>(s: Ring<T>) {
    && (forall t :: t in s.producers && HasPosition(s.producers[t])
                    ==> s.producers[t].pos in s.owner && s.owner[s.producers[t].pos] == t)
    && (forall p :: p in s.owner ==> s.head <= p < s.tail && s.owner[p] in s.producers
                                     && HasPosition(s.producers[s.owner[p]]) && s.producers[s.owner[p]].pos == p)
    && (s.consumer.Matched? || InHand(s.consumer) ==> s.head < s.tail && s.head !in s.owner)
  }

  /** What the slot of a position in the current lap must hold. */
  ghost predicate SlotOk<T>(s: Ring<T>, p: nat)
    requires Ordered(s) && Owned(s) && s.head <= p < s.head + |s.slots|
  {
    var slot := SlotOf(s, p);
    if p >= s.tail then slot == Slot(p, None)
    else if p in s.owner then
      var stage := s.producers[s.owner[p]];
      if stage.Written? then slot == Slot(p, Some(s.claimed[p]))
      else slot == Slot(p, None) && stage.value == s.claimed[p]
    else if p == s.head && s.consumer.Taken? then slot == Slot(p + 1, None)
    else if p == s.head && s.consumer.Recycled? then slot == Slot(p + |s.slots|, None)
    else slot == Slot(p + 1, Some(s.claimed[p]))
  }

  ghost predicate Counted<T>(s: Ring<T>) {
    && s.slotPermits + |Acquirers(s.producers)| + (s.tail - s.head) + One(s.consumer.Advanced?) == |s.slots|
    && s.itemPermits + |s.popped| + s.abandoned + One(HoldsItem(s.consumer)) + |Pending(s.producers)|
       == s.tail + s.wakes
  }

  ghost predicate Safe<T>(s: Ring<T>) {
    && Ordered(s) && Owned(s)
    && (forall p :: s.head <= p < s.head + |s.slots| ==> SlotOk(s, p))
    && Counted(s)
  }

  // ----- tools -----

  /** Writing one slot of the window leaves the slots of all its other positions alone. */
  lemma SlotFrame<T>(s: Ring<T>, p: nat, slot: Slot<T>, q: nat)
    requires |s.slots| > 0 && p < s.head + |s.slots| && q < s.head + |s.slots| && s.head <= p && s.head <= q
    ensures SlotOf(SetSlot(s, p, slot), q) == if p == q then slot else SlotOf(s, q)
  {
    if p < q {
      IndexInjective(p, q, |s.slots|);
    } else if q < p {
      IndexInjective(q, p, |s.slots|);
    }
  }

  // ----- counting threads -----

  lemma Joins(threads: set<nat>, after: set<nat>, t: nat, was: bool, now: bool)
    requires was == (t in threads) && now == (t in after) && after - {t} == threads - {t}
    ensures |after| + One(was) == |threads| + One(now)
  {
    assert threads == threads - {t} + if was then {t} else {};
    assert after == after - {t} + if now then {t} else {};
  }

  predicate Acquiring<T>(producers: map<nat, Producer<T>>, t: nat) {
    t in producers && producers[t].Acquired?
  }

  predicate Pends<T>(producers: map<nat, Producer<T>>, t: nat) {
    t in producers && !producers[t].Acquired?
  }

  /** Only the moving thread can change its group. */
  lemma ThreadCounts<T>(before: map<nat, Producer<T>>, after: map<nat, Producer<T>>, t: nat)
    requires after - {t} == before - {t}
    ensures |Acquirers(after)| + One(Acquiring(before, t)) == |Acquirers(before)| + One(Acquiring(after, t))
    ensures |Pending(after)| + One(Pends(before, t)) == |Pending(before)| + One(Pends(after, t))
  {
    hide One;
    forall x | x != t
      ensures (x in before) == (x in after) && (x in before ==> before[x] == after[x])
    {
      assert (x in before) == (x in before - {t});
      assert (x in after) == (x in after - {t});
    }
    Joins(Acquirers(before), Acquirers(after), t, Acquiring(before, t), Acquiring(after, t));
    Joins(Pending(before), Pending(after), t, Pends(before, t), Pends(after, t));
  }

  // ----- every step keeps the invariant -----

  /** Everything but the counts: the part of the invariant that tells positions and slots apart. */
  ghost predicate Arranged<T>(s: Ring<T>) {
    && Ordered(s) && Owned(s)
    && forall p :: s.head <= p < s.head + |s.slots| ==> SlotOk(s, p)
  }

  lemma AcquireSlotSafe<T>(s: Ring<T>, t: nat, value: T)
    requires Safe(s)
    ensures Safe(AcquireSlot(s, t, value))
  {
    hide Index, Acquirers, Pending;
    var s' := AcquireSlot(s, t, value);
    if t !in s.producers && s.slotPermits > 0 {
      assert s'.producers - {t} == s.producers - {t};
      ThreadCounts(s.producers, s'.producers, t);
      assert Arranged(s') by { AcquireSlotArranged(s, t, value); }
    }
  }

  lemma AcquireSlotArranged<T>(s: Ring<T>, t: nat, value: T)
    requires Arranged(s) && t !in s.producers && s.slotPermits > 0
    ensures Arranged(AcquireSlot(s, t, value))
  {
    hide Index;
    var s' := AcquireSlot(s, t, value);
    forall p | s'.head <= p < s'.head + |s'.slots|
      ensures SlotOk(s', p)
    {
      assert SlotOk(s, p);
    }
  }

  lemma ClaimArranged<T>(s: Ring<T>, t: nat, value: T)
    requires Arranged(s) && t in s.producers && s.producers[t] == Acquired(value) && s.tail < s.head + |s.slots|
    ensures Arranged(Claim(s, t, value))
  {
    hide Index;
    var s' := Claim(s, t, value);
    forall p | s'.head <= p < s'.head + |s'.slots|
      ensures SlotOk(s', p)
    {
      assert SlotOk(s, p);
    }
  }

  lemma ClaimSafe<T>(s: Ring<T>, t: nat, value: T)
    requires Safe(s) && t in s.producers && s.producers[t] == Acquired(value)
    ensures Safe(Claim(s, t, value))
  {
    hide Index, Acquirers, Pending, SlotOk;
    var s' := Claim(s, t, value);
    assert s'.producers - {t} == s.producers - {t};
    ThreadCounts(s.producers, s'.producers, t);
    ClaimArranged(s, t, value);
  }

  /** A producer that moves on within try_push leaves every count alone. */
  lemma MoveKeepsCounts<T>(s: Ring<T>, s': Ring<T>, t: nat, stage: Producer<T>)
    requires Counted(s) && t in s.producers && !s.producers[t].Acquired? && !stage.Acquired?
    requires s'.producers == s.producers[t := stage] && |s'.slots| == |s.slots| && s'.consumer == s.consumer
    requires s'.slotPermits == s.slotPermits && s'.itemPermits == s.itemPermits && s'.popped == s.popped
    requires s'.tail == s.tail && s'.head == s.head && s'.wakes == s.wakes && s'.abandoned == s.abandoned
    ensures Counted(s')
  {
    hide Acquirers, Pending;
    assert s'.producers - {t} == s.producers - {t};
    ThreadCounts(s.producers, s'.producers, t);
  }

  /** The spin loop of try_push succeeds at its first look, in every reachable state. */
  lemma AwaitTurnArranged<T>(s: Ring<T>, t: nat, pos: nat, value: T)
    requires Arranged(s) && t in s.producers && s.producers[t] == Claimed(pos, value)
    ensures Arranged(AwaitTurn(s, t, pos, value))
    ensures AwaitTurn(s, t, pos, value) == Stage(s, t, Ready(pos, value))
  {
    hide Index;
    var s' := AwaitTurn(s, t, pos, value);
    assert SlotOk(s, pos);
    forall p | s'.head <= p < s'.head + |s'.slots|
      ensures SlotOk(s', p)
    {
      assert SlotOk(s, p);
    }
  }

  lemma WriteArranged<T>(s: Ring<T>, t: nat, pos: nat, value: T)
    requires Arranged(s) && t in s.producers && s.producers[t] == Ready(pos, value)
    ensures Arranged(Write(s, t, pos, value))
  {
    hide Index;
    var s' := Write(s, t, pos, value);
    assert SlotOk(s, pos);
    forall p | s'.head <= p < s'.head + |s'.slots|
      ensures SlotOk(s', p)
    {
      assert SlotOk(s, p);
      SlotFrame(s, pos, Slot(pos, Some(value)), p);
    }
  }

  lemma PublishArranged<T>(s: Ring<T>, t: nat, pos: nat)
    requires Arranged(s) && t in s.producers && s.producers[t] == Written(pos)
    ensures Arranged(Publish(s, t, pos))
  {
    hide Index;
    var s' := Publish(s, t, pos);
    assert SlotOk(s, pos);
    forall p | s'.head <= p < s'.head + |s'.slots|
      ensures SlotOk(s', p)
    {
      assert SlotOk(s, p);
      SlotFrame(s, pos, Slot(pos + 1, Some(s.claimed[pos])), p);
    }
  }

  lemma ReleaseItemArranged<T>(s: Ring<T>, t: nat)
    requires Arranged(s) && t in s.producers && s.producers[t] == Published
    ensures Arranged(ReleaseItem(s, t))
  {
    hide Index;
    var s' := ReleaseItem(s, t);
    forall p | s'.head <= p < s'.head + |s'.slots|
      ensures SlotOk(s', p)
    {
      assert SlotOk(s, p);
    }
  }

  lemma ProducerStepSafe<T>(s: Ring<T>, t: nat)
    requires Safe(s)
    ensures Safe(ProducerStep(s, t))
  {
    hide Index, Acquirers, Pending, SlotOk, Owned, Counted;
    assert Arranged(s);
    if t in s.producers {
      var s' := ProducerStep(s, t);
      match s.producers[t]
      case Acquired(value) => ClaimSafe(s, t, value);
      case Claimed(pos, value) =>
        AwaitTurnArranged(s, t, pos, value);
        MoveKeepsCounts(s, s', t, Ready(pos, value));
      case Ready(pos, value) =>
        WriteArranged(s, t, pos, value);
        MoveKeepsCounts(s, s', t, Written(pos));
      case Written(pos) =>
        PublishArranged(s, t, pos);
        MoveKeepsCounts(s, s', t, Published);
      case Published =>
        ReleaseItemArranged(s, t);
        ReleaseItemCounts(s, t);
    }
  }

  lemma ReleaseItemCounts<T>(s: Ring<T>, t: nat)
    requires Counted(s) && t in s.producers && s.producers[t] == Published
    ensures Counted(ReleaseItem(s, t))
  {
    hide Acquirers, Pending;
    var s' := ReleaseItem(s, t);
    assert s'.producers - {t} == s.producers - {t};
    ThreadCounts(s.producers, s'.producers, t);
  }

  /** Positions, slots and owners are untouched, and the consumer holds no value before or after. */
  ghost predicate SamePlaces<T>(s: Ring<T>, s': Ring<T>) {
    && s'.slots == s.slots && s'.tail == s.tail && s'.head == s.head && s'.producers == s.producers
    && s'.claimed == s.claimed && s'.popped == s.popped && s'.owner == s.owner
    && !InHand(s.consumer) && !InHand(s'.consumer)
  }

  lemma SamePlacesArranged<T>(s: Ring<T>, s': Ring<T>)
    requires Arranged(s) && SamePlaces(s, s')
    requires s'.consumer.Matched? ==> s.consumer.Matched? || (s.head < s.tail && s.head !in s.owner)
    ensures Arranged(s')
  {
    hide Index;
    forall p | s'.head <= p < s'.head + |s'.slots|
      ensures SlotOk(s', p)
    {
      assert SlotOk(s, p);
    }
  }

  lemma TakeArranged<T>(s: Ring<T>)
    requires Arranged(s) && s.consumer.Matched?
    ensures Arranged(ConsumerStep(s)) && ConsumerStep(s).popped == s.popped + [s.claimed[s.head]]
    ensures ConsumerStep(s).consumer.Taken?
  {
    hide Index;
    var s' := ConsumerStep(s);
    assert SlotOk(s, s.head);
    assert s'.popped == s.claimed[..|s'.popped|];
    forall p | s'.head <= p < s'.head + |s'.slots|
      ensures SlotOk(s', p)
    {
      assert SlotOk(s, p);
      SlotFrame(s, s.head, Slot(s.head + 1, None), p);
    }
  }

  lemma RecycleArranged<T>(s: Ring<T>)
    requires Arranged(s) && s.consumer.Taken?
    ensures Arranged(ConsumerStep(s))
  {
    hide Index;
    var s' := ConsumerStep(s);
    assert SlotOk(s, s.head);
    forall p | s'.head <= p < s'.head + |s'.slots|
      ensures SlotOk(s', p)
    {
      assert SlotOk(s, p);
      SlotFrame(s, s.head, Slot(s.head + |s.slots|, None), p);
    }
  }

  lemma AdvanceArranged<T>(s: Ring<T>)
    requires Arranged(s) && s.consumer.Recycled?
    ensures Arranged(ConsumerStep(s))
  {
    hide Index;
    var s' := ConsumerStep(s);
    forall p | s'.head <= p < s'.head + |s'.slots|
      ensures SlotOk(s', p)
    {
      if p == s.head + |s.slots| {
        IndexNextLap(s.head, |s.slots|);
        assert SlotOk(s, s.head);
      } else {
        assert SlotOk(s, p);
      }
    }
  }

  lemma ConsumerStepSafe<T>(s: Ring<T>)
    requires Safe(s)
    ensures Safe(ConsumerStep(s))
  {
    hide Index, Acquirers, Pending, Owned, SlotOk;
    var s' := ConsumerStep(s);
    assert Arranged(s);
    match s.consumer
    case Matched => TakeArranged(s);
    case Taken => RecycleArranged(s);
    case Recycled => AdvanceArranged(s);
    case _ =>
      MatchedHeadIsPublished(s);
      SamePlacesArranged(s, s');
  }

  /** The stamp the consumer looks for is on the head's slot exactly when the head is published. */
  lemma MatchedHeadIsPublished<T>(s: Ring<T>)
    requires Arranged(s) && !InHand(s.consumer)
    ensures SlotOf(s, s.head).stamp == s.head + 1 <==> s.head < s.tail && s.head !in s.owner
  {
    hide Index;
    assert SlotOk(s, s.head);
  }

  lemma StartIsSafe<T>(capacity: nat)
    requires capacity > 0
    ensures Safe(Start<T>(capacity))
  {
    var s := Start<T>(capacity);
    assert Acquirers(s.producers) == {} && Pending(s.producers) == {};
    forall p | s.head <= p < s.head + |s.slots|
      ensures SlotOk(s, p)
    {
      assert p % capacity == p;
    }
  }

  lemma ExecSafe<T>(s: Ring<T>, step: Step<T>)
    requires Safe(s)
    ensures Safe(Exec(s, step))
  {
    hide Index, Acquirers, Pending, Owned, SlotOk;
    assert Arranged(s);
    match step
    case Enter(t, value) => AcquireSlotSafe(s, t, value);
    case Produce(t) => ProducerStepSafe(s, t);
    case Consume => ConsumerStepSafe(s);
    case Pop => AcquireItemSafe(s, true);
    case TryPop => AcquireItemSafe(s, false);
    case WakeConsumer => SignalArranged(s, Exec(s, step));
    case RequestStop => SignalArranged(s, Exec(s, step));
  }

  lemma AcquireItemSafe<T>(s: Ring<T>, blocking: bool)
    requires Safe(s)
    ensures Safe(AcquireItem(s, blocking))
  {
    hide Index, Acquirers, Pending, Owned, SlotOk;
    assert Arranged(s);
    if s.consumer == Idle {
      SamePlacesArranged(s, AcquireItem(s, blocking));
    }
  }

  /** Waking the consumer and requesting a stop touch no position. */
  lemma SignalArranged<T>(s: Ring<T>, s': Ring<T>)
    requires Arranged(s)
    requires s' == s.(itemPermits := s'.itemPermits, wakes := s'.wakes, stopRequested := s'.stopRequested)
    ensures Arranged(s')
  {
    hide Index;
    forall p | s'.head <= p < s'.head + |s'.slots|
      ensures SlotOk(s', p)
    {
      assert SlotOk(s, p);
    }
  }

  lemma {:induction false} EveryRunIsSafe<T>(capacity: nat, steps: seq<Step<T>>)
    requires capacity > 0
    ensures Safe(After(capacity, steps))
  {
    hide Safe, Exec, Start;
    if steps == [] {
      StartIsSafe<T>(capacity);
    } else {
      EveryRunIsSafe(capacity, steps[..|steps| - 1]);
      ExecSafe(After(capacity, steps[..|steps| - 1]), steps[|steps| - 1]);
    }
  }

  // ----- what the ring promises -----

  /** Values come out once each, in the order their positions were claimed. */
  lemma PopsFollowClaims<T>(capacity: nat, steps: seq<Step<T>>)
    requires capacity > 0
    ensures var s := After(capacity, steps);
            && s.popped <= s.claimed && |s.claimed| == s.tail
            && s.tail - |s.popped| <= capacity
  {
    hide After, Owned, SlotOk, Counted;
    EveryRunIsSafe(capacity, steps);
  }

  /** Free permits, claimed permits and positions in use always add up to the capacity. */
  lemma PermitsAddUp<T>(capacity: nat, steps: seq<Step<T>>)
    requires capacity > 0
    ensures var s := After(capacity, steps);
            && s.slotPermits + |Acquirers(s.producers)| + (s.tail - s.head) + One(s.consumer.Advanced?) == capacity
            && s.itemPermits + |s.popped| + s.abandoned + One(HoldsItem(s.consumer)) + |Pending(s.producers)|
               == s.tail + s.wakes
  {
    hide After, Owned, SlotOk, Ordered, Acquirers, Pending;
    EveryRunIsSafe(capacity, steps);
  }

  /** A producer's spin loop ends at its first look, at every capacity and in every interleaving. */
  lemma SpinEndsAtOnce<T>(capacity: nat, steps: seq<Step<T>>, t: nat)
    requires capacity > 0
    ensures var s := After(capacity, steps);
            t in s.producers && s.producers[t].Claimed? ==>
              ProducerStep(s, t) == Stage(s, t, Ready(s.producers[t].pos, s.producers[t].value))
  {
    hide After, Owned, SlotOk, Ordered, Counted, AwaitTurn, Index;
    EveryRunIsSafe(capacity, steps);
    var s := After(capacity, steps);
    assert Arranged(s);
    if t in s.producers && s.producers[t].Claimed? {
      AwaitTurnArranged(s, t, s.producers[t].pos, s.producers[t].value);
    }
  }

  /** Threads working on positions, producers and consumer alike, never touch the same slot. */
  lemma SlotsAreNotShared<T>(capacity: nat, steps: seq<Step<T>>, t: nat)
    requires capacity > 0
    ensures var s := After(capacity, steps);
            t in s.producers && HasPosition(s.producers[t]) ==>
              var i := Index(s.producers[t].pos, capacity);
              && (forall u :: u in s.producers && u != t && HasPosition(s.producers[u])
                              ==> Index(s.producers[u].pos, capacity) != i)
              && (s.consumer.Matched? || InHand(s.consumer) ==> Index(s.head, capacity) != i)
  {
    hide After, SlotOk, Counted, Index;
    EveryRunIsSafe(capacity, steps);
    var s := After(capacity, steps);
    if t in s.producers && HasPosition(s.producers[t]) {
      forall u | u in s.producers && u != t && HasPosition(s.producers[u])
        ensures Index(s.producers[u].pos, capacity) != Index(s.producers[t].pos, capacity)
      {
        DistinctPositions(s.producers[u].pos, s.producers[t].pos, capacity);
      }
      if s.consumer.Matched? || InHand(s.consumer) {
        DistinctPositions(s.head, s.producers[t].pos, capacity);
      }
    }
  }

  /** `n` steps of one producer. */
  function Produced<T>(s: Ring<T>, t: nat, n: nat): (r: Ring<T>)
    requires |s.slots| > 0
    ensures |r.slots| == |s.slots|
    decreases n
  {
    if n == 0 then s else Produced(ProducerStep(s, t), t, n - 1)
  }

  /**
   Before any stop sentinel is released, a consumer that waits for the head waits for a producer
   that can move: at most three of that producer's own steps publish the head.
   */
  lemma WaitingConsumerIsServed<T>(capacity: nat, steps: seq<Step<T>>)
    requires capacity > 0
    ensures var s := After(capacity, steps);
            HoldsItem(s.consumer) && !s.consumer.Matched? && s.wakes <= s.abandoned
            && SlotOf(s, s.head).stamp != s.head + 1 ==>
              && s.head in s.owner && s.owner[s.head] in s.producers
              && exists n: nat :: n <= 3 && SlotOf(Produced(s, s.owner[s.head], n), s.head).stamp == s.head + 1
  {
    hide After, SlotOk, Index, Acquirers, Pending, Produced, ProducerStep;
    EveryRunIsSafe(capacity, steps);
    var s := After(capacity, steps);
    if HoldsItem(s.consumer) && !s.consumer.Matched? && s.wakes <= s.abandoned
       && SlotOf(s, s.head).stamp != s.head + 1 {
      assert Arranged(s);
      MatchedHeadIsPublished(s);
      var n := OwnerPublishes(s, s.owner[s.head]);
    }
  }

  lemma OwnerPublishes<T>(s: Ring<T>, t: nat) returns (n: nat)
    requires Arranged(s) && t in s.producers && HasPosition(s.producers[t])
    ensures n <= 3 && SlotOf(Produced(s, t, n), s.producers[t].pos).stamp == s.producers[t].pos + 1
    decreases match s.producers[t] case Claimed(_, _) => 2 case Ready(_, _) => 1 case _ => 0
  {
    hide Index, Owned, SlotOk, AwaitTurn;
    match s.producers[t]
    case Claimed(pos, value) =>
      AwaitTurnArranged(s, t, pos, value);
      var s' := AwaitTurn(s, t, pos, value);
      WriteArranged(s', t, pos, value);
      n := 3;
      ProducedUnfolds(s, t, 3);
      ProducedUnfolds(s', t, 2);
      ProducedUnfolds(Write(s', t, pos, value), t, 1);
    case Ready(pos, value) =>
      WriteArranged(s, t, pos, value);
      n := 2;
      ProducedUnfolds(s, t, 2);
      ProducedUnfolds(Write(s, t, pos, value), t, 1);
    case Written(pos) =>
      n := 1;
      ProducedUnfolds(s, t, 1);
  }

  lemma ProducedUnfolds<T>(s: Ring<T>, t: nat, n: nat)
    requires |s.slots| > 0 && n > 0
    ensures Produced(s, t, n) == Produced(ProducerStep(s, t), t, n - 1) && Produced(s, t, 0) == s
    ensures n == 1 ==> Produced(s, t, n) == ProducerStep(s, t)
  {
  }

  /** The optional a consumer moves out of is never empty. */
  lemma TakesRealValues<T>(capacity: nat, steps: seq<Step<T>>)
    requires capacity > 0
    ensures var s := After(capacity, steps);
            s.consumer.Matched? ==> s.head < |s.claimed| && SlotOf(s, s.head).value == Some(s.claimed[s.head])
  {
    hide After, Counted, Index;
    EveryRunIsSafe(capacity, steps);
    var s := After(capacity, steps);
    if s.consumer.Matched? {
      assert SlotOk(s, s.head);
    }
  }

  // ----- try_pop and lost permits -----

  /** try_pop gives up and uses up its permit exactly when the head is not published yet. */
  lemma TryPopAbandonsExactly<T>(capacity: nat, steps: seq<Step<T>>)
    requires capacity > 0
    ensures var s := After(capacity, steps);
            s.consumer.TryPopping? ==>
              (ConsumerStep(s).abandoned == s.abandoned + 1 <==> s.head == s.tail || s.head in s.owner)
  {
    hide After, SlotOk, Index, Counted;
    EveryRunIsSafe(capacity, steps);
    var s := After(capacity, steps);
    assert Arranged(s);
    if s.consumer.TryPopping? {
      MatchedHeadIsPublished(s);
    }
  }

  /**
   When nobody is inside the ring, every stored item has a permit of its own exactly when no more
   permits were given up than sentinels were released.
   */
  lemma ItemsAreReachableExactly<T>(capacity: nat, steps: seq<Step<T>>)
    requires capacity > 0
    ensures var s := After(capacity, steps);
            s.producers == map[] && s.consumer.Idle? ==>
              && |s.claimed| - |s.popped| + s.wakes == s.itemPermits + s.abandoned
              && (s.itemPermits >= |s.claimed| - |s.popped| <==> s.abandoned <= s.wakes)
  {
    hide After, SlotOk, Owned;
    EveryRunIsSafe(capacity, steps);
  }

  lemma AfterOneMore<T>(capacity: nat, steps: seq<Step<T>>, step: Step<T>)
    requires capacity > 0
    ensures After(capacity, steps + [step]) == Exec(After(capacity, steps), step)
  {
    hide Exec;
    assert (steps + [step])[..|steps|] == steps;
  }

  /** Two producers claim; the later one publishes first; then try_pop looks. */
  const TWO_CLAIMS: seq<Step<int>> := [Enter(0, 7)] + [Produce(0)] + [Enter(1, 8)] + [Produce(1)]
  const LATER_PUBLISHES: seq<Step<int>> := TWO_CLAIMS + [Produce(1)] + [Produce(1)] + [Produce(1)] + [Produce(1)]
  const TRY_POP_LOOKS: seq<Step<int>> := LATER_PUBLISHES + [TryPop] + [Consume]

  const CLAIMED: Ring<int> := Ring([Slot(0, None), Slot(1, None)], 0, 0, 2, 0, map[0 := Claimed(0, 7), 1 := Claimed(1, 8)],
                                   Idle, false, [7, 8], [], map[0 := 0, 1 := 1], 0, 0)
  const PUBLISHED: Ring<int> := Ring([Slot(0, None), Slot(2, Some(8))], 0, 1, 2, 0, map[0 := Claimed(0, 7)],
                                     Idle, false, [7, 8], [], map[0 := 0], 0, 0)

  lemma ReachesClaimed()
    ensures After(2, TWO_CLAIMS) == CLAIMED
  {
    AfterOneMore<int>(2, [], Enter(0, 7));
    AfterOneMore<int>(2, [Enter(0, 7)], Produce(0));
    AfterOneMore<int>(2, [Enter(0, 7)] + [Produce(0)], Enter(1, 8));
    AfterOneMore<int>(2, [Enter(0, 7)] + [Produce(0)] + [Enter(1, 8)], Produce(1));
    assert Start<int>(2).slots == [Slot(0, None), Slot(1, None)];
  }

  lemma ReachesPublished()
    ensures After(2, LATER_PUBLISHES) == PUBLISHED
  {
    hide After;
    ReachesClaimed();
    AfterOneMore<int>(2, TWO_CLAIMS, Produce(1));
    AfterOneMore<int>(2, TWO_CLAIMS + [Produce(1)], Produce(1));
    AfterOneMore<int>(2, TWO_CLAIMS + [Produce(1)] + [Produce(1)], Produce(1));
    AfterOneMore<int>(2, TWO_CLAIMS + [Produce(1)] + [Produce(1)] + [Produce(1)], Produce(1));
    PublishedFromClaimed();
  }

  lemma PublishedFromClaimed()
    ensures ProducerStep(ProducerStep(ProducerStep(ProducerStep(CLAIMED, 1), 1), 1), 1) == PUBLISHED
  {
    var s1 := CLAIMED.(producers := map[0 := Claimed(0, 7), 1 := Ready(1, 8)]);
    assert ProducerStep(CLAIMED, 1) == s1;
    var s2 := s1.(producers := map[0 := Claimed(0, 7), 1 := Written(1)], slots := [Slot(0, None), Slot(1, Some(8))]);
    assert ProducerStep(s1, 1) == s2;
    var s3 := PUBLISHED.(producers := map[0 := Claimed(0, 7), 1 := Published], itemPermits := 0);
    assert ProducerStep(s2, 1) == s3;
    assert ProducerStep(s3, 1) == PUBLISHED;
  }

  /**
   The ring does lose permits: here try_pop reports nothing although an item is published, and no
   sentinel was released. From such a state on, an idle ring holds an item nobody will be woken for.
   */
  lemma TryPopCanStrandAnItem()
    ensures var s := After(2, TRY_POP_LOOKS);
            s.abandoned == 1 && s.wakes == 0 && s.itemPermits == 0 && s.popped == []
            && SlotOf(s, 1).value == Some(8) && SlotOf(s, 1).stamp == 2 && s.consumer == Idle
  {
    hide After;
    ReachesPublished();
    AfterOneMore<int>(2, LATER_PUBLISHES, TryPop);
    AfterOneMore<int>(2, LATER_PUBLISHES + [TryPop], Consume);
  }
}
