/**
 The execution lane of one adapter: a ring with one producer at a time and one worker that hands
 each report to the gateway. Every atomic operation and every access to a slot is one step, for
 any number of threads that submit, any number that flush, the worker and the destructor.
 */
module SpscLane {
  import opened Wrappers
  import opened Laps

  /** A thread inside submit. */
  datatype Submitter<T> =
    | Outside
    | Entered(report: T)             // took the producer flag
    | Permitted(report: T)           // holds a slot permit
    | Loaded(report: T, pos: nat)    // read the tail
    | Stored(report: T, pos: nat)    // filled the slot
    | Counted(report: T, pos: nat)   // counted the report as pending
    | Advanced                       // moved the tail, still has to release an item permit
    | Leaving(accepted: bool)        // still has to clear the flag

  datatype Worker<T> =
    | Waiting
    | Woken                          // holds an item permit, looks at the stop token
    | StopSeen                       // looks whether the lane is empty
    | Looking                        // try_pop compares head and tail
    | Popping
    | Moved(report: T)               // emptied the slot
    | HeadMoved(report: T)           // still has to release the slot permit
    | Handling(report: T)
    | Finishing                      // handled, still counted as pending
    | Exited

  datatype Lane<T> = Lane(
    queue: seq<Option<T>>,
    head: nat,
    tail: nat,
    pending: int,
    producerActive: bool,
    violations: nat,
    slotPermits: nat,
    itemPermits: nat,
    stopRequested: bool,
    sentinel: bool,                  // the destructor released its wake-up permit
    submitters: map<nat, Submitter<T>>,
    worker: Worker<T>,
    flushers: map<nat, nat>,         // threads inside flush, with the tail when they entered
    pushed: seq<T>,                  // every report whose tail move is done, in order
    handled: seq<T>,                 // every report given to the handler, in order
    finished: nat,                   // decrements of the pending count
    accepted: nat,                   // submits that returned true
    flushed: seq<(nat, nat)>         // per flush: reports pushed before it began, reports handled when it returned
  )

  function Start<T>(capacity: nat): Lane<T> {
    Lane(seq(capacity, _ => None), 0, 0, 0, false, 0, capacity, 0, false, false, map[], Waiting, map[],
         [], [], 0, 0, [])
  }

  function Stage<T>(s: Lane<T>, t: nat, stage: Submitter<T>): Lane<T> {
    s.(submitters := s.submitters[t := stage])
  }

  // ----- submit -----

  /** A second thread inside submit is turned away and counted. */
  function Enter<T>(s: Lane<T>, t: nat, report: T): Lane<T> {
    if t in s.submitters then s
    else if s.producerActive then s.(violations := s.violations + 1)
    else Stage(s, t, Entered(report)).(producerActive := true)
  }

  /** The wait for a slot permit ends with a permit, or without one when the time is up. */
  function AwaitPermit<T>(s: Lane<T>, t: nat, timedOut: bool): Lane<T> {
    if t !in s.submitters || !s.submitters[t].Entered? then s
    else if s.slotPermits > 0 then
      Stage(s, t, Permitted(s.submitters[t].report)).(slotPermits := s.slotPermits - 1)
    else if timedOut then Stage(s, t, Leaving(false))
    else s
  }

  function SetSlot<T>(s: Lane<T>, p: nat, value: Option<T>): Lane<T>
    requires |s.queue| > 0
  {
    s.(queue := s.queue[Index(p, |s.queue|) := value])
  }

  function Submit<T>(s: Lane<T>, t: nat): (r: Lane<T>)
    requires |s.queue| > 0
    ensures |r.queue| == |s.queue|
  {
    if t !in s.submitters then s
    else
      match s.submitters[t]
      case Permitted(report) => Stage(s, t, Loaded(report, s.tail))
      case Loaded(report, pos) => Stage(SetSlot(s, pos, Some(report)), t, Stored(report, pos))
      case Stored(report, pos) => Stage(s, t, Counted(report, pos)).(pending := s.pending + 1)
      case Counted(report, pos) => Stage(s, t, Advanced).(tail := pos + 1, pushed := s.pushed + [report])
      case Advanced => Stage(s, t, Leaving(true)).(itemPermits := s.itemPermits + 1)
      case Leaving(accepted) =>
        s.(submitters := s.submitters - {t}, producerActive := false, accepted := s.accepted + One(accepted))
      case _ => s
  }

  // ----- the worker -----

  function Work<T>(s: Lane<T>): (r: Lane<T>)
    requires |s.queue| > 0
    ensures |r.queue| == |s.queue|
  {
    match s.worker
    case Waiting => if s.itemPermits > 0 then s.(itemPermits := s.itemPermits - 1, worker := Woken) else s
    case Woken => s.(worker := if s.stopRequested then StopSeen else Looking)
    case StopSeen => s.(worker := if s.head == s.tail then Exited else Looking)
    case Looking => s.(worker := if s.head == s.tail then Waiting else Popping)
    case Popping =>
      (match s.queue[Index(s.head, |s.queue|)]
       case None => s   // moving out of an empty optional is undefined; no run gets here
       case Some(report) => SetSlot(s, s.head, None).(worker := Moved(report)))
    case Moved(report) => s.(head := s.head + 1, worker := HeadMoved(report))
    case HeadMoved(report) => s.(slotPermits := s.slotPermits + 1, worker := Handling(report))
    case Handling(report) => s.(handled := s.handled + [report], worker := Finishing)
    case Finishing => s.(pending := s.pending - 1, finished := s.finished + 1, worker := Waiting)
    case Exited => s
  }

  // ----- flush and shutdown -----

  function FlushBegins<T>(s: Lane<T>, f: nat): Lane<T> {
    if f in s.flushers then s else s.(flushers := s.flushers[f := s.tail])
  }

  /** One look of flush at the pending count; it returns when the count is zero. */
  function FlushLooks<T>(s: Lane<T>, f: nat): Lane<T> {
    if f !in s.flushers || s.pending != 0 then s
    else s.(flushers := s.flushers - {f}, flushed := s.flushed + [(s.flushers[f], |s.handled|)])
  }

  function ReleaseSentinel<T>(s: Lane<T>): Lane<T> {
    if !s.stopRequested || s.sentinel then s else s.(sentinel := true, itemPermits := s.itemPermits + 1)
  }

  // ----- runs -----

  datatype Step<T> =
    | DoEnter(t: nat, report: T)
    | DoAwaitPermit(t: nat, timedOut: bool)
    | DoSubmit(t: nat)
    | DoWork
    | DoFlushBegins(f: nat)
    | DoFlushLooks(f: nat)
    | DoRequestStop
    | DoReleaseSentinel

  function Exec<T>(s: Lane<T>, step: Step<T>): (r: Lane<T>)
    requires |s.queue| > 0
    ensures |r.queue| == |s.queue|
  {
    match step
    case DoEnter(t, report) => Enter(s, t, report)
    case DoAwaitPermit(t, timedOut) => AwaitPermit(s, t, timedOut)
    case DoSubmit(t) => Submit(s, t)
    case DoWork => Work(s)
    case DoFlushBegins(f) => FlushBegins(s, f)
    case DoFlushLooks(f) => FlushLooks(s, f)
    case DoRequestStop => s.(stopRequested := true)
    case DoReleaseSentinel => ReleaseSentinel(s)
  }

  function After<T>(capacity: nat, steps: seq<Step<T>>): (s: Lane<T>)
    requires capacity > 0
    ensures |s.queue| == capacity
  {
    if steps == [] then Start(capacity) else Exec(After(capacity, steps[..|steps| - 1]), steps[|steps| - 1])
  }

  // ----- the invariant -----

  /** At most one thread is inside submit past the flag, and the flag says whether there is one. */
  ghost predicate Exclusive<T>(s: Lane<T>) {
    && (forall t, u :: t in s.submitters && u in s.submitters ==> t == u)
    && (s.producerActive <==> s.submitters != map[])
  }

  /** How far the one thread inside submit has come. */
  ghost function Producer<T>(s: Lane<T>): Submitter<T> {
    TheOne(s.submitters)
  }

  ghost function TheOne<T>(submitters: map<nat, Submitter<T>>): Submitter<T> {
    if submitters == map[] then Outside
    else
      var t :| t in submitters;
      submitters[t]
  }

  predicate HoldsPermit<T>(p: Submitter<T>) {
    p.Permitted? || p.Loaded? || p.Stored? || p.Counted?
  }

  predicate HoldsItem<T>(w: Worker<T>) {
    w.Woken? || w.StopSeen? || w.Looking? || w.Popping? || w.Moved? || w.Exited?
  }

  predicate HasReport<T>(w: Worker<T>) {
    w.Moved? || w.HeadMoved? || w.Handling?
  }

  ghost predicate Counts<T>(s: Lane<T>, p: Submitter<T>) {
    && s.slotPermits + One(HoldsPermit(p)) + (s.tail - s.head) + One(s.worker.HeadMoved?) == |s.queue|
    && s.itemPermits + s.head + One(HoldsItem(s.worker)) + One(p.Advanced?) == s.tail + One(s.sentinel)
    && s.pending == s.tail + One(p.Counted?) - s.finished
    && |s.handled| == s.finished + One(s.worker.Finishing?)
    && s.head == |s.handled| + One(s.worker.HeadMoved? || s.worker.Handling?)
    && s.accepted + One(p.Advanced? || p == Leaving(true)) == s.tail
    && s.head <= s.tail
  }

  ghost predicate Ordered<T>(s: Lane<T>, p: Submitter<T>) {
    && |s.pushed| == s.tail && s.handled <= s.pushed
    && (HasReport(s.worker) ==> |s.handled| < s.tail && s.worker.report == s.pushed[|s.handled|])
    && (p.Loaded? || p.Stored? || p.Counted? ==> p.pos == s.tail)
    && (s.worker.Looking? || s.worker.Popping? || s.worker.Moved? ==> s.head < s.tail)
    && (s.sentinel ==> s.stopRequested) && (s.worker.StopSeen? ==> s.stopRequested)
  }

  /** What the slot of a position in the current lap must hold. */
  ghost predicate SlotOk<T>(s: Lane<T>, p: Submitter<T>, pos: nat)
    requires |s.queue| > 0 && |s.pushed| == s.tail
  {
    s.queue[Index(pos, |s.queue|)] ==
      if pos < s.tail then (if pos == s.head && s.worker.Moved? then None else Some(s.pushed[pos]))
      else if pos == s.tail && (p.Stored? || p.Counted?) then Some(p.report)
      else None
  }

  ghost predicate Slots<T>(s: Lane<T>, p: Submitter<T>)
    requires |s.pushed| == s.tail
  {
    |s.queue| > 0 && forall pos :: s.head <= pos < s.head + |s.queue| ==> SlotOk(s, p, pos)
  }

  ghost predicate Flushes<T>(s: Lane<T>) {
    && (forall f :: f in s.flushers ==> s.flushers[f] <= s.tail)
    && (forall i :: 0 <= i < |s.flushed| ==> s.flushed[i].0 <= s.flushed[i].1 <= |s.handled|)
  }

  ghost predicate Safe<T>(s: Lane<T>) {
    && |s.queue| > 0 && Exclusive(s) && Counts(s, Producer(s)) && Ordered(s, Producer(s)) && Slots(s, Producer(s)) && Flushes(s)
  }

  // ----- every step keeps the invariant -----

  lemma TheProducer<T>(s: Lane<T>, t: nat)
    requires Exclusive(s) && t in s.submitters
    ensures Producer(s) == s.submitters[t] && s.submitters == map[t := s.submitters[t]]
  {
  }

  lemma ProducerMoves<T>(s: Lane<T>, s': Lane<T>, t: nat, stage: Submitter<T>)
    requires Exclusive(s) && (t in s.submitters || s.submitters == map[])
    requires s'.submitters == s.submitters[t := stage] && s'.producerActive
    ensures Exclusive(s') && Producer(s') == stage
  {
    assert t in s'.submitters;
    TheProducer(s', t);
  }

  predicate Filled<T>(p: Submitter<T>) {
    p.Stored? || p.Counted?
  }

  /** Steps that write no slot and move no position keep every slot as it must be. */
  lemma SlotsKept<T>(s: Lane<T>, p: Submitter<T>, s': Lane<T>, p': Submitter<T>)
    requires |s.pushed| == s.tail && Slots(s, p)
    requires s'.queue == s.queue && s'.head == s.head && s'.tail == s.tail && s'.pushed == s.pushed
    requires s'.worker.Moved? <==> s.worker.Moved?
    requires Filled(p') <==> Filled(p)
    requires Filled(p) ==> p'.report == p.report
    ensures Slots(s', p')
  {
    hide Index;
    forall q | s'.head <= q < s'.head + |s'.queue|
      ensures SlotOk(s', p', q)
    {
      assert SlotOk(s, p, q);
    }
  }

  lemma EnterSafe<T>(s: Lane<T>, t: nat, report: T)
    requires Safe(s)
    ensures Safe(Enter(s, t, report))
  {
    hide Slots, TheOne;
    var s' := Enter(s, t, report);
    if t !in s.submitters && !s.producerActive {
      assert Producer(s) == Outside by { NoProducer(s); }
      ProducerMoves(s, s', t, Entered(report));
      SlotsKept(s, Outside, s', Entered(report));
    } else if t !in s.submitters {
      SlotsKept(s, Producer(s), s', Producer(s));
    }
  }

  lemma NoProducer<T>(s: Lane<T>)
    requires s.submitters == map[]
    ensures Producer(s) == Outside
  {
  }

  lemma AwaitPermitSafe<T>(s: Lane<T>, t: nat, timedOut: bool)
    requires Safe(s)
    ensures Safe(AwaitPermit(s, t, timedOut))
  {
    hide Slots, TheOne;
    var s' := AwaitPermit(s, t, timedOut);
    if t in s.submitters && s.submitters[t].Entered? {
      TheProducer(s, t);
      if s.slotPermits > 0 {
        ProducerMoves(s, s', t, Permitted(s.submitters[t].report));
        SlotsKept(s, Producer(s), s', Producer(s'));
      } else if timedOut {
        ProducerMoves(s, s', t, Leaving(false));
        SlotsKept(s, Producer(s), s', Producer(s'));
      }
    }
  }

  /** Writing one slot of the window leaves the slots of all its other positions alone. */
  lemma SlotFrame<T>(s: Lane<T>, p: nat, value: Option<T>, q: nat)
    requires |s.queue| > 0 && s.head <= p < s.head + |s.queue| && s.head <= q < s.head + |s.queue|
    ensures var s' := SetSlot(s, p, value);
            s'.queue[Index(q, |s.queue|)] == if p == q then value else s.queue[Index(q, |s.queue|)]
  {
    if p != q {
      DistinctPositions(p, q, |s.queue|);
    }
  }

  lemma StoreSafe<T>(s: Lane<T>, t: nat)
    requires Safe(s) && t in s.submitters && s.submitters[t].Loaded?
    ensures Safe(Submit(s, t))
  {
    hide Index, TheOne;
    var s' := Submit(s, t);
    var report, pos := s.submitters[t].report, s.submitters[t].pos;
    TheProducer(s, t);
    ProducerMoves(s, s', t, Stored(report, pos));
    forall q | s'.head <= q < s'.head + |s'.queue|
      ensures SlotOk(s', Producer(s'), q)
    {
      assert SlotOk(s, Producer(s), q);
      SlotFrame(s, pos, Some(report), q);
    }
  }

  lemma AdvanceTailSafe<T>(s: Lane<T>, t: nat)
    requires Safe(s) && t in s.submitters && s.submitters[t].Counted?
    ensures Safe(Submit(s, t))
  {
    hide Index, TheOne;
    var s' := Submit(s, t);
    TheProducer(s, t);
    ProducerMoves(s, s', t, Advanced);
    forall q | s'.head <= q < s'.head + |s'.queue|
      ensures SlotOk(s', Producer(s'), q)
    {
      assert SlotOk(s, Producer(s), q);
    }
  }

  lemma LoadSafe<T>(s: Lane<T>, t: nat)
    requires Safe(s) && t in s.submitters && (s.submitters[t].Permitted? || s.submitters[t].Entered? || s.submitters[t].Outside?)
    ensures Safe(Submit(s, t))
  {
    hide Slots, SlotOk, TheOne;
    var s' := Submit(s, t);
    TheProducer(s, t);
    if s' != s {
      ProducerMoves(s, s', t, s'.submitters[t]);
    }
    SlotsKept(s, Producer(s), s', Producer(s'));
  }

  lemma CountSafe<T>(s: Lane<T>, t: nat)
    requires Safe(s) && t in s.submitters && (s.submitters[t].Stored?)
    ensures Safe(Submit(s, t))
  {
    hide Slots, SlotOk, TheOne;
    var s' := Submit(s, t);
    TheProducer(s, t);
    if s' != s {
      ProducerMoves(s, s', t, s'.submitters[t]);
    }
    SlotsKept(s, Producer(s), s', Producer(s'));
  }

  lemma ReleaseItemSafe<T>(s: Lane<T>, t: nat)
    requires Safe(s) && t in s.submitters && (s.submitters[t].Advanced?)
    ensures Safe(Submit(s, t))
  {
    hide Slots, SlotOk, TheOne;
    var s' := Submit(s, t);
    TheProducer(s, t);
    if s' != s {
      ProducerMoves(s, s', t, s'.submitters[t]);
    }
    SlotsKept(s, Producer(s), s', Producer(s'));
  }

  lemma LeaveSafe<T>(s: Lane<T>, t: nat)
    requires Safe(s) && t in s.submitters && s.submitters[t].Leaving?
    ensures Safe(Submit(s, t))
  {
    hide Index, TheOne;
    var s' := Submit(s, t);
    TheProducer(s, t);
    assert s'.submitters == map[];
    NoProducer(s');
    forall q | s'.head <= q < s'.head + |s'.queue|
      ensures SlotOk(s', Producer(s'), q)
    {
      assert SlotOk(s, Producer(s), q);
    }
  }

  lemma SubmitSafe<T>(s: Lane<T>, t: nat)
    requires Safe(s) && |s.queue| > 0
    ensures Safe(Submit(s, t))
  {
    hide Safe, Submit;
    if t in s.submitters {
      match s.submitters[t]
      case Loaded(_, _) => StoreSafe(s, t);
      case Stored(_, _) => CountSafe(s, t);
      case Counted(_, _) => AdvanceTailSafe(s, t);
      case Advanced => ReleaseItemSafe(s, t);
      case Leaving(_) => LeaveSafe(s, t);
      case _ => LoadSafe(s, t);
    } else {
      OutsideStays(s, t);
    }
  }

  lemma OutsideStays<T>(s: Lane<T>, t: nat)
    requires |s.queue| > 0 && t !in s.submitters
    ensures Submit(s, t) == s
  {
  }

  lemma PopSafe<T>(s: Lane<T>)
    requires Safe(s) && s.worker.Popping?
    ensures Safe(Work(s)) && Work(s).worker == Moved(s.pushed[s.head])
  {
    hide Index, TheOne;
    var s' := Work(s);
    assert SlotOk(s, Producer(s), s.head);
    forall q | s'.head <= q < s'.head + |s'.queue|
      ensures SlotOk(s', Producer(s'), q)
    {
      assert SlotOk(s, Producer(s), q);
      SlotFrame(s, s.head, None, q);
    }
  }

  lemma MoveHeadSafe<T>(s: Lane<T>)
    requires Safe(s) && s.worker.Moved?
    ensures Safe(Work(s))
  {
    hide Index, TheOne;
    var s' := Work(s);
    forall q | s'.head <= q < s'.head + |s'.queue|
      ensures SlotOk(s', Producer(s'), q)
    {
      if q == s.head + |s.queue| {
        IndexNextLap(s.head, |s.queue|);
        assert SlotOk(s, Producer(s), s.head);
      } else {
        assert SlotOk(s, Producer(s), q);
      }
    }
  }

  lemma WakeSafe<T>(s: Lane<T>)
    requires Safe(s) && (s.worker.Waiting? || s.worker.Woken?)
    ensures Safe(Work(s))
  {
    hide Slots, SlotOk, TheOne;
    SlotsKept(s, Producer(s), Work(s), Producer(s));
  }

  lemma LookSafe<T>(s: Lane<T>)
    requires Safe(s) && (s.worker.StopSeen? || s.worker.Looking? || s.worker.Exited?)
    ensures Safe(Work(s))
  {
    hide Slots, SlotOk, TheOne;
    SlotsKept(s, Producer(s), Work(s), Producer(s));
  }

  lemma ReleaseSlotSafe<T>(s: Lane<T>)
    requires Safe(s) && (s.worker.HeadMoved?)
    ensures Safe(Work(s))
  {
    hide Slots, SlotOk, TheOne;
    SlotsKept(s, Producer(s), Work(s), Producer(s));
  }

  lemma HandleSafe<T>(s: Lane<T>)
    requires Safe(s) && (s.worker.Handling?)
    ensures Safe(Work(s))
  {
    hide Slots, SlotOk, TheOne;
    SlotsKept(s, Producer(s), Work(s), Producer(s));
  }

  lemma FinishSafe<T>(s: Lane<T>)
    requires Safe(s) && (s.worker.Finishing?)
    ensures Safe(Work(s))
  {
    hide Slots, SlotOk, TheOne;
    SlotsKept(s, Producer(s), Work(s), Producer(s));
  }

  lemma WorkSafe<T>(s: Lane<T>)
    requires Safe(s) && |s.queue| > 0
    ensures Safe(Work(s))
  {
    hide Safe, Work;
    match s.worker
    case Waiting => WakeSafe(s);
    case Woken => WakeSafe(s);
    case StopSeen => LookSafe(s);
    case Looking => LookSafe(s);
    case Popping => PopSafe(s);
    case Moved(_) => MoveHeadSafe(s);
    case HeadMoved(_) => ReleaseSlotSafe(s);
    case Handling(_) => HandleSafe(s);
    case Finishing => FinishSafe(s);
    case Exited => LookSafe(s);
  }

  /** Flushing, stopping and waking the worker touch no report. */
  lemma SignalSafe<T>(s: Lane<T>, step: Step<T>)
    requires Safe(s) && (step.DoFlushBegins? || step.DoFlushLooks? || step.DoRequestStop? || step.DoReleaseSentinel?)
    ensures Safe(Exec(s, step))
  {
    hide Slots, SlotOk, TheOne, Submit, Work, Enter, AwaitPermit;
    SlotsKept(s, Producer(s), Exec(s, step), Producer(s));
  }

  lemma SafeHasSlots<T>(s: Lane<T>)
    requires Safe(s)
    ensures |s.queue| > 0
  {
    hide Exclusive, Counts, Ordered, Slots, Flushes;
  }

  lemma ExecSafe<T>(s: Lane<T>, step: Step<T>)
    requires Safe(s)
    ensures Safe(Exec(s, step))
  {
    hide Safe, Submit, Work, Enter, AwaitPermit, FlushBegins, FlushLooks, ReleaseSentinel;
    SafeHasSlots(s);
    match step
    case DoEnter(t, report) => EnterSafe(s, t, report);
    case DoAwaitPermit(t, timedOut) => AwaitPermitSafe(s, t, timedOut);
    case DoSubmit(t) => SubmitSafe(s, t);
    case DoWork => WorkSafe(s);
    case _ => SignalSafe(s, step);
  }

  lemma StartIsSafe<T>(capacity: nat)
    requires capacity > 0
    ensures Safe(Start<T>(capacity))
  {
    NoProducer(Start<T>(capacity));
  }

  lemma {:induction false} EveryRunIsSafe<T>(capacity: nat, steps: seq<Step<T>>)
    requires capacity > 0
    ensures Safe(After(capacity, steps))
  {
    hide Safe, Exec, Start;
    if steps == [] {
      StartIsSafe<T>(capacity);
    } else {
      EveryRunIsSafe(capacity, steps[..|steps| - 1]);
      ExecSafe(After(capacity, steps[..|steps| - 1]), steps[|steps| - 1]);
    }
  }

  // ----- what the lane promises -----

  /** At most one thread is inside submit past its flag; a second one changes nothing but the violation count. */
  lemma OneProducerAtATime<T>(capacity: nat, steps: seq<Step<T>>, t: nat, u: nat, report: T)
    requires capacity > 0 && t in After(capacity, steps).submitters
    ensures u in After(capacity, steps).submitters ==> t == u
    ensures u != t ==> var s := After(capacity, steps); Enter(s, u, report) == s.(violations := s.violations + 1)
  {
    hide After, Counts, Ordered, Slots, Flushes;
    EveryRunIsSafe(capacity, steps);
  }

  /** Reports are handled once each and in order, and the ring never holds more than its capacity. */
  lemma HandledInOrder<T>(capacity: nat, steps: seq<Step<T>>)
    requires capacity > 0
    ensures var s := After(capacity, steps);
            && s.handled <= s.pushed && |s.pushed| == s.tail && s.head <= s.tail <= s.head + capacity
            && |s.handled| <= s.head <= |s.handled| + 1
            && s.accepted <= |s.pushed| <= s.accepted + 1
  {
    hide After, Exclusive, Slots, Flushes, TheOne;
    EveryRunIsSafe(capacity, steps);
  }

  /** A returned flush saw every report handled that was pushed before the flush began. */
  lemma FlushWaitsForEarlierReports<T>(capacity: nat, steps: seq<Step<T>>, i: nat)
    requires capacity > 0 && i < |After(capacity, steps).flushed|
    ensures var s := After(capacity, steps);
            && s.flushed[i].0 <= s.flushed[i].1 <= |s.handled| <= |s.pushed|
            && s.pushed[..s.flushed[i].0] <= s.handled[..s.flushed[i].1]
  {
    hide After, Exclusive, Slots, TheOne;
    EveryRunIsSafe(capacity, steps);
  }

  /** The worker stops only on request and only when every pushed report has been handled. */
  lemma ExitsOnlyWhenDrained<T>(capacity: nat, steps: seq<Step<T>>)
    requires capacity > 0
    ensures var s := After(capacity, steps);
            !s.worker.Exited? && Work(s).worker.Exited? ==>
              s.stopRequested && s.handled == s.pushed && (s.submitters == map[] ==> s.accepted == |s.handled|)
  {
    hide After, Exclusive, Slots, Flushes;
    EveryRunIsSafe(capacity, steps);
  }

  /** Every wake-up of the worker finds a report or ends it: try_pop is never called in vain. */
  lemma NoWakeUpIsWasted<T>(capacity: nat, steps: seq<Step<T>>)
    requires capacity > 0
    ensures var s := After(capacity, steps); s.worker.Looking? ==> Work(s).worker.Popping?
  {
    hide After, Exclusive, Slots, Flushes, Counts;
    EveryRunIsSafe(capacity, steps);
  }

  /**
   Once the destructor has released its permit, a waiting worker has a permit to take, or a submitter
   is about to release one.
   */
  lemma ShutdownReachesTheWorker<T>(capacity: nat, steps: seq<Step<T>>)
    requires capacity > 0
    ensures var s := After(capacity, steps);
            s.sentinel && s.worker.Waiting? ==>
              s.itemPermits > 0 || exists t :: t in s.submitters && s.submitters[t].Advanced?
  {
    hide After, Slots, Flushes;
    EveryRunIsSafe(capacity, steps);
    var s := After(capacity, steps);
    if s.sentinel && s.worker.Waiting? && s.itemPermits == 0 {
      var t :| t in s.submitters;
      TheProducer(s, t);
    }
  }

  /** The optional the worker moves out of holds the next report. */
  lemma PopsRealReports<T>(capacity: nat, steps: seq<Step<T>>)
    requires capacity > 0
    ensures var s := After(capacity, steps);
            s.worker.Popping? ==> |s.handled| < |s.pushed| && Work(s).worker == Moved(s.pushed[|s.handled|])
  {
    hide After, Exclusive, Slots, Flushes, SlotOk, Work, TheOne;
    EveryRunIsSafe(capacity, steps);
    var s := After(capacity, steps);
    if s.worker.Popping? {
      PopSafe(s);
    }
  }
}
