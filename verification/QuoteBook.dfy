/**
 One slot of the quote book: a sequence lock with a spin flag for its writers. Publishers, clearers
 and readers are threads in any number; every access to the flag, the version or a field is one step.
 */
module QuoteBook {
  import opened Wrappers
  import opened Laps
  import opened MarketData

  const FIELDS := 5
  const PUBLISHED_AT := 3
  const SEQUENCE := 4

  /** The five fields of a slot: bid, ask, source time, publication time, sequence. */
  type Values = seq<int>

  datatype Job = Publish(quote: Quote) | Clear

  datatype Store = Store(at: nat, value: int)

  datatype Writer =
    | Spinning(job: Job)
    | Holding(job: Job)                       // took the flag
    | Accepted(job: Job)                      // not older than what the slot holds
    | Writing(job: Job, rest: seq<Store>)     // the version is odd, these stores remain
    | Leaving                                 // done or refused, the flag is still set

  datatype Reader =
    | Looking(started: nat)
    | Copying(started: nat, before: nat, copy: Values)

  /** A finished read: jobs done when it began, jobs done in the state it shows, and what it returns. */
  datatype Answer = Answer(started: nat, shown: nat, content: Option<Values>)

  datatype Slot = Slot(
    flag: bool,
    version: nat,
    fields: Values,
    writers: map<nat, Writer>,
    readers: map<nat, Reader>,
    holder: Option<nat>,                      // the thread that took the flag
    done: seq<Job>,                           // completed updates, in order
    answers: seq<Answer>
  )

  function Start(): Slot {
    Slot(false, 0, [0, 0, 0, 0, 0], map[], map[], None, [], [])
  }

  function Stores(job: Job): seq<Store> {
    match job
    case Publish(q) => [Store(0, q.bid), Store(1, q.ask), Store(2, q.sourceTime), Store(PUBLISHED_AT, q.publishedAt),
                        Store(SEQUENCE, q.sequence)]
    case Clear => [Store(PUBLISHED_AT, 0), Store(SEQUENCE, 0)]
  }

  function Stored(fields: Values, store: Store): (r: Values)
    ensures |r| == |fields|
  {
    if store.at < |fields| then fields[store.at := store.value] else fields
  }

  function Applied(fields: Values, stores: seq<Store>): (r: Values)
    ensures |r| == |fields|
    decreases |stores|
  {
    if stores == [] then fields else Applied(Stored(fields, stores[0]), stores[1..])
  }

  // ----- writers -----

  function Stage(s: Slot, t: nat, w: Writer): Slot {
    s.(writers := s.writers[t := w])
  }

  /** publish with an invalid quote throws; a missing publication time is the current one. */
  function BeginPublish(s: Slot, t: nat, quote: Quote, now: int): Slot {
    if t in s.writers || !ValidQuote(quote) then s
    else Stage(s, t, Spinning(Publish(if quote.publishedAt == 0 then quote.(publishedAt := now) else quote)))
  }

  function BeginClear(s: Slot, t: nat): Slot {
    if t in s.writers then s else Stage(s, t, Spinning(Clear))
  }

  /** A quote is refused when the slot holds a greater sequence, unless its own sequence is zero. */
  predicate Admitted(content: Values, job: Job)
    requires |content| == FIELDS
  {
    job.Clear? || content[SEQUENCE] <= job.quote.sequence || job.quote.sequence == 0
  }

  function WriterStep(s: Slot, t: nat): Slot
    requires |s.fields| == FIELDS
  {
    if t !in s.writers then s
    else
      match s.writers[t]
      case Spinning(job) => if s.flag then s else Stage(s, t, Holding(job)).(flag := true, holder := Some(t))
      case Holding(job) => Stage(s, t, if Admitted(s.fields, job) then Accepted(job) else Leaving)
      case Accepted(job) => Stage(s, t, Writing(job, Stores(job))).(version := s.version + 1)
      case Writing(job, rest) =>
        if rest == [] then Stage(s, t, Leaving).(version := s.version + 1, done := s.done + [job])
        else Stage(s, t, Writing(job, rest[1..])).(fields := Stored(s.fields, rest[0]))
      case Leaving => s.(writers := s.writers - {t}, flag := false, holder := None)
  }

  // ----- readers -----

  function BeginRead(s: Slot, r: nat): Slot {
    if r in s.readers then s else s.(readers := s.readers[r := Looking(|s.done|)])
  }

  function Result(copy: Values): Option<Values>
    requires |copy| == FIELDS
  {
    if copy[PUBLISHED_AT] == 0 then None else Some(copy)
  }

  function ReaderStep(s: Slot, r: nat): Slot
    requires |s.fields| == FIELDS
  {
    if r !in s.readers then s
    else
      match s.readers[r]
      case Looking(started) =>
        if s.version % 2 == 1 then s else s.(readers := s.readers[r := Copying(started, s.version, [])])
      case Copying(started, before, copy) =>
        if |copy| < FIELDS then s.(readers := s.readers[r := Copying(started, before, copy + [s.fields[|copy|]])])
        else if |copy| > FIELDS || s.version != before || s.version % 2 == 1
        then s.(readers := s.readers[r := Looking(started)])
        else s.(readers := s.readers - {r}, answers := s.answers + [Answer(started, before / 2, Result(copy))])
  }

  // ----- runs -----

  datatype Step =
    | DoBeginPublish(t: nat, quote: Quote, now: int)
    | DoBeginClear(t: nat)
    | DoWrite(t: nat)
    | DoBeginRead(r: nat)
    | DoRead(r: nat)

  function Exec(s: Slot, step: Step): (s': Slot)
    requires |s.fields| == FIELDS
    ensures |s'.fields| == FIELDS
  {
    match step
    case DoBeginPublish(t, quote, now) => BeginPublish(s, t, quote, now)
    case DoBeginClear(t) => BeginClear(s, t)
    case DoWrite(t) => WriterStep(s, t)
    case DoBeginRead(r) => BeginRead(s, r)
    case DoRead(r) => ReaderStep(s, r)
  }

  function After(steps: seq<Step>): (s: Slot)
    ensures |s.fields| == FIELDS
  {
    if steps == [] then Start() else Exec(After(steps[..|steps| - 1]), steps[|steps| - 1])
  }

  // ----- the slot as a plain variable -----

  /** What a slot holds after a sequence of whole updates. */
  function Content(done: seq<Job>): (r: Values)
    ensures |r| == FIELDS
  {
    if done == [] then [0, 0, 0, 0, 0] else Applied(Content(done[..|done| - 1]), Stores(done[|done| - 1]))
  }

  function FieldsOf(q: Quote): (r: Values)
    ensures |r| == FIELDS
  {
    [q.bid, q.ask, q.sourceTime, q.publishedAt, q.sequence]
  }

  lemma AppliedFirst(content: Values, store: Store, rest: seq<Store>)
    ensures Applied(content, [store] + rest) == Applied(Stored(content, store), rest)
  {
    assert ([store] + rest)[1..] == rest;
  }

  /** A publication determines every field, whatever the slot held. */
  lemma PublicationEffect(content: Values, q: Quote)
    requires |content| == FIELDS
    ensures Applied(content, Stores(Publish(q))) == FieldsOf(q)
  {
    hide Applied;
    var s0, s1, s2, s3, s4 := Store(0, q.bid), Store(1, q.ask), Store(2, q.sourceTime), Store(PUBLISHED_AT, q.publishedAt),
                              Store(SEQUENCE, q.sequence);
    assert Stores(Publish(q)) == [s0] + ([s1] + ([s2] + ([s3] + ([s4] + []))));
    AppliedFirst(content, s0, [s1] + ([s2] + ([s3] + ([s4] + []))));
    var c1 := Stored(content, s0);
    AppliedFirst(c1, s1, [s2] + ([s3] + ([s4] + [])));
    var c2 := Stored(c1, s1);
    AppliedFirst(c2, s2, [s3] + ([s4] + []));
    var c3 := Stored(c2, s2);
    AppliedFirst(c3, s3, [s4] + []);
    var c4 := Stored(c3, s3);
    AppliedFirst(c4, s4, []);
    AppliedNone(Stored(c4, s4));
  }

  lemma AppliedNone(content: Values)
    ensures Applied(content, []) == content
  {
  }

  /** A clear withdraws the quote and its sequence and keeps the prices. */
  lemma ClearEffect(content: Values)
    requires |content| == FIELDS
    ensures Applied(content, Stores(Clear)) == content[..PUBLISHED_AT] + [0, 0]
  {
    hide Applied;
    assert Stores(Clear) == [Store(PUBLISHED_AT, 0)] + ([Store(SEQUENCE, 0)] + []);
    AppliedFirst(content, Store(PUBLISHED_AT, 0), [Store(SEQUENCE, 0)] + []);
    AppliedFirst(Stored(content, Store(PUBLISHED_AT, 0)), Store(SEQUENCE, 0), []);
    AppliedNone(Stored(Stored(content, Store(PUBLISHED_AT, 0)), Store(SEQUENCE, 0)));
  }

  // ----- the invariant -----

  ghost predicate Guarded(s: Slot) {
    && (s.flag <==> s.holder.Some?)
    && (forall t :: t in s.writers && !s.writers[t].Spinning? ==> s.holder == Some(t))
    && (s.holder.Some? ==> s.holder.value in s.writers && !s.writers[s.holder.value].Spinning?)
  }

  predicate IsWriting(s: Slot) {
    s.holder.Some? && s.holder.value in s.writers && s.writers[s.holder.value].Writing?
  }

  predicate ValidJob(job: Job) {
    job.Publish? ==> ValidQuote(job.quote)
  }

  ghost predicate Updating(s: Slot) {
    && |s.fields| == FIELDS && s.version == 2 * |s.done| + One(IsWriting(s))
    && (!IsWriting(s) ==> s.fields == Content(s.done))
    && (forall t :: t in s.writers && s.writers[t].Writing? ==>
          && Applied(s.fields, s.writers[t].rest) == Applied(Content(s.done), Stores(s.writers[t].job))
          && Admitted(Content(s.done), s.writers[t].job))
    && (forall t :: t in s.writers && s.writers[t].Accepted? ==> Admitted(Content(s.done), s.writers[t].job))
    && (forall t :: t in s.writers && !s.writers[t].Leaving? ==> ValidJob(s.writers[t].job))
  }

  ghost predicate DoneOk(done: seq<Job>) {
    forall i :: 0 <= i < |done| ==> ValidJob(done[i]) && Admitted(Content(done[..i]), done[i])
  }

  /** While the version has not moved, the fields copied so far are those of the state it stands for. */
  ghost predicate ReaderOk(s: Slot, reader: Reader) {
    match reader
    case Looking(started) => started <= |s.done|
    case Copying(started, before, copy) =>
      && before % 2 == 0 && started <= before / 2 <= |s.done| && before <= s.version && |copy| <= FIELDS
      && (s.version == before ==> copy == Content(s.done)[..|copy|])
  }

  ghost predicate AnswersOk(answers: seq<Answer>, done: seq<Job>) {
    forall i :: 0 <= i < |answers| ==>
      && answers[i].started <= answers[i].shown <= |done|
      && answers[i].content == Result(Content(done[..answers[i].shown]))
  }

  ghost predicate Safe(s: Slot) {
    && Guarded(s) && Updating(s) && DoneOk(s.done)
    && (forall r :: r in s.readers ==> ReaderOk(s, s.readers[r]))
    && AnswersOk(s.answers, s.done)
  }

  // ----- every step keeps the invariant -----

  lemma HolderMoves(s: Slot, t: nat)
    requires Guarded(s) && t in s.writers && !s.writers[t].Spinning? && |s.fields| == FIELDS
    ensures Guarded(WriterStep(s, t))
    ensures s.writers[t].Writing? <==> IsWriting(s)
  {
    hide Admitted, Stored, Stores;
  }

  lemma SpinSafe(s: Slot, t: nat)
    requires Safe(s) && t in s.writers && s.writers[t].Spinning?
    ensures Safe(WriterStep(s, t))
  {
    hide Admitted, Stored, Stores, Applied, DoneOk, AnswersOk, ReaderOk, Content;
    ReadersKept(s, WriterStep(s, t));
  }

  /** Steps that leave version, fields and completed updates alone do not concern any reader. */
  lemma ReadersKept(s: Slot, s': Slot)
    requires forall r :: r in s.readers ==> ReaderOk(s, s.readers[r])
    requires s'.version == s.version && s'.fields == s.fields && s'.done == s.done && s'.readers == s.readers
    ensures forall r :: r in s'.readers ==> ReaderOk(s', s'.readers[r])
  {
  }

  lemma DecideSafe(s: Slot, t: nat)
    requires Safe(s) && t in s.writers && (s.writers[t].Holding? || s.writers[t].Leaving?)
    ensures Safe(WriterStep(s, t))
  {
    hide Admitted, Stored, Stores, Applied, DoneOk, AnswersOk, ReaderOk, Content;
    HolderMoves(s, t);
    ReadersKept(s, WriterStep(s, t));
  }

  /** Opening and closing an update moves the version, so every copy taken before is discarded. */
  lemma ReadersOutdated(s: Slot, s': Slot)
    requires forall r :: r in s.readers ==> ReaderOk(s, s.readers[r])
    requires s'.version > s.version && |s'.done| >= |s.done| && s'.readers == s.readers
    ensures forall r :: r in s'.readers ==> ReaderOk(s', s'.readers[r])
  {
    hide Content;
  }

  lemma OpenSafe(s: Slot, t: nat)
    requires Safe(s) && t in s.writers && s.writers[t].Accepted?
    ensures Safe(WriterStep(s, t))
  {
    hide Admitted, Stored, Stores, Applied, DoneOk, AnswersOk, ReaderOk, Content;
    HolderMoves(s, t);
    ReadersOutdated(s, WriterStep(s, t));
  }

  lemma StoreSafe(s: Slot, t: nat)
    requires Safe(s) && t in s.writers && s.writers[t].Writing? && s.writers[t].rest != []
    ensures Safe(WriterStep(s, t))
  {
    hide Admitted, Stored, Stores, DoneOk, AnswersOk, Content;
    HolderMoves(s, t);
  }

  lemma CloseSafe(s: Slot, t: nat)
    requires Safe(s) && t in s.writers && s.writers[t].Writing? && s.writers[t].rest == []
    ensures Safe(WriterStep(s, t))
  {
    hide Admitted, Stored, Stores, ReaderOk, DoneOk, AnswersOk;
    HolderMoves(s, t);
    var s' := WriterStep(s, t);
    var job := s.writers[t].job;
    ReadersOutdated(s, s');
    DoneGrows(s.done, job);
    AnswersKept(s.answers, s.done, s'.done);
    assert s'.done[..|s.done|] == s.done;
  }

  lemma DoneGrows(done: seq<Job>, job: Job)
    requires DoneOk(done) && ValidJob(job) && Admitted(Content(done), job)
    ensures DoneOk(done + [job])
  {
    hide Content, Admitted, ValidJob;
    var longer := done + [job];
    forall i | 0 <= i < |longer|
      ensures ValidJob(longer[i]) && Admitted(Content(longer[..i]), longer[i])
    {
      if i < |done| {
        assert longer[..i] == done[..i];
      } else {
        assert longer[..i] == done;
      }
    }
  }

  lemma AnswersKept(answers: seq<Answer>, done: seq<Job>, longer: seq<Job>)
    requires AnswersOk(answers, done) && done <= longer
    ensures AnswersOk(answers, longer)
  {
    hide Content, Result;
    forall i | 0 <= i < |answers|
      ensures longer[..answers[i].shown] == done[..answers[i].shown]
    {
    }
  }

  lemma WriterStepSafe(s: Slot, t: nat)
    requires Safe(s) && |s.fields| == FIELDS
    ensures Safe(WriterStep(s, t))
  {
    hide Safe, Admitted, Stored, Stores;
    if t in s.writers {
      match s.writers[t]
      case Spinning(_) => SpinSafe(s, t);
      case Accepted(_) => OpenSafe(s, t);
      case Writing(_, rest) =>
        if rest == [] {
          CloseSafe(s, t);
        } else {
          StoreSafe(s, t);
        }
      case _ => DecideSafe(s, t);
    }
  }

  /** An even version says that no update is under way and how many are done. */
  lemma EvenIsSettled(s: Slot)
    requires Updating(s) && s.version % 2 == 0
    ensures !IsWriting(s) && s.version == 2 * |s.done| && s.version / 2 == |s.done| && s.fields == Content(s.done)
  {
    hide Content, Applied, Admitted;
  }

  lemma ReadersOnly(s: Slot, s': Slot, r: nat)
    requires Safe(s) && s'.answers == s.answers && r in s'.readers
    requires s' == s.(readers := s.readers[r := s'.readers[r]]) && ReaderOk(s, s'.readers[r])
    ensures Safe(s')
  {
    hide Admitted, Applied, DoneOk, Content, AnswersOk, Stores;
  }

  lemma CopySafe(s: Slot, r: nat)
    requires Safe(s) && r in s.readers && s.readers[r].Copying? && |s.readers[r].copy| < FIELDS
    ensures Safe(ReaderStep(s, r))
  {
    hide Admitted, Applied, DoneOk, Content, AnswersOk, Stores, Updating, Guarded;
    if s.version == s.readers[r].before {
      EvenIsSettled(s);
    }
    HasFields(s);
    ReadersOnly(s, ReaderStep(s, r), r);
  }

  lemma HasFields(s: Slot)
    requires Updating(s)
    ensures |s.fields| == FIELDS
  {
  }

  lemma AnswerSafe(s: Slot, r: nat)
    requires Safe(s) && r in s.readers && s.readers[r].Copying? && |s.readers[r].copy| == FIELDS
    requires s.version == s.readers[r].before
    ensures Safe(ReaderStep(s, r))
  {
    hide Admitted, Applied, DoneOk, Content, Stores, ReaderOk;
    var reader := s.readers[r];
    assert ReaderOk(s, reader);
    WholeCopy(s, reader);
    var s' := ReaderStep(s, r);
    ReadersFewer(s, s', r);
  }

  lemma WholeCopy(s: Slot, reader: Reader)
    requires Updating(s) && ReaderOk(s, reader) && reader.Copying? && |reader.copy| == FIELDS && s.version == reader.before
    ensures s.version % 2 == 0 && reader.before / 2 == |s.done| && reader.started <= |s.done|
    ensures s.done[..|s.done|] == s.done && reader.copy == Content(s.done)
  {
    hide Content, Updating;
    EvenIsSettled(s);
    assert Content(s.done)[..FIELDS] == Content(s.done);
  }

  lemma ReadersFewer(s: Slot, s': Slot, r: nat)
    requires forall x :: x in s.readers ==> ReaderOk(s, s.readers[x])
    requires s'.version == s.version && s'.fields == s.fields && s'.done == s.done && s'.readers == s.readers - {r}
    ensures forall x :: x in s'.readers ==> ReaderOk(s', s'.readers[x])
  {
    hide Content;
  }

  lemma LookSafe(s: Slot, r: nat)
    requires Safe(s) && r in s.readers
    requires s.readers[r].Copying? ==> |s.readers[r].copy| == FIELDS && s.version != s.readers[r].before
    ensures Safe(ReaderStep(s, r))
  {
    hide Admitted, Applied, DoneOk, Content, AnswersOk, Stores, Updating, Guarded;
    HasFields(s);
    var s' := ReaderStep(s, r);
    if s' != s {
      if s.readers[r].Looking? {
        EvenIsSettled(s);
      }
      ReadersOnly(s, s', r);
    }
  }

  lemma ReaderStepSafe(s: Slot, r: nat)
    requires Safe(s) && |s.fields| == FIELDS
    ensures Safe(ReaderStep(s, r))
  {
    hide Guarded, Updating, DoneOk, AnswersOk, ReaderStep;
    if r in s.readers {
      assert ReaderOk(s, s.readers[r]);
      if s.readers[r].Copying? && |s.readers[r].copy| < FIELDS {
        CopySafe(s, r);
      } else if s.readers[r].Copying? && s.version == s.readers[r].before {
        AnswerSafe(s, r);
      } else {
        LookSafe(s, r);
      }
    } else {
      NoReader(s, r);
    }
  }

  lemma NoReader(s: Slot, r: nat)
    requires |s.fields| == FIELDS && r !in s.readers
    ensures ReaderStep(s, r) == s
  {
  }

  lemma BeginSafe(s: Slot, step: Step)
    requires Safe(s) && (step.DoBeginPublish? || step.DoBeginClear? || step.DoBeginRead?)
    ensures Safe(Exec(s, step))
  {
    hide Admitted, Applied, DoneOk, Content, AnswersOk, WriterStep, ReaderStep;
  }

  lemma ExecSafe(s: Slot, step: Step)
    requires Safe(s) && |s.fields| == FIELDS
    ensures Safe(Exec(s, step))
  {
    hide Safe, WriterStep, ReaderStep, BeginPublish, BeginClear, BeginRead;
    match step
    case DoWrite(t) => WriterStepSafe(s, t);
    case DoRead(r) => ReaderStepSafe(s, r);
    case _ => BeginSafe(s, step);
  }

  lemma {:induction false} EveryRunIsSafe(steps: seq<Step>)
    ensures Safe(After(steps))
  {
    hide Exec;
    if steps != [] {
      EveryRunIsSafe(steps[..|steps| - 1]);
      ExecSafe(After(steps[..|steps| - 1]), steps[|steps| - 1]);
    }
  }

  // ----- what readers may rely on -----

  /** What the slot shows after whole updates: the last one's quote, or nothing after a clear. */
  lemma ContentIsLastUpdate(done: seq<Job>)
    ensures Result(Content(done))
            == if done == [] || done[|done| - 1].Clear? || done[|done| - 1].quote.publishedAt == 0 then None
               else Some(FieldsOf(done[|done| - 1].quote))
  {
    hide Applied;
    if done != [] {
      var before := Content(done[..|done| - 1]);
      match done[|done| - 1]
      case Publish(q) => PublicationEffect(before, q);
      case Clear => ClearEffect(before);
    }
  }

  /**
   A read returns either nothing or exactly one published quote, whole and valid: the one of the
   last update completed at some moment between the read's begin and its end.
   */
  lemma AnswersAreLinearizable(steps: seq<Step>, i: nat)
    requires i < |After(steps).answers|
    ensures var s := After(steps);
            var a := s.answers[i];
            && a.started <= a.shown <= |s.done|
            && (a.content.None? <==>
                  a.shown == 0 || s.done[a.shown - 1].Clear? || s.done[a.shown - 1].quote.publishedAt == 0)
            && (a.content.Some? ==>
                  var q := s.done[a.shown - 1].quote;
                  a.content.value == FieldsOf(q) && q.bid > 0 && q.ask > 0 && q.bid <= q.ask)
  {
    hide After, Content, Guarded, Updating, ReaderOk, Result;
    EveryRunIsSafe(steps);
    var s := After(steps);
    var shown := s.answers[i].shown;
    ContentIsLastUpdate(s.done[..shown]);
    if shown > 0 {
      assert s.done[..shown][shown - 1] == s.done[shown - 1];
      assert ValidJob(s.done[shown - 1]);
    }
  }

  /** The version is odd exactly while the holder of the flag is between its two version steps. */
  lemma OddExactlyMidUpdate(steps: seq<Step>)
    ensures var s := After(steps);
            && (s.version % 2 == 1 <==> IsWriting(s))
            && s.version / 2 == |s.done|
            && (forall t, u :: t in s.writers && u in s.writers && !s.writers[t].Spinning? && !s.writers[u].Spinning?
                               ==> t == u)
  {
    hide After, Content, Admitted, Applied, Stores, ReaderOk, DoneOk, AnswersOk;
    EveryRunIsSafe(steps);
    var s := After(steps);
    if s.version % 2 == 0 {
      EvenIsSettled(s);
    }
  }

  /** The sequence a slot shows after an update. */
  function SequenceAfter(done: seq<Job>): int {
    Content(done)[SEQUENCE]
  }

  /** An update moves the slot's sequence backwards exactly when it is a clear or carries sequence zero. */
  lemma SequenceFallsExactly(steps: seq<Step>, k: nat)
    requires k < |After(steps).done|
    ensures var done := After(steps).done;
            && (SequenceAfter(done[..k + 1]) < SequenceAfter(done[..k])
                <==> SequenceAfter(done[..k]) > 0 && (done[k].Clear? || done[k].quote.sequence == 0))
            && SequenceAfter(done[..k]) >= 0
  {
    hide After, Guarded, Updating, ReaderOk, AnswersOk, Applied, Stores;
    EveryRunIsSafe(steps);
    var done := After(steps).done;
    SequenceNotNegative(done[..k]);
    assert done[..k + 1][..k] == done[..k];
    var before := Content(done[..k]);
    match done[k]
    case Publish(q) => PublicationEffect(before, q);
    case Clear => ClearEffect(before);
  }

  lemma SequenceNotNegative(done: seq<Job>)
    ensures Content(done)[SEQUENCE] >= 0
  {
    hide Applied, Stores;
    if done != [] {
      var before := Content(done[..|done| - 1]);
      match done[|done| - 1]
      case Publish(q) => PublicationEffect(before, q);
      case Clear => ClearEffect(before);
    }
  }

  /** Without clears and zero sequences in between, a slot's sequence never goes backwards. */
  lemma {:induction false} SequenceNeverFalls(steps: seq<Step>, i: nat, j: nat)
    requires i <= j <= |After(steps).done|
    requires forall k :: i <= k < j ==> After(steps).done[k].Publish? && After(steps).done[k].quote.sequence != 0
    ensures SequenceAfter(After(steps).done[..i]) <= SequenceAfter(After(steps).done[..j])
    decreases j - i
  {
    hide After, Content;
    if i < j {
      SequenceNeverFalls(steps, i, j - 1);
      SequenceFallsExactly(steps, j - 1);
    }
  }

  // ----- a sequence of zero rewinds the slot -----

  lemma AfterOneMore(steps: seq<Step>, step: Step)
    ensures After(steps + [step]) == Exec(After(steps), step)
  {
    hide Exec;
    assert (steps + [step])[..|steps|] == steps;
  }

  /** `n` steps of one writer. */
  function Writes(t: nat, n: nat): seq<Step> {
    if n == 0 then [] else Writes(t, n - 1) + [DoWrite(t)]
  }

  function Written(s: Slot, t: nat, n: nat): (r: Slot)
    requires |s.fields| == FIELDS
    ensures |r.fields| == FIELDS
  {
    if n == 0 then s else Exec(Written(s, t, n - 1), DoWrite(t))
  }

  lemma {:induction false} AfterWrites(steps: seq<Step>, t: nat, n: nat)
    ensures After(steps + Writes(t, n)) == Written(After(steps), t, n)
  {
    hide Exec;
    if n == 0 {
      assert steps + Writes(t, 0) == steps;
    } else {
      AfterWrites(steps, t, n - 1);
      assert steps + Writes(t, n) == steps + Writes(t, n - 1) + [DoWrite(t)];
      AfterOneMore(steps + Writes(t, n - 1), DoWrite(t));
    }
  }

  /** A writer that meets nobody carries out its remaining stores, one per step. */
  lemma {:induction false} StoresAlone(s: Slot, t: nat, job: Job, rest: seq<Store>)
    requires |s.fields| == FIELDS && t in s.writers && s.writers[t] == Writing(job, rest)
    ensures var r := Written(s, t, |rest|);
            r == s.(fields := r.fields, writers := s.writers[t := Writing(job, [])])
    decreases |rest|
  {
    if rest != [] {
      var s' := WriterStep(s, t);
      WrittenFirst(s, t, |rest|);
      StoresAlone(s', t, job, rest[1..]);
    }
  }

  lemma {:induction false} WrittenFirst(s: Slot, t: nat, n: nat)
    requires |s.fields| == FIELDS && n > 0
    ensures Written(s, t, n) == Written(WriterStep(s, t), t, n - 1)
  {
    if n > 1 {
      WrittenFirst(s, t, n - 1);
    }
  }

  lemma {:induction false} WrittenInTurn(s: Slot, t: nat, m: nat, n: nat)
    requires |s.fields| == FIELDS
    ensures Written(s, t, m + n) == Written(Written(s, t, m), t, n)
  {
    hide Exec;
    if n > 0 {
      WrittenInTurn(s, t, m, n - 1);
    }
  }

  /** A publisher alone takes the flag, is accepted and opens its update. */
  lemma OpensAlone(s: Slot, t: nat, q: Quote)
    requires |s.fields| == FIELDS && s.writers == map[t := Spinning(Publish(q))] && !s.flag
    requires Admitted(s.fields, Publish(q))
    ensures Written(s, t, 3) == s.(writers := map[t := Writing(Publish(q), Stores(Publish(q)))], flag := true,
                                   holder := Some(t), version := s.version + 1)
  {
    hide Written, Admitted, Stored, Stores;
    var job := Publish(q);
    var held := s.(writers := map[t := Holding(job)], flag := true, holder := Some(t));
    var accepted := held.(writers := map[t := Accepted(job)]);
    var open := held.(writers := map[t := Writing(job, Stores(job))], version := s.version + 1);
    assert WriterStep(s, t) == held && WriterStep(held, t) == accepted && WriterStep(accepted, t) == open;
    WrittenFirst(s, t, 3);
    WrittenFirst(held, t, 2);
    WrittenFirst(accepted, t, 1);
    WrittenNone(open, t);
  }

  lemma ClosesAlone(s: Slot, t: nat, job: Job)
    requires |s.fields| == FIELDS && s.writers == map[t := Writing(job, [])]
    ensures var r := Written(s, t, 2); r.writers == map[] && r.done == s.done + [job] && !r.flag && r.holder == None
  {
    hide Written;
    var closed := WriterStep(s, t);
    assert closed.writers == map[t := Leaving] && closed.done == s.done + [job];
    WrittenFirst(s, t, 2);
    WrittenFirst(closed, t, 1);
    assert WriterStep(closed, t).writers == map[];
    WrittenNone(WriterStep(closed, t), t);
  }

  /** A publisher alone in the slot completes its update. */
  lemma PublishesAlone(s: Slot, t: nat, q: Quote)
    requires |s.fields| == FIELDS && s.writers == map[t := Spinning(Publish(q))] && !s.flag
    requires Admitted(s.fields, Publish(q))
    ensures var r := Written(s, t, 10); r.writers == map[] && r.done == s.done + [Publish(q)] && !r.flag && r.holder == None
  {
    hide Written, Admitted, Stored;
    OpensAlone(s, t, q);
    var open := Written(s, t, 3);
    StoresAlone(open, t, Publish(q), Stores(Publish(q)));
    var stored := Written(open, t, 5);
    assert stored.writers == map[t := Writing(Publish(q), [])];
    ClosesAlone(stored, t, Publish(q));
    WrittenInTurn(s, t, 3, 5);
    WrittenInTurn(s, t, 8, 2);
  }

  lemma WrittenNone(s: Slot, t: nat)
    requires |s.fields| == FIELDS
    ensures Written(s, t, 0) == s
  {
  }

  /** Any run in which the slot is idle can be continued by one whole publication. */
  lemma OnePublication(steps: seq<Step>, q: Quote) returns (longer: seq<Step>)
    requires After(steps).writers == map[] && ValidQuote(q) && q.publishedAt != 0
    requires Admitted(Content(After(steps).done), Publish(q))
    ensures After(longer).writers == map[] && After(longer).done == After(steps).done + [Publish(q)]
  {
    hide After, Written, Writes, Content, Stores, Applied, Admitted, Exec, ValidQuote;
    var s := After(steps);
    EveryRunIsSafe(steps);
    IdleIsSettled(s);
    AfterOneMore(steps, DoBeginPublish(0, q, 1));
    var begun := After(steps + [DoBeginPublish(0, q, 1)]);
    BegunAlone(s, q);
    PublishesAlone(begun, 0, q);
    AfterWrites(steps + [DoBeginPublish(0, q, 1)], 0, 10);
    longer := steps + [DoBeginPublish(0, q, 1)] + Writes(0, 10);
  }

  lemma IdleIsSettled(s: Slot)
    requires Safe(s) && s.writers == map[]
    ensures !s.flag && s.holder == None && s.fields == Content(s.done)
  {
    hide Content, Applied, Admitted, DoneOk, AnswersOk, ReaderOk;
  }

  lemma BegunAlone(s: Slot, q: Quote)
    requires s.writers == map[] && ValidQuote(q) && q.publishedAt != 0 && |s.fields| == FIELDS
    ensures Exec(s, DoBeginPublish(0, q, 1)) == s.(writers := map[0 := Spinning(Publish(q))])
  {
    hide WriterStep, ReaderStep;
  }

  /**
   A nonzero sequence can go backwards without a clear: a run that publishes the numbers 10, 0 and 5
   in this order has all three accepted.
   */
  lemma ZeroSequenceRewinds(q: Quote) returns (steps: seq<Step>)
    requires ValidQuote(q) && q.publishedAt != 0
    ensures After(steps).done
            == [Publish(q.(sequence := 10)), Publish(q.(sequence := 0)), Publish(q.(sequence := 5))]
    ensures SequenceAfter(After(steps).done[..1]) == 10 && SequenceAfter(After(steps).done) == 5
  {
    hide After, Applied, Stores;
    var a, b, c := q.(sequence := 10), q.(sequence := 0), q.(sequence := 5);
    EmptyRun();
    var first := OnePublication([], a);
    var second := OnePublication(first, b);
    LastSequence([Publish(a)], b);
    steps := OnePublication(second, c);
    LastSequence([], a);
    LastSequence([Publish(a)] + [Publish(b)], c);
    assert [Publish(a)] + [Publish(b)] + [Publish(c)] == [Publish(a), Publish(b), Publish(c)];
    assert [Publish(a), Publish(b), Publish(c)][..1] == [] + [Publish(a)];
  }

  lemma EmptyRun()
    ensures After([]) == Start() && Content([]) == [0, 0, 0, 0, 0]
  {
  }

  lemma LastSequence(before: seq<Job>, q: Quote)
    ensures SequenceAfter(before + [Publish(q)]) == q.sequence
  {
    hide Applied, Stores;
    assert (before + [Publish(q)])[..|before|] == before;
    PublicationEffect(Content(before), q);
  }
}
