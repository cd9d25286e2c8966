/**
 What reached the venue, and what callers were told, is remembered by the journal over all restarts. The
 one thing that breaks it is a restart that loads a journal whose last line a broken append has spoiled:
 the record on it was appended, and is forgotten. Everything here is said of one operation at a time.
 */
module GatewayMemory {
  import opened Wrappers
  import opened Orders
  import opened Recovery
  import opened JournalEnds
  import opened Positions
  import opened Gateway
  import opened GatewayHistory
  import opened GatewaySafety
  import Fingerprints
  import Outcomes
  import Risk
  import Machine = OrderStateMachine

  // ----- the invariant -----

  type Key = (string, string)

  /** What identifies a venue call: the order, and the request key of a cancel or amend. */
  function Target(op: Operation): Key {
    (IdOfOp(op), KeyOf(op))
  }

  /** The journal holds a complete record that remembers the operation. */
  ghost predicate Durable(journal: seq<Record>, op: Operation) {
    exists r :: r in journal && Carries(r.order, op)
  }

  ghost predicate NotCalled(calls: seq<Operation>, key: Key) {
    forall c :: c in calls ==> Target(c) != key
  }

  /** A thread about to send has not sent before; a thread that may have sent has its intent in the journal. */
  ghost predicate SentOk(s: State, stage: Stage, key: Key) {
    Holds(stage) && Target(stage.op) == key ==>
      && (stage.Prepared? || stage.Recorded? ==> NotCalled(s.calls, key))
      && (!stage.Prepared? ==> Durable(s.journal, stage.op))
  }

  ghost predicate CallsOk(calls: seq<Operation>, journal: seq<Record>, key: Key) {
    && (forall i, j :: 0 <= i < j < |calls| ==> !(Target(calls[i]) == key && Target(calls[j]) == key))
    && (forall c :: c in calls && Target(c) == key ==> Durable(journal, c))
  }

  ghost predicate Remembers(s: State, key: Key) {
    CallsOk(s.calls, s.journal, key) && forall t :: t in s.threads ==> SentOk(s, s.threads[t], key)
  }

  ghost predicate AnswerKept(journal: seq<Record>, op: Operation, answer: Outcomes.Answer) {
    exists r :: r in journal && Told(r.order, op, answer)
  }

  /** What the caller of a cancel or amend was told is in the journal. */
  ghost predicate AnswerOk(s: State, op: Operation) {
    op in s.answered ==> !op.PlaceOp? && AnswerKept(s.journal, op, s.answered[op])
  }

  // ----- consequences -----

  /** A durable operation is remembered by the live order, and by every later one. */
  lemma DurableIsRemembered(s: State, op: Operation)
    requires Safe(s) && Durable(s.journal, op)
    ensures IdOfOp(op) in s.orders && Carries(s.orders[IdOfOp(op)], op)
  {
    hide Extends, Carries, StageOk, FileOk;
    var r :| r in s.journal && Carries(r.order, op);
    assert r in s.issued && IdOf(r) == IdOfOp(op) by { CarriesOwner(r.order, op); }
    CarriesIsKept(r.order, s.orders[IdOf(r)], op);
  }

  /** Only places have the empty request key. */
  lemma SameTargetSameKind(a: Operation, b: Operation)
    requires Target(a) == Target(b)
    ensures a.PlaceOp? <==> b.PlaceOp?
  {
    assert a.PlaceOp? <==> |KeyOf(a)| == 0;
    assert b.PlaceOp? <==> |KeyOf(b)| == 0;
  }

  /** An operation its order does not know yet has never reached the venue. */
  lemma FreshOperationNotCalled(s: State, op: Operation)
    requires Safe(s) && Remembers(s, Target(op))
    requires op.PlaceOp? ==> IdOfOp(op) !in s.orders
    requires !op.PlaceOp? ==> IdOfOp(op) in s.orders && KeyOf(op) !in s.orders[IdOfOp(op)].processedRequests
    ensures NotCalled(s.calls, Target(op))
  {
    hide Safe, KeyOf, FingerprintOf, Remembers;
    forall c | c in s.calls
      ensures Target(c) != Target(op)
    {
      if Target(c) == Target(op) {
        assert Durable(s.journal, c) by { CallIsDurable(s, c); }
        DurableIsRemembered(s, c);
        SameTargetSameKind(c, op);
        assert false;
      }
    }
  }

  lemma CallIsDurable(s: State, c: Operation)
    requires Remembers(s, Target(c)) && c in s.calls
    ensures Durable(s.journal, c)
  {
    hide SentOk;
  }

  lemma SentOf(s: State, t: nat, key: Key)
    requires Remembers(s, key) && t in s.threads
    ensures SentOk(s, s.threads[t], key)
  {
    hide SentOk, CallsOk;
  }

  // ----- steps that send and append nothing -----

  predicate SameLog(s: State, s': State) {
    s'.calls == s.calls && s'.journal == s.journal
  }

  predicate SameAnswers(s: State, s': State) {
    s'.journal == s.journal && s'.answered == s.answered
  }

  lemma SentOkSame(s: State, s': State, stage: Stage, key: Key)
    requires SentOk(s, stage, key) && SameLog(s, s')
    ensures SentOk(s', stage, key)
  {
    hide NotCalled, Durable, Target;
  }

  /** One thread moves on, to a stage that is in order. */
  lemma RemembersMoved(s: State, s': State, t: nat, key: Key)
    requires Remembers(s, key) && SameLog(s, s') && t in s'.threads && s'.threads == s.threads[t := s'.threads[t]]
    requires SentOk(s', s'.threads[t], key)
    ensures Remembers(s', key)
  {
    hide CallsOk, SentOk;
    forall u | u in s'.threads
      ensures SentOk(s', s'.threads[u], key)
    {
      if u != t {
        SentOkSame(s, s', s.threads[u], key);
      }
    }
  }

  lemma RemembersLeft(s: State, s': State, key: Key)
    requires Remembers(s, key) && SameLog(s, s')
    requires forall t :: t in s'.threads ==> t in s.threads && s'.threads[t] == s.threads[t]
    ensures Remembers(s', key)
  {
    hide CallsOk, SentOk;
    forall u | u in s'.threads
      ensures SentOk(s', s'.threads[u], key)
    {
      SentOkSame(s, s', s.threads[u], key);
    }
  }

  /** A thread that starts an operation the venue has not heard of. */
  lemma StartRemembers(s: State, s': State, t: nat, op: Operation, key: Key)
    requires Safe(s) && Remembers(s, key) && SameLog(s, s') && t in s'.threads && s'.threads == s.threads[t := s'.threads[t]]
    requires op.PlaceOp? ==> IdOfOp(op) !in s.orders
    requires !op.PlaceOp? ==> IdOfOp(op) in s.orders && KeyOf(op) !in s.orders[IdOfOp(op)].processedRequests
    requires !Holds(s'.threads[t]) || (s'.threads[t].Prepared? && s'.threads[t].op == op)
    ensures Remembers(s', key)
  {
    hide Safe, Remembers, NotCalled, KeyOf;
    if Target(op) == key {
      FreshOperationNotCalled(s, op);
    }
    RemembersMoved(s, s', t, key);
  }

  // ----- the first locked sections -----

  lemma PlaceRemembers(table: Risk.LimitTable, s: State, t: nat, q: OrderRequest, marketData: bool,
                       marketPrice: Option<int>, preflight: Risk.Decision, reason: string, key: Key)
    requires Safe(s) && Remembers(s, key)
    ensures var s' := PlaceStart(table, s, t, q, marketData, marketPrice, preflight, reason);
            Remembers(s', key) && SameAnswers(s, s')
  {
    hide Safe, Remembers, PlaceDecision, NewOrder, Admit;
    if t !in s.threads && q.clientOrderId !in s.orders {
      var decision := PlaceDecision(table, s, q, marketData, marketPrice, preflight);
      AdmitRemembers(s, t, q, NewOrder(q, decision, reason), decision == Risk.Accept, key);
    }
  }

  lemma AdmitRemembers(s: State, t: nat, q: OrderRequest, o: Order, admitted: bool, key: Key)
    requires Safe(s) && Remembers(s, key) && t !in s.threads && q.clientOrderId !in s.orders
    ensures Remembers(Admit(s, t, q, o, admitted), key) && SameAnswers(s, Admit(s, t, q, o, admitted))
  {
    hide Safe, Remembers, Put, Publish;
    PutFacts(s, q.clientOrderId, o);
    PublishedIsSame(Put(s, q.clientOrderId, o));
    StartRemembers(s, Admit(s, t, q, o, admitted), t, PlaceOp(q), key);
  }

  lemma CancelRemembers(s: State, t: nat, q: CancelRequest, key: Key)
    requires Safe(s) && Remembers(s, key)
    ensures Remembers(CancelStart(s, t, q), key) && SameAnswers(s, CancelStart(s, t, q))
  {
    hide Safe, Remembers, CancelKey, Fingerprints.CancelFingerprint, Fingerprints.CancelMatches, Publish, WithRequest;
    var s' := CancelStart(s, t, q);
    if s' != s {
      var id := q.clientOrderId;
      SafeOrder(s, id);
      var o := WithRequest(s.orders[id], CancelKey(q), Fingerprints.CancelFingerprint(q)).(pendingAction := Cancel);
      PublishedIsSame(s.(orders := s.orders[id := o], active := s.active + {id}));
      StartRemembers(s, s', t, CancelOp(q), key);
    }
  }

  lemma AmendRemembers(table: Risk.LimitTable, s: State, t: nat, q: AmendRequest, legacy: string, key: Key)
    requires Safe(s) && Remembers(s, key)
    ensures Remembers(AmendStart(table, s, t, q, legacy), key) && SameAnswers(s, AmendStart(table, s, t, q, legacy))
  {
    hide Safe, Remembers, AmendKey, Fingerprints.AmendFingerprint, Fingerprints.AmendMatches, Publish, WithRequest,
         Risk.CheckAmendWithPosition, PositionWithout;
    var s' := AmendStart(table, s, t, q, legacy);
    if s' != s {
      var id := q.clientOrderId;
      SafeOrder(s, id);
      var o := WithRequest(s.orders[id], AmendKey(q), Fingerprints.AmendFingerprint(q))
               .(pendingAction := Amend, pendingAmendPrice := q.newPrice, pendingAmendQuantity := q.newQuantity);
      PublishedIsSame(s.(orders := s.orders[id := o], active := s.active + {id}));
      StartRemembers(s, s', t, AmendOp(q), key);
    }
  }

  // ----- completions, reports and queries -----

  lemma CompleteRemembers(s: State, t: nat, key: Key)
    requires Remembers(s, key)
    ensures Remembers(Complete(s, t), key) && SameAnswers(s, Complete(s, t))
  {
    hide Remembers, CompletedOrder, Put, Publish, CompletedExchangeIndex, CompletedClientIndex, AnswerOf, ReportsToApply;
    if t in s.threads && s.threads[t].Answered? && IdOfOp(s.threads[t].op) in s.orders {
      var op, result := s.threads[t].op, s.threads[t].result;
      var id := IdOfOp(op);
      var before := s.orders[id];
      var o := CompletedOrder(before, op, result);
      PutFacts(s, id, o);
      var s1 := Put(s, id, o).(active := s.active - {id},
                               exchangeIndex := CompletedExchangeIndex(s, before, op, result),
                               clientIndex := CompletedClientIndex(s, op, result),
                               deferred := if op.AmendOp? then s.deferred - {id} else s.deferred);
      PublishedIsSame(s1);
      RemembersMoved(s, Complete(s, t), t, key);
    }
  }

  lemma MergeRemembers(s: State, t: nat, id: string, venue: Venue, r: Report, rest: seq<Report>, key: Key)
    requires Remembers(s, key) && id in s.orders
    ensures var s' := MergeReport(s, t, id, venue, r, rest);
            Remembers(s', key) && SameAnswers(s, s')
  {
    hide Remembers, ReportedOrder, MustPersist, PutReported, Publish;
    PutReportedFacts(s, id, ReportedOrder(s.orders[id], r), r);
    PublishedIsSame(PutReported(s, id, ReportedOrder(s.orders[id], r), r));
    RemembersMoved(s, MergeReport(s, t, id, venue, r, rest), t, key);
  }

  lemma ExecutionRemembers(s: State, t: nat, venue: Venue, r: Report, rest: seq<Report>, key: Key)
    requires Remembers(s, key)
    ensures var s' := ApplyExecution(s, t, venue, r, rest);
            Remembers(s', key) && SameAnswers(s, s')
  {
    hide Remembers, Locate, MustDefer, Machine.Outcome, MergeReport, Enter;
    LocatedExists(s, venue, r);
    var located := Locate(s, venue, r);
    var s' := ApplyExecution(s, t, venue, r, rest);
    if located.Some? && !MustDefer(venue, s.orders[located.value], r)
       && Machine.Outcome(s.orders[located.value], r).disposition != Machine.Invalid {
      MergeRemembers(s, t, located.value, venue, r, rest, key);
    } else {
      EnterFacts(s, t, Draining(venue, rest));
      if located.Some? {
        EnterFacts(Defer(s, located.value, r), t, Draining(venue, rest));
      }
      RemembersMoved(s, s', t, key);
    }
  }

  lemma QueryRemembers(s: State, t: nat, answer: Option<Report>, key: Key)
    requires Remembers(s, key)
    ensures Remembers(QueryAnswers(s, t, answer), key) && SameAnswers(s, QueryAnswers(s, t, answer))
  {
    hide Remembers, ApplyExecution;
    if t in s.threads && s.threads[t].Querying? && s.threads[t].id in s.orders {
      match answer
      case Some(r) => ExecutionRemembers(s, t, s.orders[s.threads[t].id].venue, r, [], key);
      case None => RemembersMoved(s, QueryAnswers(s, t, None), t, key);
    }
  }

  lemma NextRemembers(s: State, t: nat, key: Key)
    requires Remembers(s, key)
    ensures Remembers(ApplyNext(s, t), key) && SameAnswers(s, ApplyNext(s, t))
  {
    hide Remembers, ApplyExecution;
    if t in s.threads && s.threads[t].Draining? {
      var stage := s.threads[t];
      if stage.reports == [] {
        RemembersLeft(s, ApplyNext(s, t), key);
      } else {
        ExecutionRemembers(s, t, stage.venue, stage.reports[0], stage.reports[1..], key);
      }
    }
  }

  lemma QuietRemembers(s: State, t: nat, id: string, extent: Extent, key: Key)
    requires Remembers(s, key)
    ensures Remembers(QueryStart(s, t, id), key) && Remembers(EventLogged(s, extent), key)
    ensures Remembers(AppendFails(s, t, extent), key)
    ensures SameAnswers(s, QueryStart(s, t, id)) && SameAnswers(s, EventLogged(s, extent)) && SameAnswers(s, AppendFails(s, t, extent))
  {
    hide Remembers, Written;
    if QueryStart(s, t, id) != s {
      RemembersMoved(s, QueryStart(s, t, id), t, key);
    }
    RemembersLeft(s, EventLogged(s, extent), key);
    if AppendFails(s, t, extent) != s {
      RemembersLeft(s, AppendFails(s, t, extent), key);
    }
  }

  // ----- appends and venue calls -----

  lemma DurableGrows(journal: seq<Record>, record: Record, op: Operation)
    ensures Durable(journal + [record], op) <==> Durable(journal, op) || Carries(record.order, op)
  {
    hide Carries;
    if Durable(journal, op) {
      var r :| r in journal && Carries(r.order, op);
      assert r in journal + [record];
    }
    assert record in journal + [record];
  }

  lemma AnswerKeptGrows(journal: seq<Record>, record: Record, op: Operation, answer: Outcomes.Answer)
    ensures AnswerKept(journal + [record], op, answer) <==> AnswerKept(journal, op, answer) || Told(record.order, op, answer)
  {
    hide Told;
    if AnswerKept(journal, op, answer) {
      var r :| r in journal && Told(r.order, op, answer);
      assert r in journal + [record];
    }
    assert record in journal + [record];
  }

  lemma FiledRemembers(s: State, record: Record, key: Key)
    requires Remembers(s, key)
    ensures Remembers(Filed(s, record), key)
  {
    hide Durable, NotCalled, Filed, Target;
    var s' := Filed(s, record);
    FiledFacts(s, record);
    forall t | t in s'.threads
      ensures SentOk(s', s'.threads[t], key)
    {
      assert SentOk(s, s.threads[t], key);
      if Holds(s.threads[t]) {
        DurableGrows(s.journal, record, s.threads[t].op);
      }
    }
    forall c | c in s.calls && Target(c) == key
      ensures Durable(s'.journal, c)
    {
      DurableGrows(s.journal, record, c);
    }
  }

  lemma AppendRemembers(s: State, t: nat, key: Key)
    requires Safe(s) && Remembers(s, key)
    ensures Remembers(Append(s, t), key)
  {
    hide Safe, Remembers, Filed, AfterAppend;
    if t in s.threads && HasRecordToAppend(s.threads[t]) {
      var record := s.threads[t].record;
      StageOf(s, t);
      FiledFacts(s, record);
      FiledRemembers(s, record, key);
      if s.threads[t].Prepared? {
        DurableGrows(s.journal, record, s.threads[t].op);
      }
      AfterAppendRemembers(Filed(s, record), t, key);
    }
  }

  lemma AfterAppendRemembers(s: State, t: nat, key: Key)
    requires Remembers(s, key) && t in s.threads && HasRecordToAppend(s.threads[t])
    requires s.threads[t].Prepared? ==> Durable(s.journal, s.threads[t].op)
    ensures Remembers(AfterAppend(s, t, s.threads[t]), key)
  {
    hide Remembers, Durable, NotCalled, Enter, Target;
    SentOf(s, t, key);
    match s.threads[t]
    case Prepared(op, _) =>
      EnterFacts(s, t, Recorded(op));
      RemembersMoved(s, Enter(s, t, Recorded(op)), t, key);
    case Finishing(op, record, answer, reports) =>
      var s1 := Enter(s, t, Draining(record.order.venue, reports));
      EnterFacts(s, t, Draining(record.order.venue, reports));
      RemembersMoved(s, s1, t, key);
      RemembersLeft(s1, s1.(answered := s1.answered[op := answer]), key);
    case Saving(_, venue, reports) =>
      EnterFacts(s, t, Draining(venue, reports));
      RemembersMoved(s, Enter(s, t, Draining(venue, reports)), t, key);
  }

  /** Sending is only reached with a durable intent and an operation that was never sent. */
  lemma CallRemembers(s: State, t: nat, key: Key)
    requires Safe(s) && Remembers(s, key)
    ensures Remembers(CallVenue(s, t), key) && SameAnswers(s, CallVenue(s, t))
  {
    hide History, OpLive, Carries, Durable, FileOk;
    var s' := CallVenue(s, t);
    if s' != s {
      var op := s.threads[t].op;
      assert SentOk(s, s.threads[t], key);
      forall u | u in s'.threads
        ensures SentOk(s', s'.threads[u], key)
      {
        assert SentOk(s, s.threads[u], key);
        if u != t && Holds(s.threads[u]) {
          assert Target(s.threads[u].op) != Target(op);
        }
      }
    }
  }

  lemma AnswersRemembers(s: State, t: nat, result: AdapterResult, key: Key)
    requires Remembers(s, key)
    ensures Remembers(VenueAnswers(s, t, result), key) && SameAnswers(s, VenueAnswers(s, t, result))
  {
    hide Remembers, Durable, Target;
    var s' := VenueAnswers(s, t, result);
    if s' != s {
      SentOf(s, t, key);
      RemembersMoved(s, s', t, key);
    }
  }

  // ----- restarts -----

  /** The last line of the file is a record that was appended to a broken one. */
  predicate Swallows(s: State) {
    s.file.end.Joined? && s.file.end.record.Snapshot?
  }

  /** The restart happens and finds the file like that. */
  ghost predicate CutsRecordOff(s: State, step: Step) {
    step.DoCrash? && Lists(step.list, RecoveredOrders(Survivors(s))) && Swallows(s)
  }

  /** And no other record knows of a call under this key. */
  ghost predicate Forgets(s: State, step: Step, key: Key) {
    CutsRecordOff(s, step)
    && exists c :: c in s.calls && Target(c) == key && Carries(s.file.end.record.record.order, c)
                   && !Durable(Snapshots(s.file.lines), c)
  }

  /** Or of the answer to this request. */
  ghost predicate ForgetsAnswer(s: State, step: Step, op: Operation) {
    && CutsRecordOff(s, step) && op in s.answered
    && Told(s.file.end.record.record.order, op, s.answered[op]) && !AnswerKept(Snapshots(s.file.lines), op, s.answered[op])
  }

  /** Apart from a record on a spoiled line, a restart finds the whole journal. */
  lemma SurvivorsAreJournaled(s: State)
    requires Safe(s) && Reloaded(s.file).Some? && !Swallows(s)
    ensures forall r :: r in s.journal ==> r in Survivors(s)
  {
    hide History, StageOk, Exclusive, Snapshots;
    if s.file.end.Unfinished? {
      SnapshotsGrow(s.file.lines, s.file.end.record);
    }
  }

  lemma SwallowedJournal(s: State)
    requires Safe(s) && Swallows(s)
    ensures s.journal == Snapshots(s.file.lines) + [s.file.end.record.record] && Survivors(s) == Snapshots(s.file.lines)
  {
    hide History, StageOk, Exclusive, Snapshots;
  }

  lemma RememberedByMore(s: State, found: seq<Record>, key: Key, op: Operation)
    requires forall r :: r in s.journal ==> r in found
    ensures CallsOk(s.calls, s.journal, key) ==> CallsOk(s.calls, found, key)
    ensures op in s.answered && AnswerKept(s.journal, op, s.answered[op]) ==> AnswerKept(found, op, s.answered[op])
  {
    hide Carries, Told, Target;
  }

  lemma RememberedByOthersExactly(s: State, step: Step, key: Key)
    requires Safe(s) && CallsOk(s.calls, s.journal, key) && CutsRecordOff(s, step)
    ensures CallsOk(s.calls, Survivors(s), key) <==> !Forgets(s, step, key)
  {
    hide Safe, Carries, Durable, Snapshots, Survivors, Target;
    SwallowedJournal(s);
    var record, others := s.file.end.record.record, Snapshots(s.file.lines);
    forall c | c in s.calls && Target(c) == key
      ensures Durable(others, c) || Carries(record.order, c)
    {
      DurableGrows(others, record, c);
    }
  }

  lemma BlockedDoesNotSwallow(s: State)
    ensures Swallows(s) ==> Reloaded(s.file).Some?
  {
  }

  /** A restart keeps the memory of the calls under a key, except exactly when it forgets them. */
  lemma CrashRemembersExactly(s: State, list: seq<Order>, events: nat, key: Key)
    requires Safe(s) && Remembers(s, key)
    ensures Remembers(Crash(s, list, events), key) <==> !Forgets(s, DoCrash(list, events), key)
  {
    hide Safe, Lists, RebuiltExchangeIndex, RebuiltClientIndex, RebuiltPositions, RecoveredOrders, CallsOk, Survivors, SentOk,
         Durable, Carries, Target, Snapshots;
    BlockedDoesNotSwallow(s);
    if Reloaded(s.file).Some? && Lists(list, RecoveredOrders(Survivors(s))) {
      if Swallows(s) {
        RememberedByOthersExactly(s, DoCrash(list, events), key);
      } else {
        SurvivorsAreJournaled(s);
        RememberedByMore(s, Survivors(s), key, CancelOp(CancelRequest("", "")));
      }
    }
  }

  /** The same for the answer to a request. */
  lemma CrashKeepsAnswerExactly(s: State, list: seq<Order>, events: nat, op: Operation)
    requires Safe(s) && AnswerOk(s, op)
    ensures AnswerOk(Crash(s, list, events), op) <==> !ForgetsAnswer(s, DoCrash(list, events), op)
  {
    hide Safe, Lists, RebuiltExchangeIndex, RebuiltClientIndex, RebuiltPositions, RecoveredOrders, Survivors, AnswerKept, Told,
         Snapshots;
    BlockedDoesNotSwallow(s);
    if Reloaded(s.file).Some? && Lists(list, RecoveredOrders(Survivors(s))) && op in s.answered {
      if Swallows(s) {
        SwallowedJournal(s);
        AnswerKeptGrows(Snapshots(s.file.lines), s.file.end.record.record, op, s.answered[op]);
      } else {
        SurvivorsAreJournaled(s);
        RememberedByMore(s, Survivors(s), Target(op), op);
      }
    }
  }

  // ----- every run -----

  lemma ExecRemembers(table: Risk.LimitTable, s: State, step: Step, key: Key)
    requires Safe(s) && Remembers(s, key) && !Forgets(s, step, key)
    ensures Remembers(Exec(table, s, step), key)
  {
    hide Safe, Remembers, PlaceStart, CancelStart, AmendStart, Append, AppendFails, CallVenue, VenueAnswers, Complete,
         ApplyNext, ApplyExecution, QueryStart, QueryAnswers, EventLogged, Crash, Forgets;
    match step
    case DoPlaceStart(t, q, marketData, marketPrice, preflight, reason) =>
      PlaceRemembers(table, s, t, q, marketData, marketPrice, preflight, reason, key);
    case DoCancelStart(t, c) => CancelRemembers(s, t, c, key);
    case DoAmendStart(t, a, legacy) => AmendRemembers(table, s, t, a, legacy, key);
    case DoAppend(t) => AppendRemembers(s, t, key);
    case DoAppendFails(t, extent) => QuietRemembers(s, t, "", extent, key);
    case DoCallVenue(t) => CallRemembers(s, t, key);
    case DoVenueAnswers(t, result) => AnswersRemembers(s, t, result, key);
    case DoComplete(t) => CompleteRemembers(s, t, key);
    case DoStreamReport(t, venue, r) => ExecutionRemembers(s, t, venue, r, [], key);
    case DoApplyNext(t) => NextRemembers(s, t, key);
    case DoQueryStart(t, id) => QuietRemembers(s, t, id, Nothing, key);
    case DoQueryAnswers(t, answer) => QueryRemembers(s, t, answer, key);
    case DoEventLogged(extent) => QuietRemembers(s, 0, "", extent, key);
    case DoCrash(list, events) => CrashRemembersExactly(s, list, events, key);
  }

  /** Some restart of the run forgets a call under this key. */
  ghost predicate Forgotten(table: Risk.LimitTable, steps: seq<Step>, key: Key) {
    exists i :: 0 <= i < |steps| && Forgets(After(table, steps[..i]), steps[i], key)
  }

  /** In every run, a call is remembered, or a restart of the run forgot it. */
  lemma {:induction false} CallsAreRemembered(table: Risk.LimitTable, steps: seq<Step>, key: Key)
    ensures Remembers(After(table, steps), key) || Forgotten(table, steps, key)
  {
    hide Exec, Forgets, Safe, Remembers;
    if steps == [] {
      NothingToRemember(key);
    } else {
      var n := |steps| - 1;
      var before := steps[..n];
      CallsAreRemembered(table, before, key);
      if Forgotten(table, before, key) {
        var i :| 0 <= i < n && Forgets(After(table, before[..i]), before[i], key);
        assert before[..i] == steps[..i] && before[i] == steps[i];
      } else if !Forgets(After(table, before), steps[n], key) {
        EveryRunIsSafe(table, before);
        ExecRemembers(table, After(table, before), steps[n], key);
      }
    }
  }

  lemma NothingToRemember(key: Key)
    ensures Remembers(Start(), key)
  {
  }

  // ----- answers over every run -----

  lemma AppendKeepsAnswer(s: State, t: nat, op: Operation)
    requires Safe(s) && AnswerOk(s, op)
    ensures AnswerOk(Append(s, t), op)
  {
    hide Safe, Filed, AnswerKept, AfterAppend, OpLive, Carries, Told;
    if t in s.threads && HasRecordToAppend(s.threads[t]) {
      var stage := s.threads[t];
      StageOf(s, t);
      FiledFacts(s, stage.record);
      AnsweredAfterAppend(Filed(s, stage.record), t, stage);
      if op in s.answered {
        AnswerKeptGrows(s.journal, stage.record, op, s.answered[op]);
      }
      if stage.Finishing? {
        AnswerKeptGrows(s.journal, stage.record, stage.op, stage.answer);
      }
    }
  }

  lemma AnsweredAfterAppend(s: State, t: nat, stage: Stage)
    ensures AfterAppend(s, t, stage).journal == s.journal
    ensures AfterAppend(s, t, stage).answered
            == if stage.Finishing? && !stage.op.PlaceOp? then s.answered[stage.op := stage.answer] else s.answered
  {
    hide Enter;
    match stage
    case Prepared(op, _) => EnterFacts(s, t, Recorded(op));
    case Finishing(op, record, answer, reports) => EnterFacts(s, t, Draining(record.order.venue, reports));
    case Saving(_, venue, reports) => EnterFacts(s, t, Draining(venue, reports));
    case _ => {}
  }

  /** No operation has this key, so nothing about it can be forgotten. */
  const NOBODY: Key := ("", "?")

  lemma NobodyIsRemembered(s: State)
    ensures Remembers(s, NOBODY)
  {
    forall op: Operation
      ensures Target(op) != NOBODY
    {
      assert |KeyOf(op)| != 1;
    }
  }

  lemma ExecKeepsAnswer(table: Risk.LimitTable, s: State, step: Step, op: Operation)
    requires Safe(s) && AnswerOk(s, op) && !ForgetsAnswer(s, step, op)
    ensures AnswerOk(Exec(table, s, step), op)
  {
    hide Safe, Remembers, PlaceStart, CancelStart, AmendStart, Append, AppendFails, CallVenue, VenueAnswers, Complete,
         ApplyNext, ApplyExecution, QueryStart, QueryAnswers, EventLogged, Crash, ForgetsAnswer, AnswerKept;
    NobodyIsRemembered(s);
    match step
    case DoPlaceStart(t, q, marketData, marketPrice, preflight, reason) =>
      PlaceRemembers(table, s, t, q, marketData, marketPrice, preflight, reason, NOBODY);
    case DoCancelStart(t, c) => CancelRemembers(s, t, c, NOBODY);
    case DoAmendStart(t, a, legacy) => AmendRemembers(table, s, t, a, legacy, NOBODY);
    case DoAppend(t) => AppendKeepsAnswer(s, t, op);
    case DoAppendFails(t, extent) => QuietRemembers(s, t, "", extent, NOBODY);
    case DoCallVenue(t) => CallRemembers(s, t, NOBODY);
    case DoVenueAnswers(t, result) => AnswersRemembers(s, t, result, NOBODY);
    case DoComplete(t) => CompleteRemembers(s, t, NOBODY);
    case DoStreamReport(t, venue, r) => ExecutionRemembers(s, t, venue, r, [], NOBODY);
    case DoApplyNext(t) => NextRemembers(s, t, NOBODY);
    case DoQueryStart(t, id) => QuietRemembers(s, t, id, Nothing, NOBODY);
    case DoQueryAnswers(t, answer) => QueryRemembers(s, t, answer, NOBODY);
    case DoEventLogged(extent) => QuietRemembers(s, 0, "", extent, NOBODY);
    case DoCrash(list, events) => CrashKeepsAnswerExactly(s, list, events, op);
  }

  /** Some restart of the run forgets the answer to this request. */
  ghost predicate AnswerForgotten(table: Risk.LimitTable, steps: seq<Step>, op: Operation) {
    exists i :: 0 <= i < |steps| && ForgetsAnswer(After(table, steps[..i]), steps[i], op)
  }

  /** In every run, an answer that was given is in the journal, or a restart of the run forgot it. */
  lemma {:induction false} AnswersAreRemembered(table: Risk.LimitTable, steps: seq<Step>, op: Operation)
    ensures AnswerOk(After(table, steps), op) || AnswerForgotten(table, steps, op)
  {
    hide Exec, ForgetsAnswer, Safe, AnswerKept;
    if steps != [] {
      var n := |steps| - 1;
      var before := steps[..n];
      AnswersAreRemembered(table, before, op);
      if AnswerForgotten(table, before, op) {
        var i :| 0 <= i < n && ForgetsAnswer(After(table, before[..i]), before[i], op);
        assert before[..i] == steps[..i] && before[i] == steps[i];
      } else if !ForgetsAnswer(After(table, before), steps[n], op) {
        EveryRunIsSafe(table, before);
        ExecKeepsAnswer(table, After(table, before), steps[n], op);
      }
    }
  }
}
