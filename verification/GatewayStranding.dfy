/**
 What a failed intent append leaves behind: the operation stays marked active although no thread
 carries it. Until a restart the order can neither be sent, canceled, amended nor reconciled. Nothing
 else brings an order into this state, and nothing but a restart ends it.
 */
module GatewayStranding {
  import opened Wrappers
  import opened Orders
  import opened Recovery
  import opened JournalEnds
  import opened Gateway
  import opened GatewayHistory
  import opened GatewaySafety
  import opened GatewayPositions
  import opened GatewayRuns
  import opened Positions
  import Fingerprints
  import Machine = OrderStateMachine
  import Risk

  /** This thread holds an operation of the order. */
  predicate HoldsFor(threads: map<nat, Stage>, t: nat, id: string) {
    t in threads && Holds(threads[t]) && IdOfOp(threads[t].op) == id
  }

  ghost predicate Carried(threads: map<nat, Stage>, id: string) {
    exists t :: HoldsFor(threads, t, id)
  }

  /** The order counts as busy and nobody is at work on it. */
  ghost predicate Stranded(s: State, id: string) {
    id in s.active && id in s.orders && !Carried(s.threads, id)
  }

  // ----- how it comes about -----

  /** An intent whose append fails, wherever it breaks off. */
  predicate Strands(s: State, step: Step, id: string) {
    && step.DoAppendFails? && !step.extent.Everything? && step.t in s.threads && s.threads[step.t].Prepared?
    && IdOfOp(s.threads[step.t].op) == id
  }

  /** When the append of an intent fails, its order is stranded, and nothing changes in memory. */
  lemma FailedIntentStrands(s: State, t: nat, extent: Extent, id: string)
    requires Safe(s) && Strands(s, DoAppendFails(t, extent), id)
    ensures var s' := AppendFails(s, t, extent);
            && Stranded(s', id) && s'.orders == s.orders && s'.active == s.active && s'.journal == s.journal && s'.calls == s.calls
  {
    hide History, FileOk, OpLive, Written;
    assert StageOk(s, s.threads[t]);
    OpLiveParts(s, s.threads[t].op);
    var s' := AppendFails(s, t, extent);
    assert s'.threads == s.threads - {t};
    OnlyHolder(s, t);
  }

  /** No other thread holds an operation of the order. */
  lemma OnlyHolder(s: State, t: nat)
    requires Safe(s) && t in s.threads && Holds(s.threads[t])
    ensures forall u :: HoldsFor(s.threads, u, IdOfOp(s.threads[t].op)) ==> u == t
  {
    hide History, FileOk, StageOk;
  }

  /**
   A create whose intent cannot be appended: the order stays in memory, was never sent and is not in
   the journal; a retry is told it exists, and every cancel finds it busy.
   */
  lemma FailedPlaceIsRemembered(table: Risk.LimitTable, s: State, t: nat, q: OrderRequest, marketData: bool,
                                marketPrice: Option<int>, preflight: Risk.Decision, reason: string, legacy: string,
                                c: CancelRequest, extent: Extent)
    requires Safe(s) && !extent.Everything? && t !in s.threads && q.clientOrderId !in s.orders && c.clientOrderId == q.clientOrderId
    requires PlaceDecision(table, s, q, marketData, marketPrice, preflight) == Risk.Accept
    ensures var s' := AppendFails(PlaceStart(table, s, t, q, marketData, marketPrice, preflight, reason), t, extent);
            && Stranded(s', q.clientOrderId) && s'.calls == s.calls && s'.journal == s.journal
            && ReplyToRepeat(s'.orders[q.clientOrderId], q, legacy) == ReplayedOrder
            && PlaceStart(table, s', t, q, marketData, marketPrice, preflight, reason) == s'
            && CancelDecision(s', c) == CancelBusy
  {
    hide Safe, PlaceDecision, Put, Publish, CancelKey, Fingerprints.CreateFingerprint, PlaceStart, Written, Carried;
    var o := NewOrder(q, Risk.Accept, reason);
    AcceptedPlace(table, s, t, q, marketData, marketPrice, preflight, reason);
    var s1 := PlaceStart(table, s, t, q, marketData, marketPrice, preflight, reason);
    var s' := AppendFails(s1, t, extent);
    assert s'.threads == s1.threads - {t};
    UnknownIsUncarried(s, q.clientOrderId);
    LeftUncarried(s.threads, t, s1.threads[t], q.clientOrderId);
    KnownIdIsRefused(table, s', t, q, marketData, marketPrice, preflight, reason);
  }

  lemma UnknownIsUncarried(s: State, id: string)
    requires Safe(s) && id !in s.orders
    ensures !Carried(s.threads, id)
  {
    hide Safe, OpLive;
    if Carried(s.threads, id) {
      var t :| HoldsFor(s.threads, t, id);
      HolderIsActive(s, t);
      OpLiveParts(s, s.threads[t].op);
    }
  }

  lemma LeftUncarried(threads: map<nat, Stage>, t: nat, stage: Stage, id: string)
    requires t !in threads && !Carried(threads, id)
    ensures !Carried(threads[t := stage] - {t}, id)
  {
    assert threads[t := stage] - {t} == threads;
  }

  lemma KnownIdIsRefused(table: Risk.LimitTable, s: State, t: nat, q: OrderRequest, marketData: bool,
                         marketPrice: Option<int>, preflight: Risk.Decision, reason: string)
    requires q.clientOrderId in s.orders
    ensures PlaceStart(table, s, t, q, marketData, marketPrice, preflight, reason) == s
  {
  }

  lemma AcceptedPlace(table: Risk.LimitTable, s: State, t: nat, q: OrderRequest, marketData: bool,
                      marketPrice: Option<int>, preflight: Risk.Decision, reason: string)
    requires t !in s.threads && q.clientOrderId !in s.orders
    requires PlaceDecision(table, s, q, marketData, marketPrice, preflight) == Risk.Accept
    ensures var o := NewOrder(q, Risk.Accept, reason);
            var s' := PlaceStart(table, s, t, q, marketData, marketPrice, preflight, reason);
            && s'.orders == s.orders[q.clientOrderId := o] && s'.active == s.active + {q.clientOrderId}
            && s'.threads == s.threads[t := Prepared(PlaceOp(q), NextRecord(s, o))]
            && s'.calls == s.calls && s'.journal == s.journal
  {
    hide PlaceDecision, NewOrder, Put, Publish;
    var o := NewOrder(q, Risk.Accept, reason);
    PutFacts(s, q.clientOrderId, o);
    PublishedIsSame(Put(s, q.clientOrderId, o));
  }

  // ----- what it refuses -----

  /** No cancel and no amend of a stranded order can start, and reconciliation passes it over. */
  lemma StrandedRefusesAll(table: Risk.LimitTable, s: State, id: string, t: nat, c: CancelRequest, a: AmendRequest,
                           legacy: string)
    requires Stranded(s, id) && s.orders[id].clientOrderId == id && c.clientOrderId == id && a.clientOrderId == id
    ensures CancelDecision(s, c) != CancelProceeds && AmendDecision(table, s, a, legacy) != AmendProceeds
    ensures QueryStart(s, t, id) == s
  {
    hide CancelKey, AmendKey, Fingerprints.CancelMatches, Fingerprints.AmendMatches, Carried;
  }

  // ----- only a restart ends it -----

  /** The order is stranded after the step exactly if it was before, and nothing is sent for it meanwhile. */
  ghost predicate Keeps(s: State, s': State, id: string) {
    && (Stranded(s', id) <==> Stranded(s, id))
    && (Stranded(s, id) ==> forall op :: op in s'.calls && IdOfOp(op) == id ==> op in s.calls)
  }

  predicate SameWork(s: State, s': State) {
    s'.active == s.active && s'.orders == s.orders && s'.calls == s.calls
  }

  lemma SafeActive(s: State, id: string)
    requires Safe(s) && id in s.active
    ensures id in s.orders
  {
    hide History, FileOk, StageOk, Exclusive;
  }

  /** One thread enters another stage and holds the same as before. */
  lemma MoveKeeps(s: State, s': State, t: nat, id: string)
    requires Safe(s) && t in s'.threads && s'.threads == s.threads[t := s'.threads[t]]
    requires HoldsFor(s'.threads, t, id) <==> HoldsFor(s.threads, t, id)
    requires (id in s'.active <==> id in s.active) && (id in s.orders ==> id in s'.orders)
    requires s'.calls == s.calls
    ensures Keeps(s, s', id)
  {
    hide Safe;
    if id in s.active {
      SafeActive(s, id);
    }
    forall u
      ensures HoldsFor(s'.threads, u, id) <==> HoldsFor(s.threads, u, id)
    {
    }
  }

  /** The order was not stranded, and a thread holds it now. */
  lemma StartKeeps(s: State, s': State, t: nat, id: string)
    requires id !in s.active && HoldsFor(s'.threads, t, id)
    ensures Keeps(s, s', id)
  {
  }

  lemma PlaceKeeps(table: Risk.LimitTable, s: State, t: nat, q: OrderRequest, marketData: bool, marketPrice: Option<int>,
                   preflight: Risk.Decision, reason: string, id: string)
    requires Safe(s)
    ensures Keeps(s, PlaceStart(table, s, t, q, marketData, marketPrice, preflight, reason), id)
  {
    hide Safe, PlaceDecision, NewOrder, Admit;
    if t !in s.threads && q.clientOrderId !in s.orders {
      var decision := PlaceDecision(table, s, q, marketData, marketPrice, preflight);
      AdmitKeeps(s, t, q, NewOrder(q, decision, reason), decision == Risk.Accept, id);
    }
  }

  lemma AdmitKeeps(s: State, t: nat, q: OrderRequest, o: Order, admitted: bool, id: string)
    requires Safe(s) && t !in s.threads && q.clientOrderId !in s.orders
    ensures Keeps(s, Admit(s, t, q, o, admitted), id)
  {
    hide Safe, Put, Publish, Keeps;
    var s' := Admit(s, t, q, o, admitted);
    PutFacts(s, q.clientOrderId, o);
    PublishedIsSame(Put(s, q.clientOrderId, o));
    if q.clientOrderId == id && id in s.active {
      SafeActive(s, id);
    }
    if q.clientOrderId == id && admitted {
      StartKeeps(s, s', t, id);
    } else {
      MoveKeeps(s, s', t, id);
    }
  }

  /** A request that goes ahead makes its order busy, and its thread holds it. */
  ghost predicate Started(s: State, s': State, t: nat, op: Operation) {
    && t in s'.threads && s'.threads == s.threads[t := s'.threads[t]]
    && s'.threads[t].Prepared? && s'.threads[t].op == op
    && s'.active == s.active + {IdOfOp(op)} && s'.orders.Keys == s.orders.Keys && s'.calls == s.calls
  }

  lemma StartedKeeps(s: State, s': State, t: nat, op: Operation, id: string)
    requires Safe(s) && Started(s, s', t, op) && t !in s.threads && IdOfOp(op) !in s.active
    ensures Keeps(s, s', id)
  {
    hide Safe, Keeps;
    if IdOfOp(op) == id {
      StartKeeps(s, s', t, id);
    } else {
      MoveKeeps(s, s', t, id);
    }
  }

  lemma CancelKeeps(s: State, t: nat, q: CancelRequest, id: string)
    requires Safe(s)
    ensures Keeps(s, CancelStart(s, t, q), id)
  {
    hide Safe, CancelDecision, CancelStart, Keeps, Started;
    if t !in s.threads && CancelDecision(s, q) == CancelProceeds {
      CancelFindsIdle(s, q);
      SafeOrder(s, q.clientOrderId);
      CancelStarts(s, t, q);
      StartedKeeps(s, CancelStart(s, t, q), t, CancelOp(q), id);
    } else {
      CancelStays(s, t, q);
      SameKeeps(s, id);
    }
  }

  lemma CancelStarts(s: State, t: nat, q: CancelRequest)
    requires t !in s.threads && CancelDecision(s, q) == CancelProceeds
    ensures Started(s, CancelStart(s, t, q), t, CancelOp(q))
  {
    hide CancelDecision, CancelKey, Publish;
    CancelFindsOrder(s, q);
    var id := q.clientOrderId;
    var o := WithRequest(s.orders[id], CancelKey(q), Fingerprints.CancelFingerprint(q)).(pendingAction := Cancel);
    PublishedIsSame(s.(orders := s.orders[id := o], active := s.active + {id}));
  }

  lemma CancelStays(s: State, t: nat, q: CancelRequest)
    requires t in s.threads || CancelDecision(s, q) != CancelProceeds
    ensures CancelStart(s, t, q) == s
  {
    hide CancelDecision;
  }

  lemma SameKeeps(s: State, id: string)
    ensures Keeps(s, s, id)
  {
  }

  lemma CancelFindsIdle(s: State, q: CancelRequest)
    requires CancelDecision(s, q) == CancelProceeds
    ensures q.clientOrderId in s.orders && s.orders[q.clientOrderId].clientOrderId !in s.active
  {
    hide CancelKey;
  }

  lemma AmendKeeps(table: Risk.LimitTable, s: State, t: nat, q: AmendRequest, legacy: string, id: string)
    requires Safe(s)
    ensures Keeps(s, AmendStart(table, s, t, q, legacy), id)
  {
    hide Safe, AmendDecision, AmendStart, Keeps, Started;
    if t !in s.threads && AmendDecision(table, s, q, legacy) == AmendProceeds {
      AmendFindsIdle(table, s, q, legacy);
      SafeOrder(s, q.clientOrderId);
      AmendStarts(table, s, t, q, legacy);
      StartedKeeps(s, AmendStart(table, s, t, q, legacy), t, AmendOp(q), id);
    } else {
      AmendStays(table, s, t, q, legacy);
      SameKeeps(s, id);
    }
  }

  lemma AmendStarts(table: Risk.LimitTable, s: State, t: nat, q: AmendRequest, legacy: string)
    requires t !in s.threads && AmendDecision(table, s, q, legacy) == AmendProceeds
    ensures Started(s, AmendStart(table, s, t, q, legacy), t, AmendOp(q))
  {
    hide AmendDecision, AmendKey, Publish;
    AmendFindsOrder(table, s, q, legacy);
    var id := q.clientOrderId;
    var o := WithRequest(s.orders[id], AmendKey(q), Fingerprints.AmendFingerprint(q))
             .(pendingAction := Amend, pendingAmendPrice := q.newPrice, pendingAmendQuantity := q.newQuantity);
    PublishedIsSame(s.(orders := s.orders[id := o], active := s.active + {id}));
  }

  lemma AmendStays(table: Risk.LimitTable, s: State, t: nat, q: AmendRequest, legacy: string)
    requires t in s.threads || AmendDecision(table, s, q, legacy) != AmendProceeds
    ensures AmendStart(table, s, t, q, legacy) == s
  {
    hide AmendDecision;
  }

  lemma AmendFindsIdle(table: Risk.LimitTable, s: State, q: AmendRequest, legacy: string)
    requires AmendDecision(table, s, q, legacy) == AmendProceeds
    ensures q.clientOrderId in s.orders && s.orders[q.clientOrderId].clientOrderId !in s.active
  {
    hide AmendKey;
  }

  lemma CompleteKeeps(s: State, t: nat, id: string)
    requires Safe(s)
    ensures Keeps(s, Complete(s, t), id)
  {
    hide Safe, CompletedOrder, Put, Publish, CompletedExchangeIndex, CompletedClientIndex, AnswerOf, ReportsToApply, Keeps;
    if t in s.threads && s.threads[t].Answered? && IdOfOp(s.threads[t].op) in s.orders {
      var op, result := s.threads[t].op, s.threads[t].result;
      var changed := IdOfOp(op);
      var before := s.orders[changed];
      var o := CompletedOrder(before, op, result);
      PutFacts(s, changed, o);
      var s1 := Put(s, changed, o).(active := s.active - {changed},
                                    exchangeIndex := CompletedExchangeIndex(s, before, op, result),
                                    clientIndex := CompletedClientIndex(s, op, result),
                                    deferred := if op.AmendOp? then s.deferred - {changed} else s.deferred);
      PublishedIsSame(s1);
      if changed == id {
        EndKeeps(s, Complete(s, t), t, id);
      } else {
        MoveKeeps(s, Complete(s, t), t, id);
      }
    } else {
      SameKeeps(s, id);
    }
  }

  /** A thread held the order, and it is not busy now. */
  lemma EndKeeps(s: State, s': State, t: nat, id: string)
    requires HoldsFor(s.threads, t, id) && id !in s'.active
    ensures Keeps(s, s', id)
  {
  }

  lemma MergeKeeps(s: State, t: nat, located: string, venue: Venue, r: Report, rest: seq<Report>, id: string)
    requires Safe(s) && located in s.orders && !HoldsFor(s.threads, t, id)
    ensures Keeps(s, MergeReport(s, t, located, venue, r, rest), id)
  {
    hide Safe, ReportedOrder, MustPersist, PutReported, Publish, Keeps;
    PutReportedFacts(s, located, ReportedOrder(s.orders[located], r), r);
    PublishedIsSame(PutReported(s, located, ReportedOrder(s.orders[located], r), r));
    MoveKeeps(s, MergeReport(s, t, located, venue, r, rest), t, id);
  }

  lemma DeferFacts(s: State, id: string, r: Report)
    ensures Defer(s, id, r).threads == s.threads && SameWork(s, Defer(s, id, r))
  {
  }

  lemma UnmergedBooks(s: State, t: nat, venue: Venue, r: Report, rest: seq<Report>)
    requires var located := Locate(s, venue, r);
             located.None? || MustDefer(venue, s.orders[located.value], r)
             || Machine.Outcome(s.orders[located.value], r).disposition == Machine.Invalid
    ensures var s' := ApplyExecution(s, t, venue, r, rest);
            s'.threads == s.threads[t := Draining(venue, rest)] && SameWork(s, s')
  {
    hide Locate, MustDefer, Machine.Outcome, MergeReport, Enter, Defer;
    var located := Locate(s, venue, r);
    EnterFacts(s, t, Draining(venue, rest));
    if located.Some? {
      DeferFacts(s, located.value, r);
      EnterFacts(Defer(s, located.value, r), t, Draining(venue, rest));
    }
  }

  lemma ExecutionKeeps(s: State, t: nat, venue: Venue, r: Report, rest: seq<Report>, id: string)
    requires Safe(s) && !HoldsFor(s.threads, t, id)
    ensures Keeps(s, ApplyExecution(s, t, venue, r, rest), id)
  {
    hide Safe, Locate, MustDefer, Machine.Outcome, MergeReport, Keeps;
    LocatedExists(s, venue, r);
    var located := Locate(s, venue, r);
    if located.Some? && !MustDefer(venue, s.orders[located.value], r)
       && Machine.Outcome(s.orders[located.value], r).disposition != Machine.Invalid {
      MergeKeeps(s, t, located.value, venue, r, rest, id);
    } else {
      hide ApplyExecution;
      UnmergedBooks(s, t, venue, r, rest);
      MoveKeeps(s, ApplyExecution(s, t, venue, r, rest), t, id);
    }
  }

  lemma QueryKeeps(s: State, t: nat, answer: Option<Report>, id: string)
    requires Safe(s)
    ensures Keeps(s, QueryAnswers(s, t, answer), id)
  {
    hide Safe, ApplyExecution, Keeps;
    if t in s.threads && s.threads[t].Querying? && s.threads[t].id in s.orders {
      match answer
      case Some(r) => ExecutionKeeps(s, t, s.orders[s.threads[t].id].venue, r, [], id);
      case None => MoveKeeps(s, QueryAnswers(s, t, None), t, id);
    } else {
      SameKeeps(s, id);
    }
  }

  /** A thread that held nothing of the order ends. */
  lemma LeaveKeeps(s: State, s': State, t: nat, id: string)
    requires s'.threads == s.threads - {t} && !HoldsFor(s.threads, t, id) && SameWork(s, s')
    ensures Keeps(s, s', id)
  {
    forall u
      ensures HoldsFor(s'.threads, u, id) <==> HoldsFor(s.threads, u, id)
    {
    }
  }

  lemma NextKeeps(s: State, t: nat, id: string)
    requires Safe(s)
    ensures Keeps(s, ApplyNext(s, t), id)
  {
    hide Safe, ApplyExecution, Keeps;
    if t in s.threads && s.threads[t].Draining? {
      var stage := s.threads[t];
      if stage.reports == [] {
        LeaveKeeps(s, ApplyNext(s, t), t, id);
      } else {
        ExecutionKeeps(s, t, stage.venue, stage.reports[0], stage.reports[1..], id);
      }
    } else {
      SameKeeps(s, id);
    }
  }

  lemma AppendKeeps(s: State, t: nat, id: string)
    requires Safe(s)
    ensures Keeps(s, Append(s, t), id)
  {
    hide Safe, AfterAppend, Filed, Keeps;
    if t in s.threads && HasRecordToAppend(s.threads[t]) {
      FiledFacts(s, s.threads[t].record);
      AfterAppendBooks(Filed(s, s.threads[t].record), t);
      MoveKeeps(s, Append(s, t), t, id);
    } else {
      SameKeeps(s, id);
    }
  }

  lemma AfterAppendBooks(s: State, t: nat)
    requires t in s.threads && HasRecordToAppend(s.threads[t])
    ensures var s' := AfterAppend(s, t, s.threads[t]);
            && t in s'.threads && s'.threads == s.threads[t := s'.threads[t]] && SameWork(s, s')
            && (if s.threads[t].Prepared? then s'.threads[t] == Recorded(s.threads[t].op) else s'.threads[t].Draining?)
  {
    hide Enter;
    match s.threads[t]
    case Prepared(op, _) => EnterFacts(s, t, Recorded(op));
    case Finishing(op, record, answer, reports) => EnterFacts(s, t, Draining(record.order.venue, reports));
    case Saving(_, venue, reports) => EnterFacts(s, t, Draining(venue, reports));
  }

  lemma CallKeeps(s: State, t: nat, id: string)
    requires Safe(s)
    ensures Keeps(s, CallVenue(s, t), id)
  {
    hide Safe, Enter;
    if t in s.threads && s.threads[t].Recorded? {
      var op := s.threads[t].op;
      var sent := s.(calls := s.calls + [op]);
      EnterFacts(sent, t, InFlight(op));
      if IdOfOp(op) == id {
        assert HoldsFor(s.threads, t, id) && HoldsFor(CallVenue(s, t).threads, t, id);
      } else {
        MoveKeeps(s, CallVenue(s, t).(calls := s.calls), t, id);
      }
    }
  }

  lemma AnswerKeeps(s: State, t: nat, result: AdapterResult, id: string)
    requires Safe(s)
    ensures Keeps(s, VenueAnswers(s, t, result), id)
  {
    hide Safe, Enter, Keeps;
    if t in s.threads && s.threads[t].InFlight? {
      EnterFacts(s, t, Answered(s.threads[t].op, result));
      MoveKeeps(s, VenueAnswers(s, t, result), t, id);
    } else {
      SameKeeps(s, id);
    }
  }

  lemma QuietKeeps(s: State, t: nat, queried: string, extent: Extent, id: string)
    requires Safe(s)
    ensures Keeps(s, QueryStart(s, t, queried), id) && Keeps(s, EventLogged(s, extent), id)
  {
    hide Safe, Written, Enter;
    EnterFacts(s, t, Querying(queried));
    if QueryStart(s, t, queried) != s {
      MoveKeeps(s, QueryStart(s, t, queried), t, id);
    }
  }

  /** A failed append strands the order of the intent it was for, and no other. */
  lemma FailureKeepsExactly(s: State, t: nat, extent: Extent, id: string)
    requires Safe(s)
    ensures var s' := AppendFails(s, t, extent);
            if Strands(s, DoAppendFails(t, extent), id) then Stranded(s', id) && !Stranded(s, id) && s'.calls == s.calls
            else Keeps(s, s', id)
  {
    hide Safe, Written, Keeps, Carried, Stranded;
    var s' := AppendFails(s, t, extent);
    if Strands(s, DoAppendFails(t, extent), id) {
      FailedIntentStrands(s, t, extent, id);
      HolderCarries(s, t);
    } else if t in s.threads && HasRecordToAppend(s.threads[t]) && !extent.Everything? {
      LeaveKeeps(s, s', t, id);
    } else {
      SameKeeps(s, id);
    }
  }

  lemma HolderCarries(s: State, t: nat)
    requires t in s.threads && Holds(s.threads[t])
    ensures !Stranded(s, IdOfOp(s.threads[t].op))
  {
    assert HoldsFor(s.threads, t, IdOfOp(s.threads[t].op));
  }

  /** A restart that takes place. */
  ghost predicate Restarts(s: State, step: Step) {
    step.DoCrash? && Reloaded(s.file).Some? && Lists(step.list, RecoveredOrders(Survivors(s)))
  }

  lemma CrashUnstrands(s: State, list: seq<Order>, events: nat, id: string)
    ensures if Restarts(s, DoCrash(list, events)) then !Stranded(Crash(s, list, events), id) else Crash(s, list, events) == s
  {
    hide Lists, RecoveredOrders, RebuiltExchangeIndex, RebuiltClientIndex, RebuiltPositions, Survivors, Reloaded, Carried;
  }

  lemma ExecKeeps(table: Risk.LimitTable, s: State, step: Step, id: string)
    requires Safe(s) && !step.DoAppendFails? && !step.DoCrash?
    ensures Keeps(s, Exec(table, s, step), id)
  {
    hide Safe, PlaceStart, CancelStart, AmendStart, Complete, ApplyExecution, ApplyNext, QueryAnswers, Append, AppendFails,
         CallVenue, VenueAnswers, QueryStart, EventLogged, Keeps;
    match step {
      case DoPlaceStart(t, q, marketData, marketPrice, preflight, reason) =>
        PlaceKeeps(table, s, t, q, marketData, marketPrice, preflight, reason, id);
      case DoCancelStart(t, c) => CancelKeeps(s, t, c, id);
      case DoAmendStart(t, a, legacy) => AmendKeeps(table, s, t, a, legacy, id);
      case DoComplete(t) => CompleteKeeps(s, t, id);
      case DoStreamReport(t, venue, r) =>
        SameKeeps(s, id);
        if t !in s.threads {
          ExecutionKeeps(s, t, venue, r, [], id);
        }
      case DoApplyNext(t) => NextKeeps(s, t, id);
      case DoQueryAnswers(t, answer) => QueryKeeps(s, t, answer, id);
      case DoAppend(t) => AppendKeeps(s, t, id);
      case DoCallVenue(t) => CallKeeps(s, t, id);
      case DoVenueAnswers(t, result) => AnswerKeeps(s, t, result, id);
      case DoQueryStart(t, queried) => QuietKeeps(s, t, queried, Nothing, id);
      case DoEventLogged(extent) => QuietKeeps(s, 0, id, extent, id);
    }
  }

  /** In any reachable state: which step strands an order, and which ends it. */
  lemma StrandedExactly(table: Risk.LimitTable, s: State, step: Step, id: string)
    requires Safe(s)
    ensures Stranded(Exec(table, s, step), id)
            <==> if Stranded(s, id) then !Restarts(s, step) else Strands(s, step, id)
  {
    hide Safe, Exec, Stranded, Restarts;
    match step
    case DoAppendFails(t, extent) =>
      FailureKeepsExactly(s, t, extent, id);
      FailsAsExec(table, s, t, extent);
    case DoCrash(list, events) =>
      CrashUnstrands(s, list, events, id);
      CrashAsExec(table, s, list, events);
    case _ =>
      ExecKeeps(table, s, step, id);
      OnlyCrashesRestart(s, step);
  }

  lemma OnlyCrashesRestart(s: State, step: Step)
    ensures !step.DoCrash? ==> !Restarts(s, step)
  {
  }

  lemma FailsAsExec(table: Risk.LimitTable, s: State, t: nat, extent: Extent)
    ensures Exec(table, s, DoAppendFails(t, extent)) == AppendFails(s, t, extent)
    ensures !Restarts(s, DoAppendFails(t, extent))
  {
  }

  lemma CrashAsExec(table: Risk.LimitTable, s: State, list: seq<Order>, events: nat)
    ensures Exec(table, s, DoCrash(list, events)) == Crash(s, list, events)
  {
  }

  ghost predicate FailedAt(table: Risk.LimitTable, steps: seq<Step>, i: nat, id: string)
    requires i < |steps|
  {
    && Strands(After(table, steps[..i]), steps[i], id)
    && forall j :: i < j < |steps| ==> !Restarts(After(table, steps[..j]), steps[j])
  }

  /** Some intent's append failed, and no restart took place since. */
  ghost predicate FailedSince(table: Risk.LimitTable, steps: seq<Step>, id: string) {
    exists i :: 0 <= i < |steps| && FailedAt(table, steps, i, id)
  }

  lemma FailedAtLonger(table: Risk.LimitTable, before: seq<Step>, step: Step, i: nat, id: string)
    requires i <= |before|
    ensures FailedAt(table, before + [step], i, id)
            <==> if i == |before| then Strands(After(table, before), step, id)
                 else FailedAt(table, before, i, id) && !Restarts(After(table, before), step)
  {
    hide After, Strands, Restarts;
    var steps, n := before + [step], |before|;
    assert steps[..n] == before && steps[n] == step;
    assert forall j :: 0 <= j < n ==> steps[..j] == before[..j] && steps[j] == before[j];
    if i < n && FailedAt(table, steps, i, id) {
      assert !Restarts(After(table, steps[..n]), steps[n]);
    }
  }

  lemma OneMoreStep(table: Risk.LimitTable, before: seq<Step>, step: Step, id: string)
    ensures FailedSince(table, before + [step], id)
            <==> Strands(After(table, before), step, id)
                 || (FailedSince(table, before, id) && !Restarts(After(table, before), step))
  {
    hide After, Strands, Restarts, FailedAt;
    forall i | 0 <= i <= |before|
      ensures FailedAt(table, before + [step], i, id)
              <==> if i == |before| then Strands(After(table, before), step, id)
                   else FailedAt(table, before, i, id) && !Restarts(After(table, before), step)
    {
      FailedAtLonger(table, before, step, i, id);
    }
    if Strands(After(table, before), step, id) {
      assert FailedAt(table, before + [step], |before|, id);
    } else if FailedSince(table, before, id) && !Restarts(After(table, before), step) {
      var i :| 0 <= i < |before| && FailedAt(table, before, i, id);
      assert FailedAt(table, before + [step], i, id);
    }
  }

  /**
   Over every run: an order is stranded exactly if the append of an intent for it failed and no restart
   took place since.
   */
  lemma {:induction false} StrandedOverRunsExactly(table: Risk.LimitTable, steps: seq<Step>, id: string)
    ensures Stranded(After(table, steps), id) <==> FailedSince(table, steps, id)
  {
    hide Exec, Stranded, Safe, FailedSince, Strands, Restarts;
    if steps == [] {
      NothingStrandedYet(table, id);
    } else {
      var n := |steps| - 1;
      var before := steps[..n];
      assert steps == before + [steps[n]];
      StrandedOverRunsExactly(table, before, id);
      EveryRunIsSafe(table, before);
      StrandedExactly(table, After(table, before), steps[n], id);
      OneMoreStep(table, before, steps[n], id);
      StrandsIsNoRestart(After(table, before), steps[n], id);
    }
  }

  lemma StrandsIsNoRestart(s: State, step: Step, id: string)
    requires Safe(s)
    ensures Strands(s, step, id) ==> !Restarts(s, step) && !Stranded(s, id)
  {
    hide Safe, Carried;
    if Strands(s, step, id) {
      HolderCarries(s, step.t);
    }
  }

  lemma NothingStrandedYet(table: Risk.LimitTable, id: string)
    ensures !Stranded(After(table, []), id) && !FailedSince(table, [], id)
  {
  }

  /** So in any run that goes on without a restart the order stays stranded, and no call for it is made. */
  lemma {:induction false} StrandedLasts(table: Risk.LimitTable, steps: seq<Step>, more: seq<Step>, id: string)
    requires Stranded(After(table, steps), id)
    requires forall i :: 0 <= i < |more| ==> !more[i].DoCrash?
    ensures Stranded(After(table, steps + more), id)
    ensures forall op :: op in After(table, steps + more).calls && IdOfOp(op) == id ==> op in After(table, steps).calls
  {
    hide After, Exec, Stranded, Safe;
    if more == [] {
      assert steps + more == steps;
    } else {
      var n := |more| - 1;
      var before := more[..n];
      assert forall i :: 0 <= i < n ==> before[i] == more[i];
      StrandedLasts(table, steps, before, id);
      assert steps + more == (steps + before) + [more[n]];
      var s := After(table, steps + before);
      AfterOneMore(table, steps + before, more[n]);
      EveryRunIsSafe(table, steps + before);
      if more[n].DoAppendFails? {
        FailureKeepsExactly(s, more[n].t, more[n].extent, id);
        FailsAsExec(table, s, more[n].t, more[n].extent);
      } else {
        ExecKeeps(table, s, more[n], id);
      }
    }
  }

  /** A restart ends it; an order of which the restart finds nothing is then unknown and can be created anew. */
  lemma RestartEndsStranding(s: State, list: seq<Order>, events: nat, id: string)
    requires Restarts(s, DoCrash(list, events))
    ensures !Stranded(Crash(s, list, events), id)
    ensures (forall r :: r in Survivors(s) ==> IdOf(r) != id) ==> id !in Crash(s, list, events).orders
  {
    hide RecoveredOrders, RebuiltExchangeIndex, RebuiltClientIndex, RebuiltPositions, Lists, Carried, Survivors, Reloaded;
    CrashUnstrands(s, list, events, id);
    if id in RecoveredOrders(Survivors(s)) {
      var newest := RecoveredIsNewest(Survivors(s), id);
    }
  }
}
