/**
 Reports held back while a Binance cancel-replace is in progress: the amend that completes releases
 them behind its own reports, in order. An amend that completes without being confirmed leaves its
 order pending, and then nobody releases what is held back after that.
 */
module GatewayDeferral {
  import opened Wrappers
  import opened Orders
  import opened Gateway
  import opened Recovery
  import opened GatewayHistory
  import opened GatewaySafety
  import opened GatewayPositions
  import opened GatewayRebuild
  import opened GatewayRuns
  import opened JournalEnds
  import opened Positions
  import Fingerprints
  import Machine = OrderStateMachine
  import CancelReplace
  import Risk

  function Held(s: State, id: string): seq<Report> {
    if id in s.deferred then s.deferred[id] else []
  }

  /** The step in which an amend of this order completes. */
  predicate CompletesAmend(s: State, step: Step, id: string) {
    step.DoComplete? && step.t in s.threads && s.threads[step.t].Answered? && s.threads[step.t].op.AmendOp?
    && IdOfOp(s.threads[step.t].op) == id && id in s.orders
  }

  /** The completing amend's thread applies first the venue's answer, then what was held back, in order. */
  lemma CompletionReleases(s: State, t: nat, id: string)
    requires CompletesAmend(s, DoComplete(t), id)
    ensures var s' := Complete(s, t);
            && Held(s', id) == [] && s'.threads[t].Finishing?
            && s'.threads[t].reports == s.threads[t].result.reports + Held(s, id)
  {
    hide CompletedOrder, Put, Publish, CompletedExchangeIndex, CompletedClientIndex, AnswerOf;
    var before := s.orders[id];
    var o := CompletedOrder(before, s.threads[t].op, s.threads[t].result);
    PutFacts(s, id, o);
    var s1 := Put(s, id, o).(active := s.active - {id},
                             exchangeIndex := CompletedExchangeIndex(s, before, s.threads[t].op, s.threads[t].result),
                             clientIndex := CompletedClientIndex(s, s.threads[t].op, s.threads[t].result),
                             deferred := s.deferred - {id});
    PublishedIsSame(s1);
  }

  lemma CompleteKeepsOthers(s: State, t: nat, id: string)
    requires !CompletesAmend(s, DoComplete(t), id)
    ensures Held(Complete(s, t), id) == Held(s, id)
  {
    hide CompletedOrder, Put, Publish, CompletedExchangeIndex, CompletedClientIndex, AnswerOf, ReportsToApply;
    if t in s.threads && s.threads[t].Answered? && IdOfOp(s.threads[t].op) in s.orders {
      var op, result := s.threads[t].op, s.threads[t].result;
      var changed := IdOfOp(op);
      var before := s.orders[changed];
      var o := CompletedOrder(before, op, result);
      PutFacts(s, changed, o);
      var s1 := Put(s, changed, o).(active := s.active - {changed},
                                    exchangeIndex := CompletedExchangeIndex(s, before, op, result),
                                    clientIndex := CompletedClientIndex(s, op, result),
                                    deferred := if op.AmendOp? then s.deferred - {changed} else s.deferred);
      PublishedIsSame(s1);
    }
  }

  lemma MergeKeepsHeld(s: State, t: nat, id: string, venue: Venue, r: Report, rest: seq<Report>)
    requires id in s.orders
    ensures MergeReport(s, t, id, venue, r, rest).deferred == s.deferred
  {
    hide ReportedOrder, MustPersist, PutReported, Publish;
    PutReportedFacts(s, id, ReportedOrder(s.orders[id], r), r);
    PublishedIsSame(PutReported(s, id, ReportedOrder(s.orders[id], r), r));
  }

  /** A report is added to the held ones exactly when its order must not see it yet, and never replaces any. */
  lemma ExecutionHoldsExactly(s: State, t: nat, venue: Venue, r: Report, rest: seq<Report>, id: string)
    ensures var located := Locate(s, venue, r);
            Held(ApplyExecution(s, t, venue, r, rest), id)
            == Held(s, id) + if located == Some(id) && id in s.orders && MustDefer(venue, s.orders[id], r) then [r] else []
  {
    hide Locate, MustDefer, Machine.Outcome, MergeReport;
    LocatedExists(s, venue, r);
    var located := Locate(s, venue, r);
    if located.Some? && !MustDefer(venue, s.orders[located.value], r)
       && Machine.Outcome(s.orders[located.value], r).disposition != Machine.Invalid {
      MergeKeepsHeld(s, t, located.value, venue, r, rest);
    }
  }

  lemma StartsKeepHeld(table: Risk.LimitTable, s: State, step: Step, id: string)
    requires step.DoPlaceStart? || step.DoCancelStart? || step.DoAmendStart?
    ensures Held(Exec(table, s, step), id) == Held(s, id)
  {
    hide PlaceStart, CancelStart, AmendStart, Complete, ApplyNext, ApplyExecution, QueryAnswers, StreamReport, Append,
         AppendFails, CallVenue, VenueAnswers, QueryStart, Crash;
    match step
    case DoPlaceStart(t, q, marketData, marketPrice, preflight, reason) =>
      PlaceKeepsHeld(table, s, t, q, marketData, marketPrice, preflight, reason);
    case DoCancelStart(t, c) => CancelKeepsHeld(s, t, c);
    case DoAmendStart(t, a, legacy) => AmendKeepsHeld(table, s, t, a, legacy);
  }

  lemma AdmitKeepsHeld(s: State, t: nat, q: OrderRequest, o: Order, admitted: bool)
    ensures Admit(s, t, q, o, admitted).deferred == s.deferred
  {
    hide Put, Publish;
    PutFacts(s, q.clientOrderId, o);
    PublishedIsSame(Put(s, q.clientOrderId, o));
  }

  lemma PlaceKeepsHeld(table: Risk.LimitTable, s: State, t: nat, q: OrderRequest, marketData: bool,
                       marketPrice: Option<int>, preflight: Risk.Decision, reason: string)
    ensures PlaceStart(table, s, t, q, marketData, marketPrice, preflight, reason).deferred == s.deferred
  {
    hide PlaceDecision, NewOrder, Admit;
    var decision := PlaceDecision(table, s, q, marketData, marketPrice, preflight);
    AdmitKeepsHeld(s, t, q, NewOrder(q, decision, reason), decision == Risk.Accept);
  }

  lemma CancelKeepsHeld(s: State, t: nat, q: CancelRequest)
    ensures CancelStart(s, t, q).deferred == s.deferred
  {
    hide CancelDecision, CancelKey, Publish;
    if t !in s.threads && CancelDecision(s, q) == CancelProceeds {
      CancelFindsOrder(s, q);
      var id := q.clientOrderId;
      var o := WithRequest(s.orders[id], CancelKey(q), Fingerprints.CancelFingerprint(q)).(pendingAction := Cancel);
      PublishedIsSame(s.(orders := s.orders[id := o], active := s.active + {id}));
    }
  }

  lemma AmendKeepsHeld(table: Risk.LimitTable, s: State, t: nat, q: AmendRequest, legacy: string)
    ensures AmendStart(table, s, t, q, legacy).deferred == s.deferred
  {
    hide AmendDecision, AmendKey, Publish;
    if t !in s.threads && AmendDecision(table, s, q, legacy) == AmendProceeds {
      AmendFindsOrder(table, s, q, legacy);
      var id := q.clientOrderId;
      var o := WithRequest(s.orders[id], AmendKey(q), Fingerprints.AmendFingerprint(q))
               .(pendingAction := Amend, pendingAmendPrice := q.newPrice, pendingAmendQuantity := q.newQuantity);
      PublishedIsSame(s.(orders := s.orders[id := o], active := s.active + {id}));
    }
  }

  lemma AppendKeepsHeld(s: State, t: nat, extent: Extent)
    ensures Append(s, t).deferred == s.deferred && AppendFails(s, t, extent).deferred == s.deferred
  {
    hide AfterAppend, Filed, Written;
    if t in s.threads && HasRecordToAppend(s.threads[t]) {
      FiledFacts(s, s.threads[t].record);
      AfterAppendKeepsHeld(Filed(s, s.threads[t].record), t, s.threads[t]);
    }
  }

  lemma AfterAppendKeepsHeld(s: State, t: nat, stage: Stage)
    ensures AfterAppend(s, t, stage).deferred == s.deferred
  {
    if stage.Finishing? && !stage.op.PlaceOp? {
      var s1 := Enter(s, t, Draining(stage.record.order.venue, stage.reports));
      assert s1.(answered := s1.answered[stage.op := stage.answer]).deferred == s.deferred;
    }
  }

  lemma ThreadStepKeepsHeld(table: Risk.LimitTable, s: State, step: Step)
    requires step.DoAppend? || step.DoAppendFails? || step.DoCallVenue? || step.DoVenueAnswers? || step.DoQueryStart?
             || step.DoEventLogged?
    ensures Exec(table, s, step).deferred == s.deferred
  {
    hide PlaceStart, CancelStart, AmendStart, Complete, ApplyNext, ApplyExecution, QueryAnswers, StreamReport, Append,
         AppendFails, Crash;
    match step
    case DoAppend(t) => AppendKeepsHeld(s, t, Nothing);
    case DoAppendFails(t, extent) => AppendKeepsHeld(s, t, extent);
    case _ => {}
  }

  /** Held reports only ever gain reports behind them, until exactly the completion of their order's amend. */
  lemma HeldReportsWaitForTheirAmend(table: Risk.LimitTable, s: State, step: Step, id: string)
    requires !step.DoCrash?
    ensures if CompletesAmend(s, step, id) then Held(Exec(table, s, step), id) == []
            else Held(s, id) <= Held(Exec(table, s, step), id)
  {
    hide PlaceStart, CancelStart, AmendStart, Complete, ApplyExecution, Append, AppendFails, CallVenue, VenueAnswers,
         QueryStart, Held, Locate, MustDefer;
    match step {
      case DoComplete(t) =>
        if CompletesAmend(s, step, id) {
          CompletionReleases(s, t, id);
        } else {
          CompleteKeepsOthers(s, t, id);
        }
      case DoStreamReport(t, venue, r) => ExecutionHoldsExactly(s, t, venue, r, [], id);
      case DoApplyNext(t) =>
        if t in s.threads && s.threads[t].Draining? {
          NextKeepsHeld(s, t, id);
        }
      case DoQueryAnswers(t, answer) =>
        if t in s.threads && s.threads[t].Querying? && s.threads[t].id in s.orders {
          QueryKeepsHeld(s, t, answer, id);
        }
      case DoPlaceStart(_, _, _, _, _, _) => StartsKeepHeld(table, s, step, id);
      case DoCancelStart(_, _) => StartsKeepHeld(table, s, step, id);
      case DoAmendStart(_, _, _) => StartsKeepHeld(table, s, step, id);
      case _ =>
        ThreadStepKeepsHeld(table, s, step);
        SameHeld(s, Exec(table, s, step), id);
    }
  }

  lemma SameHeld(s: State, s': State, id: string)
    requires s'.deferred == s.deferred
    ensures Held(s', id) == Held(s, id)
  {
  }

  lemma NextKeepsHeld(s: State, t: nat, id: string)
    requires t in s.threads && s.threads[t].Draining?
    ensures Held(s, id) <= Held(ApplyNext(s, t), id)
  {
    hide ApplyExecution, Locate, MustDefer;
    var stage := s.threads[t];
    if stage.reports != [] {
      ExecutionHoldsExactly(s, t, stage.venue, stage.reports[0], stage.reports[1..], id);
    }
  }

  lemma QueryKeepsHeld(s: State, t: nat, answer: Option<Report>, id: string)
    requires t in s.threads && s.threads[t].Querying? && s.threads[t].id in s.orders
    ensures Held(s, id) <= Held(QueryAnswers(s, t, answer), id)
  {
    hide ApplyExecution, Locate, MustDefer;
    if answer.Some? {
      ExecutionHoldsExactly(s, t, s.orders[s.threads[t].id].venue, answer.value, [], id);
    }
  }

  // ----- orders whose amend nobody carries any more -----

  /** A pending amend that no thread carries any more. */
  predicate Orphaned(s: State, id: string) {
    id in s.orders && s.orders[id].pendingAction == Amend && id !in s.active
  }

  lemma CompletedPending(o: Order, q: AmendRequest, result: AdapterResult)
    ensures AmendedOrder(o, q, result).pendingAction
            == if result.accepted then o.pendingAction else if result.outcomeUncertain then Amend else NoAction
  {
    hide AmendKey, AnswerOf, DriftNote, CancelReplace.WithOffset, CancelReplace.ActualQuantity, CancelReplace.FinalOldFill,
         CancelReplace.FinalOldQuote;
  }

  /**
   An amend that completes leaves its order orphaned exactly when the outcome is uncertain, or accepted
   while no report has settled the amend yet: acceptance alone does not settle it.
   */
  lemma CompletionOrphansExactly(s: State, t: nat, id: string)
    requires CompletesAmend(s, DoComplete(t), id)
    ensures var result := s.threads[t].result;
            Orphaned(Complete(s, t), id)
            <==> if result.accepted then s.orders[id].pendingAction == Amend else result.outcomeUncertain
  {
    hide Put, Publish, CompletedExchangeIndex, CompletedClientIndex, AnswerOf, ReportsToApply, AmendedOrder;
    var before := s.orders[id];
    var o := CompletedOrder(before, s.threads[t].op, s.threads[t].result);
    CompletedPending(before, s.threads[t].op.amend, s.threads[t].result);
    PutFacts(s, id, o);
    var s1 := Put(s, id, o).(active := s.active - {id},
                             exchangeIndex := CompletedExchangeIndex(s, before, s.threads[t].op, s.threads[t].result),
                             clientIndex := CompletedClientIndex(s, s.threads[t].op, s.threads[t].result),
                             deferred := s.deferred - {id});
    PublishedIsSame(s1);
  }

  lemma OrphanRefusesCancel(s: State, id: string, c: CancelRequest)
    requires Orphaned(s, id) && c.clientOrderId == id
    ensures CancelDecision(s, c) != CancelProceeds
  {
    hide CancelKey, Fingerprints.CancelMatches;
  }

  lemma OrphanRefusesAmend(table: Risk.LimitTable, s: State, id: string, a: AmendRequest, legacy: string)
    requires Orphaned(s, id) && a.clientOrderId == id
    ensures AmendDecision(table, s, a, legacy) != AmendProceeds
  {
    hide AmendKey, Fingerprints.AmendMatches;
  }

  /** While an order is orphaned no cancel and no amend of it can start. */
  lemma OrphanRefusesOperations(table: Risk.LimitTable, s: State, id: string, c: CancelRequest, a: AmendRequest, legacy: string)
    requires Orphaned(s, id) && c.clientOrderId == id && a.clientOrderId == id
    ensures CancelDecision(s, c) != CancelProceeds && AmendDecision(table, s, a, legacy) != AmendProceeds
  {
    hide CancelDecision, AmendDecision;
    OrphanRefusesCancel(s, id, c);
    OrphanRefusesAmend(table, s, id, a, legacy);
  }

  /** Nor does any thread hold an operation of it, so nothing releases what is held back. */
  lemma OrphanKeepsHeld(table: Risk.LimitTable, s: State, step: Step, id: string)
    requires Safe(s) && Orphaned(s, id) && !step.DoCrash?
    ensures Held(s, id) <= Held(Exec(table, s, step), id)
  {
    hide Safe, Exec, Held;
    HeldReportsWaitForTheirAmend(table, s, step, id);
    if CompletesAmend(s, step, id) {
      HolderFacts(s, step.t);
      OpLiveParts(s, s.threads[step.t].op);
      assert false;
    }
  }

  /** What Binance reports of an orphan are held back: a generation it does not know, and the end of its live one. */
  predicate HeldBack(venue: Venue, o: Order, r: Report) {
    && venue == Binance
    && (|| (r.exchangeOrderId != "" && o.exchangeOrderId != "" && r.exchangeOrderId != o.exchangeOrderId
            && r.exchangeOrderId !in o.exchangeOrderIdAliases)
        || (r.status == Canceled && r.exchangeOrderId == o.exchangeOrderId))
  }

  /** Exactly these are added to the reports held back, and then neither order nor orphan state changes. */
  lemma OrphanHoldsExactly(s: State, t: nat, venue: Venue, r: Report, rest: seq<Report>, id: string)
    requires Orphaned(s, id) && Locate(s, venue, r) == Some(id)
    ensures var s' := ApplyExecution(s, t, venue, r, rest);
            && Held(s', id) == Held(s, id) + (if HeldBack(venue, s.orders[id], r) then [r] else [])
            && (HeldBack(venue, s.orders[id], r) ==> s'.orders == s.orders && Orphaned(s', id))
  {
    hide Locate, Machine.Outcome, MergeReport;
    ExecutionHoldsExactly(s, t, venue, r, rest, id);
  }

  // ----- which reports end it -----

  /** The report fills the order, or ends it in sequence. */
  predicate EndsOrder(o: Order, r: Report) {
    || Machine.Aggregate(o, r) >= Machine.MergedQuantity(o, r) || IsTerminal(o.status)
    || (!Machine.StaleSequence(o, r) && (r.status == Canceled || r.status == Rejected))
  }

  /** The report shows the terms the amend asked for. */
  predicate ConfirmsAmend(o: Order, r: Report) {
    && (o.pendingAmendPrice.None? || (r.orderPrice.Some? && r.orderPrice == o.pendingAmendPrice))
    && (o.pendingAmendQuantity.None?
        || (r.orderQuantity.Some? && Some(Machine.MergedQuantity(o, r)) == o.pendingAmendQuantity))
  }

  /**
   An accepted report settles a pending amend exactly when it is of the live generation and ends the
   order or confirms the terms.
   */
  lemma ReportSettlesExactly(o: Order, r: Report)
    requires o.pendingAction == Amend && Machine.Accepts(o, r)
    ensures Machine.Merge(o, r).pendingAction != Amend
            <==> !Machine.Historical(o, r) && (EndsOrder(o, r) || ConfirmsAmend(o, r))
  {
    hide Machine.Accepts, Machine.Aggregate, Machine.MergedQuantity, Machine.MergedQuote, Machine.MergedAverage,
         Machine.MergedSequence, Machine.Historical, Machine.StaleSequence, Machine.Changed;
    if !Machine.Historical(o, r) {
      TerminalExactly(o, r);
    }
  }

  lemma TerminalExactly(o: Order, r: Report)
    requires !Machine.Historical(o, r)
    ensures IsTerminal(Machine.MergedStatus(o, r)) <==> EndsOrder(o, r)
  {
    hide Machine.Aggregate, Machine.MergedQuantity, Machine.Historical, Machine.StaleSequence;
  }

  predicate ReportEndsOrphan(s: State, venue: Venue, r: Report, id: string) {
    && id in s.orders && Locate(s, venue, r) == Some(id) && !HeldBack(venue, s.orders[id], r)
    && Machine.Accepts(s.orders[id], r) && !Machine.Historical(s.orders[id], r)
    && (EndsOrder(s.orders[id], r) || ConfirmsAmend(s.orders[id], r))
  }

  /** A report ends the orphan state exactly when it is not held back and settles the amend. */
  lemma ReportEndsOrphanExactly(s: State, t: nat, venue: Venue, r: Report, rest: seq<Report>, id: string)
    requires Orphaned(s, id)
    ensures Orphaned(ApplyExecution(s, t, venue, r, rest), id) <==> !ReportEndsOrphan(s, venue, r, id)
  {
    hide Locate, Machine.Outcome, MergeReport, EndsOrder, ConfirmsAmend, Machine.Accepts, Machine.Historical;
    LocatedExists(s, venue, r);
    var located := Locate(s, venue, r);
    if located.Some? && !MustDefer(venue, s.orders[located.value], r) {
      InvalidIsUnmerged(s.orders[located.value], r);
      if Machine.Outcome(s.orders[located.value], r).disposition != Machine.Invalid {
        MergedBooks(s, t, located.value, venue, r, rest);
        ReportedPending(s.orders[located.value], r);
      }
    }
  }

  lemma InvalidIsUnmerged(o: Order, r: Report)
    ensures Machine.Outcome(o, r).disposition == Machine.Invalid ==> !Machine.Accepts(o, r)
  {
  }

  lemma ReportedPending(o: Order, r: Report)
    ensures o.pendingAction == Amend ==>
              (ReportedOrder(o, r).pendingAction != Amend
               <==> Machine.Accepts(o, r) && !Machine.Historical(o, r) && (EndsOrder(o, r) || ConfirmsAmend(o, r)))
  {
    hide Machine.Merge, Machine.Accepts, Machine.Historical, EndsOrder, ConfirmsAmend;
    Machine.ApplyCases(o, r);
    if o.pendingAction == Amend && Machine.Accepts(o, r) {
      ReportSettlesExactly(o, r);
    }
  }

  lemma MergedBooks(s: State, t: nat, id: string, venue: Venue, r: Report, rest: seq<Report>)
    requires id in s.orders
    ensures var s' := MergeReport(s, t, id, venue, r, rest);
            s'.orders == s.orders[id := ReportedOrder(s.orders[id], r)] && s'.active == s.active
  {
    hide ReportedOrder, MustPersist, PutReported, Publish;
    PutReportedFacts(s, id, ReportedOrder(s.orders[id], r), r);
    PublishedIsSame(PutReported(s, id, ReportedOrder(s.orders[id], r), r));
  }

  /**
   The steps that end the orphan state: such a report from anywhere, or a null query, which replaces
   the pending action.
   */
  predicate EndsOrphan(s: State, step: Step, id: string) {
    match step
    case DoStreamReport(t, venue, r) => t !in s.threads && ReportEndsOrphan(s, venue, r, id)
    case DoApplyNext(t) =>
      t in s.threads && s.threads[t].Draining? && s.threads[t].reports != []
      && ReportEndsOrphan(s, s.threads[t].venue, s.threads[t].reports[0], id)
    case DoQueryAnswers(t, answer) =>
      t in s.threads && s.threads[t].Querying? && s.threads[t].id in s.orders
      && (match answer
          case Some(r) => ReportEndsOrphan(s, s.orders[s.threads[t].id].venue, r, id)
          case None => s.threads[t].id == id)
    case _ => false
  }

  lemma OrphanFrame(s: State, s': State, id: string)
    requires Orphaned(s, id) && id in s'.orders && s'.orders[id] == s.orders[id] && id !in s'.active
    ensures Orphaned(s', id)
  {
  }

  lemma StartsKeepOrphan(table: Risk.LimitTable, s: State, step: Step, id: string)
    requires Orphaned(s, id) && s.orders[id].clientOrderId == id
    requires step.DoPlaceStart? || step.DoCancelStart? || step.DoAmendStart?
    ensures Orphaned(Exec(table, s, step), id)
  {
    hide PlaceStart, CancelStart, AmendStart, Complete, ApplyNext, ApplyExecution, QueryAnswers, StreamReport, Append,
         AppendFails, CallVenue, VenueAnswers, QueryStart, Crash, Orphaned;
    match step
    case DoPlaceStart(t, q, marketData, marketPrice, preflight, reason) =>
      PlaceKeepsOrphan(table, s, t, q, marketData, marketPrice, preflight, reason, id);
    case DoCancelStart(t, c) => CancelKeepsOrphan(s, t, c, id);
    case DoAmendStart(t, a, legacy) => AmendKeepsOrphan(table, s, t, a, legacy, id);
  }

  lemma PlaceKeepsOrphan(table: Risk.LimitTable, s: State, t: nat, q: OrderRequest, marketData: bool,
                         marketPrice: Option<int>, preflight: Risk.Decision, reason: string, id: string)
    requires Orphaned(s, id)
    ensures Orphaned(PlaceStart(table, s, t, q, marketData, marketPrice, preflight, reason), id)
  {
    hide PlaceDecision, NewOrder, Admit;
    if t !in s.threads && q.clientOrderId !in s.orders {
      var decision := PlaceDecision(table, s, q, marketData, marketPrice, preflight);
      AdmittedBooks(s, t, q, NewOrder(q, decision, reason), decision == Risk.Accept);
    }
  }

  lemma AdmittedBooks(s: State, t: nat, q: OrderRequest, o: Order, admitted: bool)
    ensures var s' := Admit(s, t, q, o, admitted);
            s'.orders == s.orders[q.clientOrderId := o] && s'.active <= s.active + {q.clientOrderId}
  {
    hide Put, Publish;
    PutFacts(s, q.clientOrderId, o);
    PublishedIsSame(Put(s, q.clientOrderId, o));
  }

  lemma CancelKeepsOrphan(s: State, t: nat, c: CancelRequest, id: string)
    requires Orphaned(s, id) && s.orders[id].clientOrderId == id
    ensures Orphaned(CancelStart(s, t, c), id)
  {
    hide CancelDecision, CancelKey, Publish;
    if t !in s.threads && CancelDecision(s, c) == CancelProceeds {
      CancelFindsOrder(s, c);
      var changed := c.clientOrderId;
      if changed == id {
        OrphanRefusesCancel(s, id, c);
        assert false;
      }
      var o := WithRequest(s.orders[changed], CancelKey(c), Fingerprints.CancelFingerprint(c)).(pendingAction := Cancel);
      PublishedIsSame(s.(orders := s.orders[changed := o], active := s.active + {changed}));
    }
  }

  lemma AmendKeepsOrphan(table: Risk.LimitTable, s: State, t: nat, a: AmendRequest, legacy: string, id: string)
    requires Orphaned(s, id) && s.orders[id].clientOrderId == id
    ensures Orphaned(AmendStart(table, s, t, a, legacy), id)
  {
    hide AmendDecision, AmendKey, Publish;
    if t !in s.threads && AmendDecision(table, s, a, legacy) == AmendProceeds {
      AmendFindsOrder(table, s, a, legacy);
      var changed := a.clientOrderId;
      if changed == id {
        OrphanRefusesAmend(table, s, id, a, legacy);
        assert false;
      }
      var o := WithRequest(s.orders[changed], AmendKey(a), Fingerprints.AmendFingerprint(a))
               .(pendingAction := Amend, pendingAmendPrice := a.newPrice, pendingAmendQuantity := a.newQuantity);
      PublishedIsSame(s.(orders := s.orders[changed := o], active := s.active + {changed}));
    }
  }

  lemma CompleteKeepsOrphan(s: State, t: nat, id: string)
    requires Safe(s) && Orphaned(s, id)
    ensures Orphaned(Complete(s, t), id)
  {
    hide Safe, Orphaned, CompletedOrder, Put, Publish, CompletedExchangeIndex, CompletedClientIndex, AnswerOf, ReportsToApply,
         OpLive;
    if t in s.threads && s.threads[t].Answered? && IdOfOp(s.threads[t].op) in s.orders {
      var op, result := s.threads[t].op, s.threads[t].result;
      var changed := IdOfOp(op);
      HolderFacts(s, t);
      OpLiveParts(s, op);
      OrphanParts(s, id);
      var before := s.orders[changed];
      var o := CompletedOrder(before, op, result);
      PutFacts(s, changed, o);
      var s1 := Put(s, changed, o).(active := s.active - {changed},
                                    exchangeIndex := CompletedExchangeIndex(s, before, op, result),
                                    clientIndex := CompletedClientIndex(s, op, result),
                                    deferred := if op.AmendOp? then s.deferred - {changed} else s.deferred);
      PublishedIsSame(s1);
      OrphanFrame(s, Complete(s, t), id);
    }
  }

  lemma OrphanParts(s: State, id: string)
    requires Orphaned(s, id)
    ensures id in s.orders && id !in s.active
  {
  }

  lemma QuietKeepsOrphan(table: Risk.LimitTable, s: State, step: Step, id: string)
    requires Orphaned(s, id)
    requires step.DoAppend? || step.DoAppendFails? || step.DoCallVenue? || step.DoVenueAnswers? || step.DoQueryStart?
             || step.DoEventLogged?
    ensures Orphaned(Exec(table, s, step), id)
  {
    hide Exec;
    ThreadStepKeepsBooks(table, s, step);
    QuietKeepsActive(table, s, step);
  }

  lemma QuietKeepsActive(table: Risk.LimitTable, s: State, step: Step)
    requires step.DoAppend? || step.DoAppendFails? || step.DoCallVenue? || step.DoVenueAnswers? || step.DoQueryStart?
             || step.DoEventLogged?
    ensures Exec(table, s, step).active == s.active
  {
    hide PlaceStart, CancelStart, AmendStart, Complete, ApplyNext, ApplyExecution, QueryAnswers, StreamReport, Append,
         AppendFails, Crash;
    match step
    case DoAppend(t) => AppendKeepsActive(s, t, Nothing);
    case DoAppendFails(t, extent) => AppendKeepsActive(s, t, extent);
    case _ => {}
  }

  lemma AppendKeepsActive(s: State, t: nat, extent: Extent)
    ensures Append(s, t).active == s.active && AppendFails(s, t, extent).active == s.active
  {
    hide AfterAppend, Filed, Written;
    if t in s.threads && HasRecordToAppend(s.threads[t]) {
      FiledFacts(s, s.threads[t].record);
      AfterAppendKeepsActive(Filed(s, s.threads[t].record), t, s.threads[t]);
    }
  }

  lemma AfterAppendKeepsActive(s: State, t: nat, stage: Stage)
    ensures AfterAppend(s, t, stage).active == s.active
  {
    if stage.Finishing? && !stage.op.PlaceOp? {
      var s1 := Enter(s, t, Draining(stage.record.order.venue, stage.reports));
      assert s1.(answered := s1.answered[stage.op := stage.answer]).active == s.active;
    }
  }

  lemma QueryEndsOrphanExactly(s: State, t: nat, answer: Option<Report>, id: string)
    requires Orphaned(s, id)
    ensures Orphaned(QueryAnswers(s, t, answer), id) <==> !EndsOrphan(s, DoQueryAnswers(t, answer), id)
  {
    hide ApplyExecution, ReportEndsOrphan;
    if t in s.threads && s.threads[t].Querying? && s.threads[t].id in s.orders {
      match answer
      case Some(r) => ReportEndsOrphanExactly(s, t, s.orders[s.threads[t].id].venue, r, [], id);
      case None => {}
    }
  }

  lemma NextEndsOrphanExactly(s: State, t: nat, id: string)
    requires Orphaned(s, id)
    ensures Orphaned(ApplyNext(s, t), id) <==> !EndsOrphan(s, DoApplyNext(t), id)
  {
    hide ApplyExecution, ReportEndsOrphan;
    if t in s.threads && s.threads[t].Draining? && s.threads[t].reports != [] {
      var stage := s.threads[t];
      ReportEndsOrphanExactly(s, t, stage.venue, stage.reports[0], stage.reports[1..], id);
    }
  }

  /** In any reachable state the orphan state ends, short of a restart, with exactly these steps. */
  lemma OrphanEndsExactly(table: Risk.LimitTable, s: State, step: Step, id: string)
    requires Safe(s) && Orphaned(s, id) && !step.DoCrash?
    ensures Orphaned(Exec(table, s, step), id) <==> !EndsOrphan(s, step, id)
  {
    hide Safe, PlaceStart, CancelStart, AmendStart, Complete, ApplyExecution, ApplyNext, QueryAnswers, Orphaned,
         ReportEndsOrphan, Append, AppendFails, CallVenue, VenueAnswers, QueryStart, EventLogged;
    OrphanParts(s, id);
    SafeOrder(s, id);
    match step {
      case DoComplete(t) => CompleteKeepsOrphan(s, t, id);
      case DoStreamReport(t, venue, r) => ReportEndsOrphanExactly(s, t, venue, r, [], id);
      case DoApplyNext(t) => NextEndsOrphanExactly(s, t, id);
      case DoQueryAnswers(t, answer) => QueryEndsOrphanExactly(s, t, answer, id);
      case DoPlaceStart(_, _, _, _, _, _) => StartsKeepOrphan(table, s, step, id);
      case DoCancelStart(_, _) => StartsKeepOrphan(table, s, step, id);
      case DoAmendStart(_, _, _) => StartsKeepOrphan(table, s, step, id);
      case _ => QuietKeepsOrphan(table, s, step, id);
    }
  }

  /**
   A restart does not help: it leaves exactly those orders orphaned whose newest loaded snapshot has
   a pending amend.
   */
  lemma RestartOrphansExactly(s: State, list: seq<Order>, events: nat, id: string)
    requires Safe(s) && Reloaded(s.file).Some? && Lists(list, RecoveredOrders(Survivors(s)))
    ensures Orphaned(Crash(s, list, events), id)
            <==> exists r :: IsNewest(Survivors(s), id, r) && r.order.pendingAction == Amend
  {
    hide Safe, RecoveredOrders, RebuiltExchangeIndex, RebuiltClientIndex, RebuiltPositions, Lists, Survivors;
    if id in RecoveredOrders(Survivors(s)) {
      var newest := RecoveredIsNewest(Survivors(s), id);
      assert IsNewest(Survivors(s), id, newest);
      forall r | IsNewest(Survivors(s), id, r)
        ensures r == newest
      {
        NewestFoundIsUnique(s, id, r, newest);
      }
    } else {
      forall r | r in Survivors(s)
        ensures IdOf(r) != id
      {
        JournaledIsRecovered(Survivors(s), r);
      }
    }
  }

  /**
   So over any continuation of any run without such a step, the order stays orphaned and nothing held
   back is released.
   */
  lemma {:induction false} OrphanLasts(table: Risk.LimitTable, steps: seq<Step>, more: seq<Step>, id: string)
    requires Orphaned(After(table, steps), id)
    requires forall i :: 0 <= i < |more| ==> !more[i].DoCrash? && !EndsOrphan(After(table, steps + more[..i]), more[i], id)
    ensures Orphaned(After(table, steps + more), id)
    ensures Held(After(table, steps), id) <= Held(After(table, steps + more), id)
  {
    hide After, Exec, EndsOrphan, Orphaned, Held;
    if more == [] {
      assert steps + more == steps;
    } else {
      var n := |more| - 1;
      var before := more[..n];
      assert forall i :: 0 <= i < n ==> before[..i] == more[..i] && before[i] == more[i];
      OrphanLasts(table, steps, before, id);
      assert steps + more == (steps + before) + [more[n]];
      AfterOneMore(table, steps + before, more[n]);
      EveryRunIsSafe(table, steps + before);
      OrphanEndsExactly(table, After(table, steps + before), more[n], id);
      OrphanKeepsHeld(table, After(table, steps + before), more[n], id);
    }
  }
}
