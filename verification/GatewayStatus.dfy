/**
 Terminal statuses in the gateway. The state machine never leaves them, but two gateway steps write
 the status without looking at it; between crashes those are exactly the steps that reopen an order. A
 restart takes an order back to the newest record it finds.
 */
module GatewayStatus {
  import opened Wrappers
  import opened Orders
  import opened Gateway
  import opened Recovery
  import opened JournalEnds
  import opened GatewayHistory
  import opened GatewaySafety
  import opened GatewayRebuild
  import opened GatewayPositions
  import opened Positions
  import Fingerprints
  import Machine = OrderStateMachine
  import Lifecycle
  import CancelReplace
  import Risk

  /** An uncertain outcome, or an accepted replacement. */
  predicate Reopens(op: Operation, result: AdapterResult) {
    if result.accepted then op.AmendOp? && result.replacement else result.outcomeUncertain
  }

  lemma ReportAdvances(o: Order, r: Report)
    ensures Lifecycle.StatusAdvances(o.status, Machine.ApplyReport(o, r).status)
    ensures Machine.ApplyReport(o, r).status == ReportedOrder(o, r).status
  {
    hide Machine.ApplyReport;
    Lifecycle.TerminalStatusIsFinal(o, [r]);
    assert Lifecycle.Run(o, [r]) == Machine.ApplyReport(o, r);
  }

  lemma PlacedStatus(o: Order, result: AdapterResult)
    requires IsTerminal(o.status)
    ensures Lifecycle.StatusAdvances(o.status, PlacedOrder(o, result).status) <==> !(!result.accepted && result.outcomeUncertain)
  {
    hide Machine.ApplyReport, PlaceRejection;
    ReportAdvances(o, PlaceRejection(o, result));
  }

  lemma AmendedStatus(o: Order, q: AmendRequest, result: AdapterResult)
    requires IsTerminal(o.status)
    ensures Lifecycle.StatusAdvances(o.status, AmendedOrder(o, q, result).status)
            <==> !(if result.accepted then result.replacement else result.outcomeUncertain)
  {
    hide AmendKey, AnswerOf, DriftNote, CancelReplace.WithOffset, CancelReplace.ActualQuantity, CancelReplace.FinalOldFill,
         CancelReplace.FinalOldQuote;
  }

  /** A completed operation takes a terminal order out of its status exactly when it reopens. */
  lemma CompletionReopensExactly(o: Order, op: Operation, result: AdapterResult)
    requires IsTerminal(o.status)
    ensures Lifecycle.StatusAdvances(o.status, CompletedOrder(o, op, result).status) <==> !Reopens(op, result)
  {
    hide PlacedOrder, AmendedOrder, WithOutcome, AnswerOf, CancelKey;
    match op
    case PlaceOp(_) => PlacedStatus(o, result);
    case CancelOp(q) => CanceledStatus(o, CancelKey(q), result);
    case AmendOp(q) => AmendedStatus(o, q, result);
  }

  lemma CanceledStatus(o: Order, key: string, result: AdapterResult)
    requires IsTerminal(o.status)
    ensures Lifecycle.StatusAdvances(o.status, CanceledOrder(o, key, result).status)
            <==> !(!result.accepted && result.outcomeUncertain)
  {
    hide AnswerOf;
  }

  /** The steps that write the status of order `id` without regard to what it is. */
  predicate ReopeningStep(s: State, step: Step, id: string) {
    match step
    case DoComplete(t) =>
      t in s.threads && s.threads[t].Answered? && IdOfOp(s.threads[t].op) == id && Reopens(s.threads[t].op, s.threads[t].result)
    case DoQueryAnswers(t, answer) => t in s.threads && s.threads[t].Querying? && s.threads[t].id == id && answer.None?
    case _ => false
  }

  ghost predicate Advanced(s: State, s': State, id: string) {
    id in s.orders && id in s'.orders && Lifecycle.StatusAdvances(s.orders[id].status, s'.orders[id].status)
  }

  lemma SameOrdersAdvance(s: State, s': State, id: string)
    requires id in s.orders && s'.orders == s.orders
    ensures Advanced(s, s', id)
  {
  }

  lemma OneOrderAdvances(s: State, s': State, id: string, changed: string, o: Order)
    requires id in s.orders && s'.orders == s.orders[changed := o]
    requires changed == id ==> Lifecycle.StatusAdvances(s.orders[id].status, o.status)
    ensures Advanced(s, s', id)
  {
  }

  lemma ExecutionOrders(s: State, t: nat, venue: Venue, r: Report, rest: seq<Report>)
    ensures var s' := ApplyExecution(s, t, venue, r, rest);
            || s'.orders == s.orders
            || exists changed :: changed in s.orders && s'.orders == s.orders[changed := ReportedOrder(s.orders[changed], r)]
  {
    hide Locate, MustDefer, Machine.Outcome, MergeReport, ReportedOrder;
    var located := Locate(s, venue, r);
    if located.Some? {
      LocatedExists(s, venue, r);
      MergedOrders(s, t, located.value, venue, r, rest);
    }
  }

  lemma MergedOrders(s: State, t: nat, id: string, venue: Venue, r: Report, rest: seq<Report>)
    requires id in s.orders
    ensures MergeReport(s, t, id, venue, r, rest).orders == s.orders[id := ReportedOrder(s.orders[id], r)]
  {
    hide ReportedOrder, MustPersist, PutReported, Publish;
    var o := ReportedOrder(s.orders[id], r);
    PutReportedFacts(s, id, o, r);
    PublishedIsSame(PutReported(s, id, o, r));
  }

  lemma ExecutionAdvances(s: State, t: nat, venue: Venue, r: Report, rest: seq<Report>, id: string)
    requires id in s.orders
    ensures Advanced(s, ApplyExecution(s, t, venue, r, rest), id)
  {
    hide ApplyExecution, ReportedOrder, Lifecycle.StatusAdvances, Advanced;
    ExecutionOrders(s, t, venue, r, rest);
    var s' := ApplyExecution(s, t, venue, r, rest);
    if s'.orders == s.orders {
      SameOrdersAdvance(s, s', id);
    } else {
      var changed :| changed in s.orders && s'.orders == s.orders[changed := ReportedOrder(s.orders[changed], r)];
      ReportAdvances(s.orders[changed], r);
      OneOrderAdvances(s, s', id, changed, ReportedOrder(s.orders[changed], r));
    }
  }

  lemma CancelAdvances(s: State, t: nat, c: CancelRequest, id: string)
    requires id in s.orders
    ensures Advanced(s, CancelStart(s, t, c), id)
  {
    hide CancelKey, CancelDecision, Fingerprints.CancelFingerprint, Publish;
    if t !in s.threads && CancelDecision(s, c) == CancelProceeds {
      CancelFindsOrder(s, c);
      var changed := c.clientOrderId;
      var o := WithRequest(s.orders[changed], CancelKey(c), Fingerprints.CancelFingerprint(c)).(pendingAction := Cancel);
      PublishedIsSame(s.(orders := s.orders[changed := o], active := s.active + {changed}));
      OneOrderAdvances(s, CancelStart(s, t, c), id, changed, o);
    }
  }

  lemma AmendAdvances(table: Risk.LimitTable, s: State, t: nat, a: AmendRequest, legacy: string, id: string)
    requires id in s.orders
    ensures Advanced(s, AmendStart(table, s, t, a, legacy), id)
  {
    hide AmendKey, AmendDecision, Fingerprints.AmendFingerprint, Publish;
    if t !in s.threads && AmendDecision(table, s, a, legacy) == AmendProceeds {
      AmendFindsOrder(table, s, a, legacy);
      var changed := a.clientOrderId;
      var o := WithRequest(s.orders[changed], AmendKey(a), Fingerprints.AmendFingerprint(a))
               .(pendingAction := Amend, pendingAmendPrice := a.newPrice, pendingAmendQuantity := a.newQuantity);
      PublishedIsSame(s.(orders := s.orders[changed := o], active := s.active + {changed}));
      OneOrderAdvances(s, AmendStart(table, s, t, a, legacy), id, changed, o);
    }
  }

  lemma CompleteAdvancesExactly(s: State, t: nat, id: string)
    requires id in s.orders && IsTerminal(s.orders[id].status)
    ensures Advanced(s, Complete(s, t), id) <==> !ReopeningStep(s, DoComplete(t), id)
  {
    hide CompletedOrder, Lifecycle.StatusAdvances, Put, Publish, CompletedExchangeIndex, CompletedClientIndex, AnswerOf,
         ReportsToApply, Reopens;
    if t in s.threads && s.threads[t].Answered? && IdOfOp(s.threads[t].op) in s.orders {
      var op, result := s.threads[t].op, s.threads[t].result;
      var changed := IdOfOp(op);
      var o := CompletedOrder(s.orders[changed], op, result);
      PutFacts(s, changed, o);
      CompletedOrders(s, t);
      if changed == id {
        CompletionReopensExactly(s.orders[id], op, result);
      } else {
        OneOrderAdvances(s, Complete(s, t), id, changed, o);
      }
    } else {
      SameOrdersAdvance(s, Complete(s, t), id);
    }
  }

  lemma CompletedOrders(s: State, t: nat)
    requires t in s.threads && s.threads[t].Answered? && IdOfOp(s.threads[t].op) in s.orders
    ensures var id := IdOfOp(s.threads[t].op);
            Complete(s, t).orders == s.orders[id := CompletedOrder(s.orders[id], s.threads[t].op, s.threads[t].result)]
  {
    hide CompletedOrder, CompletedExchangeIndex, CompletedClientIndex, AnswerOf, ReportsToApply, Adjusted, Contribution;
  }

  lemma QueryAdvancesExactly(s: State, t: nat, answer: Option<Report>, id: string)
    requires id in s.orders && IsTerminal(s.orders[id].status)
    ensures Advanced(s, QueryAnswers(s, t, answer), id) <==> !ReopeningStep(s, DoQueryAnswers(t, answer), id)
  {
    hide ApplyExecution;
    if t in s.threads && s.threads[t].Querying? && s.threads[t].id in s.orders {
      match answer
      case Some(r) => ExecutionAdvances(s, t, s.orders[s.threads[t].id].venue, r, [], id);
      case None => {}
    }
  }

  lemma PlaceAdvances(table: Risk.LimitTable, s: State, t: nat, q: OrderRequest, marketData: bool,
                      marketPrice: Option<int>, preflight: Risk.Decision, reason: string, id: string)
    requires id in s.orders
    ensures Advanced(s, PlaceStart(table, s, t, q, marketData, marketPrice, preflight, reason), id)
  {
    hide NewOrder, PlaceDecision, Lifecycle.StatusAdvances, Admit;
    if t !in s.threads && q.clientOrderId !in s.orders {
      var decision := PlaceDecision(table, s, q, marketData, marketPrice, preflight);
      var o := NewOrder(q, decision, reason);
      AdmittedOrders(s, t, q, o, decision == Risk.Accept);
      OneOrderAdvances(s, PlaceStart(table, s, t, q, marketData, marketPrice, preflight, reason), id, q.clientOrderId, o);
    } else {
      SameOrdersAdvance(s, s, id);
    }
  }

  lemma AdmittedOrders(s: State, t: nat, q: OrderRequest, o: Order, admitted: bool)
    ensures Admit(s, t, q, o, admitted).orders == s.orders[q.clientOrderId := o]
  {
    hide Put, Publish;
    PutFacts(s, q.clientOrderId, o);
    PublishedIsSame(Put(s, q.clientOrderId, o));
  }

  lemma NextAdvances(s: State, t: nat, id: string)
    requires id in s.orders
    ensures Advanced(s, ApplyNext(s, t), id)
  {
    hide ApplyExecution;
    if t in s.threads && s.threads[t].Draining? && s.threads[t].reports != [] {
      var stage := s.threads[t];
      ExecutionAdvances(s, t, stage.venue, stage.reports[0], stage.reports[1..], id);
    }
  }

  /**
   Between crashes, an order whose status is terminal keeps it (or becomes filled) in every step of
   the gateway except exactly the reopening ones, in any state whatever.
   */
  lemma TerminalStatusReopensExactly(table: Risk.LimitTable, s: State, step: Step, id: string)
    requires id in s.orders && IsTerminal(s.orders[id].status) && !step.DoCrash?
    ensures Advanced(s, Exec(table, s, step), id) <==> !ReopeningStep(s, step, id)
  {
    hide PlaceStart, CancelStart, AmendStart, Complete, ApplyNext, ApplyExecution, QueryAnswers, Advanced, Append,
         AppendFails, CallVenue, VenueAnswers, QueryStart, EventLogged, Reopens;
    match step {
      case DoPlaceStart(t, q, marketData, marketPrice, preflight, reason) =>
        PlaceAdvances(table, s, t, q, marketData, marketPrice, preflight, reason, id);
      case DoCancelStart(t, c) => CancelAdvances(s, t, c, id);
      case DoAmendStart(t, a, legacy) => AmendAdvances(table, s, t, a, legacy, id);
      case DoComplete(t) => CompleteAdvancesExactly(s, t, id);
      case DoStreamReport(t, venue, r) =>
        ExecutionAdvances(s, t, venue, r, [], id);
        SameOrdersAdvance(s, s, id);
      case DoApplyNext(t) => NextAdvances(s, t, id);
      case DoQueryAnswers(t, answer) => QueryAdvancesExactly(s, t, answer, id);
      case _ =>
        ThreadStepKeepsBooks(table, s, step);
        SameOrdersAdvance(s, Exec(table, s, step), id);
    }
  }

  /**
   A restart keeps a terminal status exactly when the newest record it finds of the order has it already,
   or is filled: it takes the order back to whatever was journaled last, or forgets it.
   */
  lemma RestartReopensExactly(s: State, list: seq<Order>, events: nat, id: string)
    requires Safe(s) && Reloaded(s.file).Some? && Lists(list, RecoveredOrders(Survivors(s)))
    requires id in s.orders && IsTerminal(s.orders[id].status)
    ensures Advanced(s, Crash(s, list, events), id)
            <==> exists r :: IsNewest(Survivors(s), id, r)
                             && (r.order.status == Filled || r.order.status == s.orders[id].status)
  {
    hide Safe, RecoveredOrders, RebuiltExchangeIndex, RebuiltClientIndex, RebuiltPositions, Lists, Survivors, Reloaded;
    if id in RecoveredOrders(Survivors(s)) {
      var newest := RecoveredIsNewest(Survivors(s), id);
      assert IsNewest(Survivors(s), id, newest);
      forall r | IsNewest(Survivors(s), id, r)
        ensures r == newest
      {
        NewestFoundIsUnique(s, id, r, newest);
      }
    } else {
      forall r | r in Survivors(s)
        ensures IdOf(r) != id
      {
        JournaledIsRecovered(Survivors(s), r);
      }
    }
  }
}
