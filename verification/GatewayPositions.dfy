/**
 The position index: kept by differences on the hot path, it equals the exposure summed over all
 orders at every lock release, and so do the fast risk checks that read it. One reconciliation
 step changes an order without moving the index; the theorems say exactly when that is harmless.
 */
module GatewayPositions {
  import opened Wrappers
  import opened Orders
  import opened Recovery
  import opened Positions
  import opened Gateway
  import opened GatewayHistory
  import opened GatewaySafety
  import opened GatewayRebuild
  import opened JournalEnds
  import Decimals
  import Risk
  import Machine = OrderStateMachine

  /** Index and published snapshot both equal the sum over all orders, per known symbol. */
  ghost predicate PositionsExact(s: State) {
    && |s.positions| == 2 && s.snapshot == s.positions
    && forall k :: 0 <= k < 2 ==> s.positions[k] == Exposure(s.orders, SYMBOLS[k])
  }

  ghost predicate IndexExact(s: State) {
    && |s.positions| == 2
    && forall k :: 0 <= k < 2 ==> s.positions[k] == Exposure(s.orders, SYMBOLS[k])
  }

  /** Moving the index by a symbol's change of share keeps it exact for every symbol. */
  lemma AdjustedFollows(positions: seq<int>, orders: map<string, Order>, id: string, o: Order, k: nat)
    requires |positions| == 2 && k < 2 && positions[k] == Exposure(orders, SYMBOLS[k])
    requires id in orders ==> orders[id].symbol == o.symbol
    ensures Adjusted(positions, o.symbol, Contribution(o) - (if id in orders then Contribution(orders[id]) else 0))[k]
            == Exposure(orders[id := o], SYMBOLS[k])
  {
    hide Contribution, Exposure;
    SlotIsSymbol(o.symbol);
    ExposureUpdates(orders, SYMBOLS[k], id, o);
  }

  lemma PutKeepsIndex(s: State, id: string, o: Order)
    requires IndexExact(s) && (id in s.orders ==> s.orders[id].symbol == o.symbol)
    ensures IndexExact(Put(s, id, o))
  {
    hide Contribution, Exposure, Adjusted, Slot;
    forall k | 0 <= k < 2
      ensures Put(s, id, o).positions[k] == Exposure(Put(s, id, o).orders, SYMBOLS[k])
    {
      AdjustedFollows(s.positions, s.orders, id, o, k);
    }
  }

  /** Storing an order with the same contribution needs no adjustment. */
  lemma SameShareKeepsIndex(s: State, s': State, id: string, o: Order)
    requires IndexExact(s) && id in s.orders && s'.orders == s.orders[id := o] && s'.positions == s.positions
    requires o.symbol == s.orders[id].symbol && Contribution(o) == Contribution(s.orders[id])
    ensures IndexExact(s')
  {
    hide Contribution, Exposure;
    forall k | 0 <= k < 2
      ensures s'.positions[k] == Exposure(s'.orders, SYMBOLS[k])
    {
      ExposureUpdates(s.orders, SYMBOLS[k], id, o);
    }
  }

  // ----- each step -----

  /** Between operations the snapshot only lags behind an index marked dirty. */
  ghost predicate InStep(s: State) {
    IndexExact(s) && (s.snapshot == s.positions || s.dirty)
  }

  lemma PublishedIsExact(s: State)
    requires InStep(s)
    ensures PositionsExact(Publish(s))
  {
    hide Exposure;
  }

  lemma SafeSymbol(s: State, id: string, o: Order)
    requires Safe(s) && id in s.orders && Extends(s.orders[id], o)
    ensures s.orders[id].symbol == o.symbol
  {
  }

  lemma AdmitPositions(s: State, t: nat, q: OrderRequest, o: Order, admitted: bool)
    requires PositionsExact(s) && q.clientOrderId !in s.orders
    ensures PositionsExact(Admit(s, t, q, o, admitted))
  {
    hide Exposure, Put, Publish, IndexExact;
    var put := Put(s, q.clientOrderId, o);
    assert IndexExact(s) by { ExactParts(s); }
    PutKeepsIndex(s, q.clientOrderId, o);
    PutMarksDirty(s, q.clientOrderId, o);
    PublishedIsExact(put);
    var s' := Admit(s, t, q, o, admitted);
    SamePositions(Publish(put), s');
  }

  lemma ExactParts(s: State)
    requires PositionsExact(s)
    ensures IndexExact(s) && s.snapshot == s.positions
  {
  }

  lemma PutMarksDirty(s: State, id: string, o: Order)
    ensures Put(s, id, o).dirty && Put(s, id, o).snapshot == s.snapshot
  {
  }

  lemma SamePositions(s: State, s': State)
    requires PositionsExact(s) && s'.orders == s.orders && s'.positions == s.positions && s'.snapshot == s.snapshot
    ensures PositionsExact(s')
  {
  }

  lemma RequestPositions(s: State, s': State, id: string, o: Order)
    requires PositionsExact(s) && id in s.orders && s'.orders == s.orders[id := o]
    requires s'.positions == s.positions && s'.snapshot == s.snapshot
    requires o.symbol == s.orders[id].symbol && Contribution(o) == Contribution(s.orders[id])
    ensures PositionsExact(s')
  {
    hide Exposure, Contribution;
    SameShareKeepsIndex(s, s', id, o);
  }

  lemma PublishKeepsExact(s: State)
    requires PositionsExact(s)
    ensures PositionsExact(Publish(s)) && Publish(s).snapshot == s.snapshot
  {
    hide Exposure;
  }

  lemma CancelStartPositions(s: State, t: nat, q: CancelRequest)
    requires PositionsExact(s)
    ensures PositionsExact(CancelStart(s, t, q))
  {
    hide Exposure, PositionsExact, CancelKey, Publish, CancelDecision;
    var s' := CancelStart(s, t, q);
    if t !in s.threads && CancelDecision(s, q) == CancelProceeds {
      CancelFindsOrder(s, q);
      var id := q.clientOrderId;
      var o := WithRequest(s.orders[id], CancelKey(q), Fingerprints.CancelFingerprint(q)).(pendingAction := Cancel);
      var s1 := s.(orders := s.orders[id := o], active := s.active + {id});
      RequestPositions(s, s1, id, o);
      PublishKeepsExact(s1);
      SamePositions(Publish(s1), s');
    }
  }

  lemma CancelFindsOrder(s: State, q: CancelRequest)
    requires CancelDecision(s, q) == CancelProceeds
    ensures q.clientOrderId in s.orders
  {
  }

  lemma AmendFindsOrder(table: Risk.LimitTable, s: State, q: AmendRequest, legacy: string)
    requires AmendDecision(table, s, q, legacy) == AmendProceeds
    ensures q.clientOrderId in s.orders
  {
  }

  lemma AmendStartPositions(table: Risk.LimitTable, s: State, t: nat, q: AmendRequest, legacy: string)
    requires PositionsExact(s)
    ensures PositionsExact(AmendStart(table, s, t, q, legacy))
  {
    hide Exposure, PositionsExact, AmendKey, Publish, AmendDecision;
    var s' := AmendStart(table, s, t, q, legacy);
    if t !in s.threads && AmendDecision(table, s, q, legacy) == AmendProceeds {
      AmendFindsOrder(table, s, q, legacy);
      var id := q.clientOrderId;
      var o := WithRequest(s.orders[id], AmendKey(q), Fingerprints.AmendFingerprint(q))
               .(pendingAction := Amend, pendingAmendPrice := q.newPrice, pendingAmendQuantity := q.newQuantity);
      var s1 := s.(orders := s.orders[id := o], active := s.active + {id});
      RequestPositions(s, s1, id, o);
      PublishKeepsExact(s1);
      SamePositions(Publish(s1), s');
    }
  }

  lemma CompletePositions(s: State, t: nat)
    requires Safe(s) && PositionsExact(s)
    ensures PositionsExact(Complete(s, t))
  {
    hide Safe, Exposure, PositionsExact, IndexExact, CompletedOrder, Put, Publish, CompletedExchangeIndex,
         CompletedClientIndex, ReportsToApply, Extends, OpLive;
    var s' := Complete(s, t);
    if t in s.threads && s.threads[t].Answered? && IdOfOp(s.threads[t].op) in s.orders {
      var op, result := s.threads[t].op, s.threads[t].result;
      var id := IdOfOp(op);
      HolderFacts(s, t);
      OpLiveParts(s, op);
      var o := CompletedOrder(s.orders[id], op, result);
      CompletedExtends(s.orders[id], op, result);
      SafeSymbol(s, id, o);
      ExactParts(s);
      PutKeepsIndex(s, id, o);
      PutMarksDirty(s, id, o);
      PutFacts(s, id, o);
      var s1 := Put(s, id, o).(active := s.active - {id},
                               exchangeIndex := CompletedExchangeIndex(s, s.orders[id], op, result),
                               clientIndex := CompletedClientIndex(s, op, result),
                               deferred := if op.AmendOp? then s.deferred - {id} else s.deferred);
      assert InStep(s1) by { SameIndex(Put(s, id, o), s1); }
      PublishedIsExact(s1);
      SamePositions(Publish(s1), s');
    }
  }

  lemma SameIndex(s: State, s': State)
    requires IndexExact(s) && s'.orders == s.orders && s'.positions == s.positions
    ensures IndexExact(s')
  {
  }

  /** A report that is not journaled left the order's contribution alone. */
  lemma UnjournaledKeepsShare(o: Order, r: Report)
    requires !MustPersist(o, r) && Machine.Outcome(o, r).disposition != Machine.Invalid
    ensures Contribution(ReportedOrder(o, r)) == Contribution(o)
  {
    hide Machine.Merge;
    Machine.ApplyCases(o, r);
    Machine.MergeFrame(o, r);
  }

  lemma MergeReportPositions(s: State, t: nat, id: string, venue: Venue, r: Report, rest: seq<Report>)
    requires Safe(s) && PositionsExact(s) && id in s.orders
    requires Machine.Outcome(s.orders[id], r).disposition != Machine.Invalid
    ensures PositionsExact(MergeReport(s, t, id, venue, r, rest))
  {
    hide Safe, Exposure, PositionsExact, IndexExact, Put, Publish, ReportedOrder, MustPersist, Contribution, Indexed,
         Machine.Outcome;
    var o1 := ReportedOrder(s.orders[id], r);
    var s' := MergeReport(s, t, id, venue, r, rest);
    ReportKeepsRequests(s.orders[id], r);
    ExactParts(s);
    PutKeepsIndex(s, id, o1);
    PutMarksDirty(s, id, o1);
    PutFacts(s, id, o1);
    var s1 := PutReported(s, id, o1, r);
    SameIndex(Put(s, id, o1), s1);
    if MustPersist(s.orders[id], r) {
      PublishedIsExact(s1);
      SamePositions(Publish(s1), s');
    } else {
      UnjournaledKeepsShare(s.orders[id], r);
      PutWithSameShare(s, id, o1);
      assert PositionsExact(s1) by { ExactFromIndex(s1); }
      SamePositions(s1, s');
    }
  }

  lemma PutWithSameShare(s: State, id: string, o: Order)
    requires id in s.orders && Contribution(o) == Contribution(s.orders[id])
    ensures Put(s, id, o).positions == s.positions
  {
    hide Contribution;
  }

  lemma ExactFromIndex(s: State)
    requires IndexExact(s) && s.snapshot == s.positions
    ensures PositionsExact(s)
  {
  }

  lemma ApplyExecutionPositions(s: State, t: nat, venue: Venue, r: Report, rest: seq<Report>)
    requires Safe(s) && PositionsExact(s)
    ensures PositionsExact(ApplyExecution(s, t, venue, r, rest))
  {
    hide Safe, PositionsExact, Locate, MustDefer, Machine.Outcome, MergeReport;
    var s' := ApplyExecution(s, t, venue, r, rest);
    var located := Locate(s, venue, r);
    LocatedExists(s, venue, r);
    if located.None? || MustDefer(venue, s.orders[located.value], r)
       || Machine.Outcome(s.orders[located.value], r).disposition == Machine.Invalid {
      SamePositions(s, s');
    } else {
      MergeReportPositions(s, t, located.value, venue, r, rest);
    }
  }

  // ----- the reconciliation step that does not adjust the index -----

  /** The venue knows nothing of the order, and the order counts the same open as it did before. */
  predicate NullQueryHarmless(o: Order) {
    !IsTerminal(o.status) || o.filledQuantity == o.quantity || Slot(o.symbol).None?
  }

  /** A null query keeps the index exact precisely for open, completely filled or unregistered orders. */
  lemma NullQueryKeepsPositionsExactly(s: State, t: nat)
    requires PositionsExact(s) && t in s.threads && s.threads[t].Querying? && s.threads[t].id in s.orders
    ensures PositionsExact(QueryAnswers(s, t, None)) <==> NullQueryHarmless(s.orders[s.threads[t].id])
  {
    hide Exposure, Slot;
    var id := s.threads[t].id;
    var o := NullQueried(s.orders[id]);
    var s' := QueryAnswers(s, t, None);
    SlotIsSymbol(o.symbol);
    ExposureUpdates(s.orders, SYMBOLS[0], id, o);
    ExposureUpdates(s.orders, SYMBOLS[1], id, o);
    assert s'.orders == s.orders[id := o] && s'.positions == s.positions && s'.snapshot == s.snapshot;
    if Slot(o.symbol).Some? && !NullQueryHarmless(s.orders[id]) {
      var k := Slot(o.symbol).value;
      assert s'.positions[k] != Exposure(s'.orders, SYMBOLS[k]);
    }
  }

  predicate HarmlessStep(s: State, step: Step) {
    step.DoQueryAnswers? && step.answer.None? && step.t in s.threads && s.threads[step.t].Querying?
    && s.threads[step.t].id in s.orders
    ==> NullQueryHarmless(s.orders[s.threads[step.t].id])
  }

  /** The rebuilt index is exact, because the startup loop sums a listing of all recovered orders. */
  lemma CrashPositions(s: State, list: seq<Order>, events: nat)
    requires PositionsExact(s)
    ensures PositionsExact(Crash(s, list, events))
  {
    hide Exposure, RebuiltPositions, RebuiltExchangeIndex, RebuiltClientIndex, RecoveredOrders, Lists, Survivors, Reloaded;
    var orders := RecoveredOrders(Survivors(s));
    if Lists(list, orders) {
      RebuiltPositionsAreExact(list, orders, 0);
      RebuiltPositionsAreExact(list, orders, 1);
    }
  }

  lemma QueryAnswersPositions(s: State, t: nat, answer: Option<Report>)
    requires Safe(s) && PositionsExact(s) && HarmlessStep(s, DoQueryAnswers(t, answer))
    ensures PositionsExact(QueryAnswers(s, t, answer))
  {
    hide Safe, PositionsExact, ApplyExecution, NullQueryHarmless;
    if t in s.threads && s.threads[t].Querying? && s.threads[t].id in s.orders {
      match answer
      case Some(r) => ApplyExecutionPositions(s, t, s.orders[s.threads[t].id].venue, r, []);
      case None => NullQueryKeepsPositionsExactly(s, t);
    }
  }

  lemma ApplyNextPositions(s: State, t: nat)
    requires Safe(s) && PositionsExact(s)
    ensures PositionsExact(ApplyNext(s, t))
  {
    hide Safe, PositionsExact, ApplyExecution;
    if t in s.threads && s.threads[t].Draining? {
      var stage := s.threads[t];
      if stage.reports == [] {
        SamePositions(s, ApplyNext(s, t));
      } else {
        ApplyExecutionPositions(s, t, stage.venue, stage.reports[0], stage.reports[1..]);
      }
    }
  }

  lemma PlaceStartPositions(table: Risk.LimitTable, s: State, t: nat, q: OrderRequest, marketData: bool,
                            marketPrice: Option<int>, preflight: Risk.Decision, reason: string)
    requires PositionsExact(s)
    ensures PositionsExact(PlaceStart(table, s, t, q, marketData, marketPrice, preflight, reason))
  {
    hide PositionsExact, PlaceDecision, NewOrder, Admit;
    if t !in s.threads && q.clientOrderId !in s.orders {
      var decision := PlaceDecision(table, s, q, marketData, marketPrice, preflight);
      AdmitPositions(s, t, q, NewOrder(q, decision, reason), decision == Risk.Accept);
    }
  }

  lemma ExecPositions(table: Risk.LimitTable, s: State, step: Step)
    requires Safe(s) && PositionsExact(s) && HarmlessStep(s, step)
    ensures PositionsExact(Exec(table, s, step))
  {
    hide Safe, PositionsExact, PlaceStart, CancelStart, AmendStart, Complete, ApplyNext, ApplyExecution, QueryAnswers,
         Crash, HarmlessStep;
    match step
    case DoPlaceStart(t, q, marketData, marketPrice, preflight, reason) =>
      PlaceStartPositions(table, s, t, q, marketData, marketPrice, preflight, reason);
    case DoCancelStart(t, c) => CancelStartPositions(s, t, c);
    case DoAmendStart(t, a, legacy) => AmendStartPositions(table, s, t, a, legacy);
    case DoComplete(t) => CompletePositions(s, t);
    case DoStreamReport(t, venue, r) => ApplyExecutionPositions(s, t, venue, r, []);
    case DoApplyNext(t) => ApplyNextPositions(s, t);
    case DoQueryAnswers(t, answer) => QueryAnswersPositions(s, t, answer);
    case DoCrash(list, events) => CrashPositions(s, list, events);
    case _ => ThreadStepPositions(table, s, step);
  }

  /** Everything but the order table, the index and the snapshot may differ. */
  predicate SameBooks(s: State, s': State) {
    s'.orders == s.orders && s'.positions == s.positions && s'.snapshot == s.snapshot
  }

  lemma AfterAppendKeepsBooks(s: State, t: nat, stage: Stage)
    ensures SameBooks(s, AfterAppend(s, t, stage))
  {
    if stage.Finishing? && !stage.op.PlaceOp? {
      var s1 := Enter(s, t, Draining(stage.record.order.venue, stage.reports));
      assert SameBooks(s, s1.(answered := s1.answered[stage.op := stage.answer]));
    }
  }

  lemma AppendKeepsBooks(s: State, t: nat, extent: Extent)
    ensures SameBooks(s, Append(s, t)) && SameBooks(s, AppendFails(s, t, extent))
  {
    hide AfterAppend, Filed, Written;
    if t in s.threads && HasRecordToAppend(s.threads[t]) {
      FiledFacts(s, s.threads[t].record);
      AfterAppendKeepsBooks(Filed(s, s.threads[t].record), t, s.threads[t]);
    }
  }

  lemma CallKeepsBooks(s: State, t: nat, result: AdapterResult)
    ensures SameBooks(s, CallVenue(s, t)) && SameBooks(s, VenueAnswers(s, t, result))
  {
  }

  lemma QueryKeepsBooks(s: State, t: nat, id: string, extent: Extent)
    ensures SameBooks(s, QueryStart(s, t, id)) && SameBooks(s, EventLogged(s, extent))
  {
  }

  lemma ThreadStepKeepsBooks(table: Risk.LimitTable, s: State, step: Step)
    requires step.DoAppend? || step.DoAppendFails? || step.DoCallVenue? || step.DoVenueAnswers? || step.DoQueryStart?
             || step.DoEventLogged?
    ensures SameBooks(s, Exec(table, s, step))
  {
    hide Append, AppendFails, CallVenue, VenueAnswers, QueryStart, EventLogged, PlaceStart, CancelStart, AmendStart,
         Complete, ApplyNext, ApplyExecution, QueryAnswers;
    match step {
      case DoAppend(t) => AppendKeepsBooks(s, t, Nothing);
      case DoAppendFails(t, extent) => AppendKeepsBooks(s, t, extent);
      case DoCallVenue(t) => CallKeepsBooks(s, t, AdapterResult(false, false, false, "", "", "", "", []));
      case DoVenueAnswers(t, result) => CallKeepsBooks(s, t, result);
      case DoQueryStart(t, id) => QueryKeepsBooks(s, t, id, Nothing);
      case DoEventLogged(extent) => QueryKeepsBooks(s, 0, "", extent);
    }
  }

  lemma ThreadStepPositions(table: Risk.LimitTable, s: State, step: Step)
    requires PositionsExact(s)
    requires step.DoAppend? || step.DoAppendFails? || step.DoCallVenue? || step.DoVenueAnswers? || step.DoQueryStart?
             || step.DoEventLogged?
    ensures PositionsExact(Exec(table, s, step))
  {
    hide PositionsExact, Exec;
    ThreadStepKeepsBooks(table, s, step);
    SamePositions(s, Exec(table, s, step));
  }

  /** Over every run whose null queries are harmless, index and snapshot equal the recomputed sums. */
  lemma {:induction false} PositionsFollowOrders(table: Risk.LimitTable, steps: seq<Step>)
    requires forall i :: 0 <= i < |steps| ==> HarmlessStep(After(table, steps[..i]), steps[i])
    ensures PositionsExact(After(table, steps))
  {
    hide Exec, HarmlessStep, Safe;
    if steps == [] {
      assert Exposure(map[], SYMBOLS[0]) == 0 && Exposure(map[], SYMBOLS[1]) == 0;
    } else {
      var n := |steps| - 1;
      var before := steps[..n];
      assert forall i :: 0 <= i < n ==> before[..i] == steps[..i] && before[i] == steps[i];
      PositionsFollowOrders(table, before);
      EveryRunIsSafe(table, before);
      assert HarmlessStep(After(table, steps[..n]), steps[n]);
      ExecPositions(table, After(table, before), steps[n]);
    }
  }

  // ----- the fast checks against the full ones -----

  /** The index answers for a symbol exactly when it is registered, or nothing is exposed in it. */
  lemma PositionReadsExposureExactly(s: State, symbol: string)
    requires PositionsExact(s)
    ensures PositionOf(s, symbol) == Exposure(s.orders, symbol) <==> Slot(symbol).Some? || Exposure(s.orders, symbol) == 0
  {
    SlotIsSymbol(symbol);
  }

  /** place's fast check gives the answer of summing every order, in whatever order they are listed. */
  lemma FastNewCheckAgrees(table: Risk.LimitTable, s: State, q: OrderRequest, list: seq<Order>, marketPrice: Option<int>)
    requires PositionsExact(s) && Slot(q.symbol).Some? && Lists(list, s.orders)
    ensures Risk.CheckNewWithPosition(table, q, PositionOf(s, q.symbol), marketPrice)
            == Risk.CheckNewWithPosition(table, q, ListExposure(list, q.symbol), marketPrice)
  {
    PositionReadsExposureExactly(s, q.symbol);
    ListingSums(list, s.orders, q.symbol);
  }

  /** amend's fast check gives the answer of summing every other order. */
  lemma FastAmendCheckAgrees(table: Risk.LimitTable, s: State, id: string, list: seq<Order>,
                             newPrice: Option<int>, newQuantity: Option<int>)
    requires Safe(s) && PositionsExact(s) && id in s.orders && Slot(s.orders[id].symbol).Some? && Lists(list, s.orders)
    ensures var o := s.orders[id];
            Risk.CheckAmendWithPosition(table, o, newPrice, newQuantity, PositionWithout(s, o))
            == Risk.CheckAmendWithPosition(table, o, newPrice, newQuantity, ListExposureExcept(list, o.symbol, o.clientOrderId))
  {
    hide StageOk, FileOk, Exposure, ListExposureExcept, Slot;
    var o := s.orders[id];
    SafeOrder(s, id);
    PositionReadsExposureExactly(s, o.symbol);
    ListingSumsExcept(list, s.orders, o.symbol, id);
  }

  /** For a symbol outside the registry the fast check ignores every existing order. */
  lemma UnregisteredSymbolIsUnchecked(table: Risk.LimitTable, s: State, q: OrderRequest, marketPrice: Option<int>)
    requires Slot(q.symbol).None?
    ensures Risk.CheckNewWithPosition(table, q, PositionOf(s, q.symbol), marketPrice)
            == Risk.CheckNewWithPosition(table, q, ListExposure([], q.symbol), marketPrice)
  {
  }

  /**
   Its decision then differs from the full check's exactly when the order passes everything else and
   only one of the order alone and the order on top of all others stays within the limit.
   */
  lemma UnregisteredDecisionDiffersExactly(table: Risk.LimitTable, s: State, q: OrderRequest, list: seq<Order>,
                                           marketPrice: Option<int>)
    requires Slot(q.symbol).None?
    ensures Risk.CheckNewWithPosition(table, q, PositionOf(s, q.symbol), marketPrice)
            != Risk.CheckNewWithPosition(table, q, ListExposure(list, q.symbol), marketPrice)
            <==> && Risk.PassesBeforePosition(table, q, marketPrice)
                 && var limit, signed := table[q.symbol].positionLimit, SignedQuantity(q.side, q.quantity);
                    (Decimals.Abs(signed) <= limit) != (Decimals.Abs(ListExposure(list, q.symbol) + signed) <= limit)
  {
    hide Risk.CheckNewWithPosition, Risk.PassesBeforePosition;
    UnregisteredSymbolIsUnchecked(table, s, q, marketPrice);
    Risk.PositionDecidesExactly(table, q, marketPrice, ListExposure([], q.symbol), ListExposure(list, q.symbol));
  }
}
