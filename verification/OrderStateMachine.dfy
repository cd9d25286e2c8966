/**
 The state machine that merges execution reports into one canonical order. Reports may be
 duplicated, stale, out of order, or belong to an earlier cancel-replace generation.
 */
module OrderStateMachine {
  import opened Wrappers
  import opened Orders
  import Decimals

  datatype Disposition = Applied | Duplicate | Stale | Invalid
  datatype ApplyResult = ApplyResult(disposition: Disposition, stateChanged: bool)

  // ----- the pure decisions -----

  predicate StaleSequence(o: Order, r: Report) {
    o.lastSequence.Some? && r.sequence.Some? && r.sequence.value <= o.lastSequence.value
  }

  function OffsetFor(offsets: map<string, int>, exchangeOrderId: string): int {
    if exchangeOrderId == "" || exchangeOrderId !in offsets then 0 else offsets[exchangeOrderId]
  }

  predicate OtherGeneration(o: Order, r: Report) {
    r.exchangeOrderId != "" && o.exchangeOrderId != "" && r.exchangeOrderId != o.exchangeOrderId
  }

  predicate Historical(o: Order, r: Report) {
    OtherGeneration(o, r) && r.exchangeOrderId in o.exchangeOrderIdAliases
  }

  function DeriveStatus(status: OrderStatus, quantity: int, reported: OrderStatus, aggregate: int,
                        historical: bool, stale: bool): OrderStatus {
    if aggregate >= quantity then Filled
    else if status == Filled then Filled
    else if historical then
      if IsTerminal(status) then status
      else if aggregate > 0 then PartiallyFilled else status
    else if IsTerminal(status) then status
    else if stale then
      if aggregate > 0 then PartiallyFilled else status
    else if reported == Canceled || reported == Rejected then reported
    else if aggregate > 0 || reported == PartiallyFilled then PartiallyFilled
    else if reported == Live then Live
    else status
  }

  predicate AmendmentConfirmed(o: Order, r: Report) {
    && (o.pendingAmendPrice.None? || (r.orderPrice.Some? && o.price == o.pendingAmendPrice))
    && (o.pendingAmendQuantity.None? || (r.orderQuantity.Some? && Some(o.quantity) == o.pendingAmendQuantity))
  }

  predicate ClearsPending(o: Order, r: Report, historical: bool) {
    match o.pendingAction
    case NoAction => false
    case New => !historical && r.status != Unknown
    case Cancel => !historical && IsTerminal(o.status)
    case Amend => !historical && (IsTerminal(o.status) || AmendmentConfirmed(o, r))
    case Reconcile => !historical && r.status != Unknown
  }

  // ----- what a report says about the whole order -----

  predicate IsDuplicate(o: Order, r: Report) {
    r.eventId != "" && r.eventId in o.processedEventIds
  }

  function Aggregate(o: Order, r: Report): int {
    OffsetFor(o.fillOffsets, r.exchangeOrderId) + r.cumulativeFilled
  }

  /** Total quantity after the report: its own generation's quantity on top of earlier fills. */
  function MergedQuantity(o: Order, r: Report): int {
    if r.orderQuantity.Some? && !Historical(o, r)
    then OffsetFor(o.fillOffsets, r.exchangeOrderId) + r.orderQuantity.value
    else o.quantity
  }

  predicate Belongs(o: Order, r: Report) {
    && (r.clientOrderId == "" || r.clientOrderId == o.clientOrderId || r.clientOrderId in o.exchangeClientIdAliases)
    && (OtherGeneration(o, r) ==> Historical(o, r))
  }

  /** The reports that change the order at all. */
  predicate Accepts(o: Order, r: Report) {
    && !IsDuplicate(o, r)
    && Belongs(o, r)
    && r.cumulativeFilled >= 0
    && Aggregate(o, r) <= MergedQuantity(o, r)
  }

  function Max(a: int, b: int): int {
    if a < b then b else a
  }

  function MergedQuote(o: Order, r: Report): int {
    var merged := Max(o.filledQuantity, Aggregate(o, r));
    if r.cumulativeQuote.Some? then
      Max(o.cumulativeQuote, OffsetFor(o.quoteOffsets, r.exchangeOrderId) + r.cumulativeQuote.value)
    else if merged > o.filledQuantity && r.lastFillPrice.Some? then
      o.cumulativeQuote + Decimals.Product(merged - o.filledQuantity, r.lastFillPrice.value)
    else o.cumulativeQuote
  }

  function MergedAverage(o: Order, r: Report): Option<int> {
    var filled, quote := Max(o.filledQuantity, Aggregate(o, r)), MergedQuote(o, r);
    if filled > 0 && quote > 0 then Some(Decimals.Quotient(quote, filled)) else o.averageFillPrice
  }

  function MergedStatus(o: Order, r: Report): OrderStatus {
    DeriveStatus(o.status, MergedQuantity(o, r), r.status, Aggregate(o, r), Historical(o, r), StaleSequence(o, r))
  }

  function MergedSequence(o: Order, r: Report): Option<nat> {
    if r.sequence.Some? && (o.lastSequence.None? || r.sequence.value > o.lastSequence.value)
    then r.sequence else o.lastSequence
  }

  function WithTerms(o: Order, r: Report): Order {
    o.(price := if !Historical(o, r) && r.orderPrice.Some? then r.orderPrice else o.price,
       quantity := MergedQuantity(o, r))
  }

  function WithFills(o: Order, r: Report): Order {
    o.(filledQuantity := Max(o.filledQuantity, Aggregate(o, r)),
       cumulativeQuote := MergedQuote(o, r),
       averageFillPrice := MergedAverage(o, r))
  }

  function WithStatus(o: Order, status: OrderStatus): Order {
    o.(status := status, filledQuantity := if status == Filled then o.quantity else o.filledQuantity)
  }

  function WithIdentity(o: Order, r: Report): Order {
    o.(rejectionReason := if o.status == Rejected && r.reason != "" then r.reason else o.rejectionReason,
       exchangeOrderId := if !Historical(o, r) && r.exchangeOrderId != "" then r.exchangeOrderId else o.exchangeOrderId,
       lastSequence := MergedSequence(o, r),
       processedEventIds := if r.eventId != "" then o.processedEventIds + {r.eventId} else o.processedEventIds)
  }

  /** Every field an accepted report decides, before pending actions are settled. */
  function MergeFields(o: Order, r: Report): Order {
    WithIdentity(WithStatus(WithFills(WithTerms(o, r), r), MergedStatus(o, r)), r)
  }

  function SettlePending(o: Order, r: Report, historical: bool): Order {
    if ClearsPending(o, r, historical)
    then o.(pendingAction := NoAction, pendingAmendPrice := None, pendingAmendQuantity := None)
    else o
  }

  predicate Changed(o: Order, o': Order) {
    || o.status != o'.status || o.filledQuantity != o'.filledQuantity
    || o.cumulativeQuote != o'.cumulativeQuote || o.exchangeOrderId != o'.exchangeOrderId
    || o.price != o'.price || o.quantity != o'.quantity || o.pendingAction != o'.pendingAction
  }

  function Renumber(before: Order, after: Order): Order {
    if Changed(before, after) then after.(version := before.version + 1) else after
  }

  function Merge(o: Order, r: Report): Order {
    Renumber(o, SettlePending(MergeFields(o, r), r, Historical(o, r)))
  }

  /** The order after a report, and what the caller is told. */
  function ApplyReport(o: Order, r: Report): Order {
    if Accepts(o, r) then Merge(o, r) else o
  }

  function Outcome(o: Order, r: Report): ApplyResult {
    if IsDuplicate(o, r) then ApplyResult(Duplicate, false)
    else if !Accepts(o, r) then ApplyResult(Invalid, false)
    else ApplyResult(if StaleSequence(o, r) then Stale else Applied, Changed(o, Merge(o, r)))
  }

  // ----- the merge, field by field -----

  lemma ApplyCases(o: Order, r: Report)
    ensures Accepts(o, r) ==> ApplyReport(o, r) == Merge(o, r)
    ensures !Accepts(o, r) ==> ApplyReport(o, r) == o
  {
    hide Merge;
  }

  /** The stages of a merge look only at fields that earlier stages left alone. */
  lemma StagesAgree(o: Order, r: Report)
    ensures var t := WithTerms(o, r);
            && Aggregate(t, r) == Aggregate(o, r) && MergedQuote(t, r) == MergedQuote(o, r)
            && var s := WithStatus(WithFills(t, r), MergedStatus(o, r));
               Historical(s, r) == Historical(o, r) && MergedSequence(s, r) == MergedSequence(o, r)
  {
    hide Decimals.Quotient, Decimals.Product, DeriveStatus, MergedAverage;
  }

  /** Settling and renumbering touch only the pending action and the version. */
  predicate SameButPending(o: Order, y: Order) {
    y == o.(pendingAction := y.pendingAction, pendingAmendPrice := y.pendingAmendPrice,
            pendingAmendQuantity := y.pendingAmendQuantity, version := y.version)
  }

  lemma MergeTail(o: Order, r: Report)
    ensures SameButPending(MergeFields(o, r), Merge(o, r))
  {
    hide MergeFields, ClearsPending, Changed, Historical;
  }

  /** What an accepted report decides about fills, terms and status. */
  lemma MergeFacts(o: Order, r: Report)
    ensures var y := Merge(o, r);
            && y.quantity == MergedQuantity(o, r) && y.status == MergedStatus(o, r)
            && y.filledQuantity == (if y.status == Filled then MergedQuantity(o, r)
                                    else Max(o.filledQuantity, Aggregate(o, r)))
            && y.cumulativeQuote == MergedQuote(o, r) && y.lastSequence == MergedSequence(o, r)
            && y.exchangeOrderId == (if !Historical(o, r) && r.exchangeOrderId != "" then r.exchangeOrderId
                                     else o.exchangeOrderId)
            && y.processedEventIds == (if r.eventId != "" then o.processedEventIds + {r.eventId}
                                       else o.processedEventIds)
  {
    StagesAgree(o, r);
    MergeTail(o, r);
    hide Merge, MergedStatus, MergedQuote, MergedAverage, MergedSequence, MergedQuantity, Historical, Aggregate, Max;
  }

  /** What no report touches. */
  lemma MergeFrame(o: Order, r: Report)
    ensures var y := Merge(o, r);
            && y.clientOrderId == o.clientOrderId && y.venue == o.venue && y.symbol == o.symbol && y.side == o.side
            && y.orderType == o.orderType && y.timeInForce == o.timeInForce
            && y.fillOffsets == o.fillOffsets && y.quoteOffsets == o.quoteOffsets
            && y.exchangeClientIdAliases == o.exchangeClientIdAliases
            && y.exchangeOrderIdAliases == o.exchangeOrderIdAliases
            && y.createFingerprint == o.createFingerprint
            && y.processedRequests == o.processedRequests
            && y.processedRequestOutcomes == o.processedRequestOutcomes
  {
    MergeTail(o, r);
    hide Merge, MergedStatus, MergedQuote, MergedAverage, MergedSequence, MergedQuantity, Historical, Aggregate, Max;
  }

  // ----- the imperative routine -----

  /** An order the gateway holds and updates in place. */
  class LiveOrder {
    var order: Order

    constructor (order: Order)
      ensures this.order == order
    {
      this.order := order;
    }

    method Apply(r: Report) returns (result: ApplyResult)
      modifies this
      ensures order == ApplyReport(old(order), r)
      ensures result == Outcome(old(order), r)
    {
      if r.eventId != "" && r.eventId in order.processedEventIds {
        return ApplyResult(Duplicate, false);
      }
      if r.clientOrderId != "" && r.clientOrderId != order.clientOrderId
         && r.clientOrderId !in order.exchangeClientIdAliases {
        return ApplyResult(Invalid, false);
      }
      var historical := Historical(order, r);
      if OtherGeneration(order, r) && !historical {
        return ApplyResult(Invalid, false);
      }
      var fillOffset := OffsetFor(order.fillOffsets, r.exchangeOrderId);
      var aggregate := fillOffset + r.cumulativeFilled;
      var observed := if r.orderQuantity.Some? then Some(fillOffset + r.orderQuantity.value) else None;
      var effective := if observed.Some? && !historical then observed.value else order.quantity;
      if r.cumulativeFilled < 0 || aggregate > effective {
        return ApplyResult(Invalid, false);
      }
      result := MergeInPlace(r, aggregate, historical);
    }

    method MergeInPlace(r: Report, aggregate: int, historical: bool) returns (result: ApplyResult)
      requires aggregate == Aggregate(order, r) && historical == Historical(order, r)
      modifies this
      ensures order == Merge(old(order), r)
      ensures result == ApplyResult(if StaleSequence(old(order), r) then Stale else Applied,
                                    Changed(old(order), Merge(old(order), r)))
    {
      var stale := StaleSequence(order, r);
      var before := order;
      MergeIntoFields(r, aggregate, historical, stale);
      if ClearsPending(order, r, historical) {
        order := order.(pendingAction := NoAction, pendingAmendPrice := None, pendingAmendQuantity := None);
      }
      var changed := Changed(before, order);
      if changed {
        order := order.(version := order.version + 1);
      }
      result := ApplyResult(if stale then Stale else Applied, changed);
    }

    method MergeIntoFields(r: Report, aggregate: int, historical: bool, stale: bool)
      requires aggregate == Aggregate(order, r) && historical == Historical(order, r)
      requires stale == StaleSequence(order, r)
      modifies this
      ensures order == MergeFields(old(order), r)
    {
      UpdateTerms(r);
      UpdateFills(r);
      order := order.(status := DeriveStatus(order.status, order.quantity, r.status, aggregate, historical, stale));
      if order.status == Filled {
        order := order.(filledQuantity := order.quantity);
      }
      UpdateIdentity(r);
    }

    method UpdateTerms(r: Report)
      modifies this
      ensures order == WithTerms(old(order), r)
    {
      if !Historical(order, r) {
        var offset := OffsetFor(order.fillOffsets, r.exchangeOrderId);
        if r.orderPrice.Some? {
          order := order.(price := r.orderPrice);
        }
        if r.orderQuantity.Some? {
          order := order.(quantity := offset + r.orderQuantity.value);
        }
      }
    }

    method UpdateFills(r: Report)
      modifies this
      ensures order == WithFills(old(order), r)
    {
      var merged := Max(order.filledQuantity, Aggregate(order, r));
      var quote := order.cumulativeQuote;
      if r.cumulativeQuote.Some? {
        var aggregateQuote := OffsetFor(order.quoteOffsets, r.exchangeOrderId) + r.cumulativeQuote.value;
        if aggregateQuote >= quote {
          quote := aggregateQuote;
        }
      } else if merged > order.filledQuantity && r.lastFillPrice.Some? {
        quote := quote + Decimals.Product(merged - order.filledQuantity, r.lastFillPrice.value);
      }
      order := order.(cumulativeQuote := quote, filledQuantity := merged);
      if merged > 0 && quote > 0 {
        order := order.(averageFillPrice := Some(Decimals.Quotient(quote, merged)));
      }
    }

    method UpdateIdentity(r: Report)
      modifies this
      ensures order == WithIdentity(old(order), r)
    {
      var historical := Historical(order, r);
      if order.status == Rejected && r.reason != "" {
        order := order.(rejectionReason := r.reason);
      }
      if !historical && r.exchangeOrderId != "" {
        order := order.(exchangeOrderId := r.exchangeOrderId);
      }
      if r.sequence.Some? && (order.lastSequence.None? || r.sequence.value > order.lastSequence.value) {
        order := order.(lastSequence := r.sequence);
      }
      if r.eventId != "" {
        order := order.(processedEventIds := order.processedEventIds + {r.eventId});
      }
    }
  }
}
