/**
 The two indexes that lead a report to its order. Their entries never dangle, every venue id and alias
 an order owns is in them, and a venue id leads to an order that has it; each up to one exact exception.
 */
module GatewayIndexes {
  import opened Wrappers
  import opened Orders
  import opened Recovery
  import opened Gateway
  import opened GatewaySafety
  import opened GatewayRebuild
  import opened JournalEnds
  import opened GatewayPositions
  import opened Positions
  import Fingerprints
  import Machine = OrderStateMachine
  import CancelReplace
  import Outcomes
  import Risk

  type Index = map<string, string>

  /** Every entry leads to an order that exists, so looking it up cannot throw. */
  ghost predicate Live(orders: map<string, Order>, index: Index) {
    forall key :: key in index ==> index[key] in orders
  }

  ghost predicate OwnedIndexed(o: Order, exchange: Index, client: Index) {
    && (forall key :: OwnsExchangeId(o, key) ==> key in exchange)
    && (forall key :: key in o.exchangeClientIdAliases ==> key in client)
  }

  /** Every venue id and every client alias of every order is indexed. */
  ghost predicate AllIndexed(orders: map<string, Order>, exchange: Index, client: Index) {
    forall id :: id in orders ==> OwnedIndexed(orders[id], exchange, client)
  }

  ghost predicate NoDangling(s: State) {
    Live(s.orders, s.exchangeIndex) && Live(s.orders, s.clientIndex)
  }

  ghost predicate IdsIndexed(s: State) {
    AllIndexed(s.orders, s.exchangeIndex, s.clientIndex)
  }

  /** Every entry of the venue index leads to an order that has the id now. */
  ghost predicate EntriesOwned(s: State) {
    forall key :: key in s.exchangeIndex ==>
      s.exchangeIndex[key] in s.orders && NamedByVenue(s.orders[s.exchangeIndex[key]], key)
  }

  /** Entries are only added, and those that are new or changed lead to `id`. */
  predicate Extended(index: Index, index': Index, id: string) {
    index.Keys <= index'.Keys && forall key :: key in index' ==> (key in index && index'[key] == index[key]) || index'[key] == id
  }

  lemma IndexedExtends(index: Index, key: string, id: string)
    ensures Extended(index, Indexed(index, key, id), id)
    ensures key != "" ==> key in Indexed(index, key, id)
  {
  }

  lemma ExtendedTwice(a: Index, b: Index, c: Index, id: string)
    requires Extended(a, b, id) && Extended(b, c, id)
    ensures Extended(a, c, id)
  {
  }

  /** What one locked section that stores an order may do to the indexes. */
  ghost predicate Stores(s: State, s': State, id: string, o: Order) {
    && s'.orders == s.orders[id := o]
    && Extended(s.exchangeIndex, s'.exchangeIndex, id) && Extended(s.clientIndex, s'.clientIndex, id)
  }

  lemma StoresKeepsLive(s: State, s': State, id: string, o: Order)
    requires NoDangling(s) && Stores(s, s', id, o)
    ensures NoDangling(s')
  {
  }

  lemma StoresKeepsIndexed(s: State, s': State, id: string, o: Order)
    requires IdsIndexed(s) && Stores(s, s', id, o)
    ensures IdsIndexed(s') <==> OwnedIndexed(o, s'.exchangeIndex, s'.clientIndex)
  {
    hide OwnsExchangeId;
    if OwnedIndexed(o, s'.exchangeIndex, s'.clientIndex) {
      forall x | x in s'.orders
        ensures OwnedIndexed(s'.orders[x], s'.exchangeIndex, s'.clientIndex)
      {
        if x != id {
          assert OwnedIndexed(s.orders[x], s.exchangeIndex, s.clientIndex);
        }
      }
    } else {
      assert s'.orders[id] == o;
    }
  }

  /** The stored order has every id that leads to it. */
  ghost predicate HasItsEntries(o: Order, index: Index, id: string) {
    forall key :: key in index && index[key] == id ==> NamedByVenue(o, key)
  }

  lemma StoresKeepsOwned(s: State, s': State, id: string, o: Order)
    requires EntriesOwned(s) && Stores(s, s', id, o)
    ensures EntriesOwned(s') <==> HasItsEntries(o, s'.exchangeIndex, id)
  {
    hide NamedByVenue;
  }

  predicate SameIds(o: Order, o': Order) {
    && o'.exchangeOrderId == o.exchangeOrderId && o'.exchangeOrderIdAliases == o.exchangeOrderIdAliases
    && o'.exchangeClientIdAliases == o.exchangeClientIdAliases
  }

  lemma SameIdsStayIndexed(s: State, s': State, id: string, o: Order)
    requires IdsIndexed(s) && id in s.orders && SameIds(s.orders[id], o) && Stores(s, s', id, o)
    ensures OwnedIndexed(o, s'.exchangeIndex, s'.clientIndex)
  {
    assert OwnedIndexed(s.orders[id], s.exchangeIndex, s.clientIndex);
  }

  // ----- reports -----

  lemma ReportedIds(o: Order, r: Report)
    ensures var y := ReportedOrder(o, r);
            && y.exchangeOrderIdAliases == o.exchangeOrderIdAliases
            && (y.exchangeOrderId == o.exchangeOrderId || (o.exchangeOrderId == "" && y.exchangeOrderId == r.exchangeOrderId))
            && y.exchangeClientIdAliases
               == o.exchangeClientIdAliases + (if r.clientOrderId != "" && r.clientOrderId != y.clientOrderId then {r.clientOrderId} else {})
            && y.clientOrderId == o.clientOrderId
  {
    hide Machine.Merge, Machine.ApplyReport;
    Machine.ApplyCases(o, r);
    Machine.MergeFacts(o, r);
    Machine.MergeFrame(o, r);
  }

  lemma ReportStores(s: State, t: nat, id: string, venue: Venue, r: Report, rest: seq<Report>)
    requires id in s.orders
    ensures var s' := MergeReport(s, t, id, venue, r, rest);
            var o := ReportedOrder(s.orders[id], r);
            && Stores(s, s', id, o) && s'.exchangeIndex == Indexed(s.exchangeIndex, o.exchangeOrderId, id)
            && (o.exchangeOrderId != "" ==> o.exchangeOrderId in s'.exchangeIndex)
            && (r.clientOrderId != "" && r.clientOrderId != id ==> r.clientOrderId in s'.clientIndex)
  {
    hide ReportedOrder, MustPersist, Put, Publish, Indexed;
    var o := ReportedOrder(s.orders[id], r);
    PutFacts(s, id, o);
    PublishedIsSame(PutReported(s, id, o, r));
    IndexedExtends(s.exchangeIndex, o.exchangeOrderId, id);
    IndexedExtends(s.clientIndex, r.clientOrderId, id);
  }

  lemma ReportKeepsIndexes(s: State, t: nat, id: string, venue: Venue, r: Report, rest: seq<Report>)
    requires id in s.orders && s.orders[id].clientOrderId == id
    ensures NoDangling(s) ==> NoDangling(MergeReport(s, t, id, venue, r, rest))
    ensures IdsIndexed(s) ==> IdsIndexed(MergeReport(s, t, id, venue, r, rest))
    ensures EntriesOwned(s) ==> EntriesOwned(MergeReport(s, t, id, venue, r, rest))
  {
    hide MergeReport, ReportedOrder, Stores, NoDangling, IdsIndexed, EntriesOwned;
    var s' := MergeReport(s, t, id, venue, r, rest);
    var o := ReportedOrder(s.orders[id], r);
    ReportStores(s, t, id, venue, r, rest);
    if NoDangling(s) {
      StoresKeepsLive(s, s', id, o);
    }
    if IdsIndexed(s) {
      ReportedOwnedIndexed(s, s', id, r);
      StoresKeepsIndexed(s, s', id, o);
    }
    if EntriesOwned(s) {
      ReportedHasEntries(s, id, r);
      StoresKeepsOwned(s, s', id, o);
    }
  }

  lemma ReportedHasEntries(s: State, id: string, r: Report)
    requires EntriesOwned(s) && id in s.orders
    ensures var o := ReportedOrder(s.orders[id], r);
            HasItsEntries(o, Indexed(s.exchangeIndex, o.exchangeOrderId, id), id)
  {
    hide ReportedOrder;
    ReportedIds(s.orders[id], r);
  }

  lemma ReportedOwnedIndexed(s: State, s': State, id: string, r: Report)
    requires IdsIndexed(s) && id in s.orders && s.orders[id].clientOrderId == id
    requires Stores(s, s', id, ReportedOrder(s.orders[id], r))
    requires ReportedOrder(s.orders[id], r).exchangeOrderId != ""
             ==> ReportedOrder(s.orders[id], r).exchangeOrderId in s'.exchangeIndex
    requires r.clientOrderId != "" && r.clientOrderId != id ==> r.clientOrderId in s'.clientIndex
    ensures OwnedIndexed(ReportedOrder(s.orders[id], r), s'.exchangeIndex, s'.clientIndex)
  {
    hide ReportedOrder;
    ReportedIds(s.orders[id], r);
    assert OwnedIndexed(s.orders[id], s.exchangeIndex, s.clientIndex);
  }

  lemma ExecutionKeepsIndexes(s: State, t: nat, venue: Venue, r: Report, rest: seq<Report>)
    requires Safe(s)
    ensures NoDangling(s) ==> NoDangling(ApplyExecution(s, t, venue, r, rest))
    ensures IdsIndexed(s) ==> IdsIndexed(ApplyExecution(s, t, venue, r, rest))
    ensures EntriesOwned(s) ==> EntriesOwned(ApplyExecution(s, t, venue, r, rest))
  {
    hide Safe, Locate, MustDefer, Machine.Outcome, MergeReport, NoDangling, IdsIndexed, EntriesOwned;
    LocatedExists(s, venue, r);
    var located := Locate(s, venue, r);
    var s' := ApplyExecution(s, t, venue, r, rest);
    if located.Some? && !MustDefer(venue, s.orders[located.value], r)
       && Machine.Outcome(s.orders[located.value], r).disposition != Machine.Invalid {
      SafeOrder(s, located.value);
      ReportKeepsIndexes(s, t, located.value, venue, r, rest);
    } else {
      SameIndexes(s, s');
    }
  }

  lemma SameIndexes(s: State, s': State)
    requires s'.orders == s.orders && s'.exchangeIndex == s.exchangeIndex && s'.clientIndex == s.clientIndex
    ensures NoDangling(s) ==> NoDangling(s')
    ensures IdsIndexed(s) ==> IdsIndexed(s')
    ensures EntriesOwned(s) ==> EntriesOwned(s')
  {
  }

  // ----- completions -----

  /**
   A rejected place whose answer brings a venue id that is new to the index, for an order that has none
   yet and merges the rejection: its event is not known, and the fill stays within the quantity.
   */
  predicate LeavesIdUnindexed(s: State, o: Order, op: Operation, result: AdapterResult) {
    && op.PlaceOp? && !result.accepted && !result.outcomeUncertain
    && o.exchangeOrderId == "" && result.exchangeOrderId != "" && result.exchangeOrderId !in s.exchangeIndex
    && PlaceRejectionId(o) !in o.processedEventIds
    && 0 <= o.filledQuantity && Machine.OffsetFor(o.fillOffsets, result.exchangeOrderId) + o.filledQuantity <= o.quantity
  }

  lemma PlaceRejectionAccepted(o: Order, result: AdapterResult)
    requires o.exchangeOrderId == ""
    ensures Machine.Accepts(o, PlaceRejection(o, result))
            <==> && PlaceRejectionId(o) !in o.processedEventIds && 0 <= o.filledQuantity
                 && Machine.OffsetFor(o.fillOffsets, result.exchangeOrderId) + o.filledQuantity <= o.quantity
  {
    assert |PlaceRejectionId(o)| > 0;
    hide PlaceRejectionId;
  }

  lemma PlaceRejectionIds(o: Order, result: AdapterResult)
    ensures var y := Machine.ApplyReport(o, PlaceRejection(o, result));
            && y.exchangeOrderIdAliases == o.exchangeOrderIdAliases && y.exchangeClientIdAliases == o.exchangeClientIdAliases
            && (o.exchangeOrderId != "" ==> y.exchangeOrderId == o.exchangeOrderId)
            && (o.exchangeOrderId == "" ==>
                  y.exchangeOrderId == if Machine.Accepts(o, PlaceRejection(o, result)) then result.exchangeOrderId else "")
  {
    hide Machine.Merge, Machine.ApplyReport, PlaceRejectionId;
    Machine.ApplyCases(o, PlaceRejection(o, result));
    Machine.MergeFacts(o, PlaceRejection(o, result));
    Machine.MergeFrame(o, PlaceRejection(o, result));
  }

  lemma PlacedOwnedIndexed(s: State, o: Order, q: OrderRequest, result: AdapterResult)
    requires OwnedIndexed(o, s.exchangeIndex, s.clientIndex)
    ensures OwnedIndexed(PlacedOrder(o, result), CompletedExchangeIndex(s, o, PlaceOp(q), result),
                         CompletedClientIndex(s, PlaceOp(q), result))
            <==> !LeavesIdUnindexed(s, o, PlaceOp(q), result)
  {
    hide Machine.ApplyReport, Machine.Accepts, PlaceRejection, PlaceRejectionId, Machine.OffsetFor;
    PlaceRejectionIds(o, result);
    if o.exchangeOrderId == "" {
      PlaceRejectionAccepted(o, result);
    }
  }

  /**
   An accepted place whose answer replaces a venue id that a report had brought before and that leads
   to the order.
   */
  predicate DropsVenueId(s: State, o: Order, op: Operation, result: AdapterResult) {
    && op.PlaceOp? && result.accepted
    && o.exchangeOrderId != "" && result.exchangeOrderId != "" && result.exchangeOrderId != o.exchangeOrderId
    && o.exchangeOrderId !in o.exchangeOrderIdAliases
    && o.exchangeOrderId in s.exchangeIndex && s.exchangeIndex[o.exchangeOrderId] == IdOfOp(op)
  }

  /** Completing an operation leaves an order without one of its entries exactly then. */
  lemma CompletedHasEntriesExactly(s: State, op: Operation, result: AdapterResult)
    requires EntriesOwned(s) && IdOfOp(op) in s.orders
    ensures var o := s.orders[IdOfOp(op)];
            HasItsEntries(CompletedOrder(o, op, result), CompletedExchangeIndex(s, o, op, result), IdOfOp(op))
            <==> !DropsVenueId(s, o, op, result)
  {
    hide PlacedOrder, AmendedOrder, CanceledOrder, CompletedExchangeIndex, EntriesOwned, HasItsEntries;
    match op
    case PlaceOp(q) => PlacedHasEntries(s, q, result);
    case CancelOp(q) => CanceledHasEntries(s, q, result);
    case AmendOp(q) => AmendedHasEntries(s, q, result);
  }

  lemma PlacedHasEntries(s: State, q: OrderRequest, result: AdapterResult)
    requires EntriesOwned(s) && q.clientOrderId in s.orders
    ensures var o := s.orders[q.clientOrderId];
            HasItsEntries(PlacedOrder(o, result), CompletedExchangeIndex(s, o, PlaceOp(q), result), q.clientOrderId)
            <==> !DropsVenueId(s, o, PlaceOp(q), result)
  {
    hide Machine.ApplyReport, Machine.Accepts, PlaceRejection;
    var o := s.orders[q.clientOrderId];
    PlaceRejectionIds(o, result);
    if DropsVenueId(s, o, PlaceOp(q), result) {
      var index := CompletedExchangeIndex(s, o, PlaceOp(q), result);
      assert index[o.exchangeOrderId] == q.clientOrderId && !NamedByVenue(PlacedOrder(o, result), o.exchangeOrderId);
    }
  }

  lemma CanceledHasEntries(s: State, q: CancelRequest, result: AdapterResult)
    requires EntriesOwned(s) && q.clientOrderId in s.orders
    ensures var o := s.orders[q.clientOrderId];
            HasItsEntries(CanceledOrder(o, CancelKey(q), result), CompletedExchangeIndex(s, o, CancelOp(q), result), q.clientOrderId)
  {
    hide CancelKey, AnswerOf, Outcomes.Encode;
  }

  lemma AmendedHasEntries(s: State, q: AmendRequest, result: AdapterResult)
    requires EntriesOwned(s) && q.clientOrderId in s.orders
    ensures var o := s.orders[q.clientOrderId];
            HasItsEntries(AmendedOrder(o, q, result), CompletedExchangeIndex(s, o, AmendOp(q), result), q.clientOrderId)
  {
    hide CancelReplace.Replace, AmendKey, AnswerOf, DriftNote, Outcomes.Encode;
    var o := s.orders[q.clientOrderId];
    ReplacedIds(WithOutcome(o, AmendKey(q), result), result.exchangeOrderId, result.reports);
  }

  lemma ReplacedIds(o: Order, newId: string, reports: seq<Report>)
    ensures var y := CancelReplace.Replace(o, newId, reports);
            && y.exchangeOrderId == newId && y.exchangeClientIdAliases == o.exchangeClientIdAliases
            && y.exchangeOrderIdAliases
               == o.exchangeOrderIdAliases + (if o.exchangeOrderId == "" then {} else {o.exchangeOrderId})
  {
    hide CancelReplace.FinalOldFill, CancelReplace.FinalOldQuote, CancelReplace.ActualQuantity, CancelReplace.WithOffset;
  }

  lemma AmendedOwnedIndexed(s: State, o: Order, q: AmendRequest, result: AdapterResult)
    requires OwnedIndexed(o, s.exchangeIndex, s.clientIndex)
    ensures OwnedIndexed(AmendedOrder(o, q, result), CompletedExchangeIndex(s, o, AmendOp(q), result),
                         CompletedClientIndex(s, AmendOp(q), result))
  {
    hide CancelReplace.Replace, AmendKey, AnswerOf, DriftNote, Outcomes.Encode;
    ReplacedIds(WithOutcome(o, AmendKey(q), result), result.exchangeOrderId, result.reports);
  }

  /** Completing an operation leaves its order's ids indexed exactly unless a rejected place brought a new one. */
  lemma CompletedOwnedIndexedExactly(s: State, o: Order, op: Operation, result: AdapterResult)
    requires OwnedIndexed(o, s.exchangeIndex, s.clientIndex)
    ensures OwnedIndexed(CompletedOrder(o, op, result), CompletedExchangeIndex(s, o, op, result), CompletedClientIndex(s, op, result))
            <==> !LeavesIdUnindexed(s, o, op, result)
  {
    hide PlacedOrder, AmendedOrder, OwnedIndexed, CompletedExchangeIndex, CompletedClientIndex, CanceledOrder;
    match op
    case PlaceOp(q) => PlacedOwnedIndexed(s, o, q, result);
    case CancelOp(q) => CanceledOwnedIndexed(s, o, q, result);
    case AmendOp(q) => AmendedOwnedIndexed(s, o, q, result);
  }

  lemma CanceledOwnedIndexed(s: State, o: Order, q: CancelRequest, result: AdapterResult)
    requires OwnedIndexed(o, s.exchangeIndex, s.clientIndex)
    ensures OwnedIndexed(CanceledOrder(o, CancelKey(q), result), CompletedExchangeIndex(s, o, CancelOp(q), result),
                         CompletedClientIndex(s, CancelOp(q), result))
  {
    hide CancelKey, AnswerOf, Outcomes.Encode;
  }

  lemma CompletedIndexesExtend(s: State, o: Order, op: Operation, result: AdapterResult)
    ensures Extended(s.exchangeIndex, CompletedExchangeIndex(s, o, op, result), IdOfOp(op))
    ensures Extended(s.clientIndex, CompletedClientIndex(s, op, result), IdOfOp(op))
  {
    hide Extended, Indexed;
    var id := IdOfOp(op);
    IndexedExtends(s.exchangeIndex, result.exchangeOrderId, id);
    IndexedExtends(s.exchangeIndex, o.exchangeOrderId, id);
    IndexedExtends(Indexed(s.exchangeIndex, o.exchangeOrderId, id), result.exchangeOrderId, id);
    ExtendedTwice(s.exchangeIndex, Indexed(s.exchangeIndex, o.exchangeOrderId, id),
                  Indexed(Indexed(s.exchangeIndex, o.exchangeOrderId, id), result.exchangeOrderId, id), id);
    IndexedExtends(s.clientIndex, result.exchangeClientOrderId, id);
    ExtendsItself(s.exchangeIndex, id);
    ExtendsItself(s.clientIndex, id);
  }

  lemma ExtendsItself(index: Index, id: string)
    ensures Extended(index, index, id)
  {
  }

  lemma CompleteStores(s: State, t: nat)
    requires t in s.threads && s.threads[t].Answered? && IdOfOp(s.threads[t].op) in s.orders
    ensures var op, result := s.threads[t].op, s.threads[t].result;
            var id := IdOfOp(op);
            var o := s.orders[id];
            var s' := Complete(s, t);
            && Stores(s, s', id, CompletedOrder(o, op, result))
            && s'.exchangeIndex == CompletedExchangeIndex(s, o, op, result)
            && s'.clientIndex == CompletedClientIndex(s, op, result)
  {
    hide CompletedOrder, CompletedExchangeIndex, CompletedClientIndex, AnswerOf, ReportsToApply, Put, Publish, Extended;
    var op, result := s.threads[t].op, s.threads[t].result;
    var id := IdOfOp(op);
    var before := s.orders[id];
    var o := CompletedOrder(before, op, result);
    PutFacts(s, id, o);
    var s1 := Put(s, id, o).(active := s.active - {id},
                             exchangeIndex := CompletedExchangeIndex(s, before, op, result),
                             clientIndex := CompletedClientIndex(s, op, result),
                             deferred := if op.AmendOp? then s.deferred - {id} else s.deferred);
    PublishedIsSame(s1);
    CompletedIndexesExtend(s, before, op, result);
  }

  predicate Completes(s: State, step: Step) {
    step.DoComplete? && step.t in s.threads && s.threads[step.t].Answered? && IdOfOp(s.threads[step.t].op) in s.orders
  }

  /** The step after which a venue id is known to its order but not to the index. */
  predicate GapStep(s: State, step: Step) {
    Completes(s, step)
    && LeavesIdUnindexed(s, s.orders[IdOfOp(s.threads[step.t].op)], s.threads[step.t].op, s.threads[step.t].result)
  }

  /** The step after which a venue id leads to an order that no longer has it. */
  predicate DropStep(s: State, step: Step) {
    Completes(s, step)
    && DropsVenueId(s, s.orders[IdOfOp(s.threads[step.t].op)], s.threads[step.t].op, s.threads[step.t].result)
  }

  lemma CompleteKeepsIndexesExactly(s: State, t: nat)
    ensures NoDangling(s) ==> NoDangling(Complete(s, t))
    ensures IdsIndexed(s) ==> (IdsIndexed(Complete(s, t)) <==> !GapStep(s, DoComplete(t)))
    ensures EntriesOwned(s) ==> (EntriesOwned(Complete(s, t)) <==> !DropStep(s, DoComplete(t)))
  {
    hide CompletedOrder, CompletedExchangeIndex, CompletedClientIndex, Stores, NoDangling, LeavesIdUnindexed, OwnedIndexed,
         DropsVenueId, EntriesOwned, HasItsEntries, IdsIndexed, Complete;
    if Completes(s, DoComplete(t)) {
      var op, result := s.threads[t].op, s.threads[t].result;
      var id := IdOfOp(op);
      CompleteStores(s, t);
      if NoDangling(s) {
        StoresKeepsLive(s, Complete(s, t), id, CompletedOrder(s.orders[id], op, result));
      }
      if IdsIndexed(s) {
        IndexedHere(s, id);
        CompletedOwnedIndexedExactly(s, s.orders[id], op, result);
        StoresKeepsIndexed(s, Complete(s, t), id, CompletedOrder(s.orders[id], op, result));
      }
      if EntriesOwned(s) {
        CompletedHasEntriesExactly(s, op, result);
        StoresKeepsOwned(s, Complete(s, t), id, CompletedOrder(s.orders[id], op, result));
      }
    } else {
      NothingCompletes(s, t);
    }
  }

  lemma IndexedHere(s: State, id: string)
    requires IdsIndexed(s) && id in s.orders
    ensures OwnedIndexed(s.orders[id], s.exchangeIndex, s.clientIndex)
  {
  }

  lemma NothingCompletes(s: State, t: nat)
    requires !(t in s.threads && s.threads[t].Answered? && IdOfOp(s.threads[t].op) in s.orders)
    ensures Complete(s, t) == s
  {
  }

  // ----- the other steps -----

  lemma SameIdsKeepIndexes(s: State, s': State, id: string, o: Order)
    requires id in s.orders && SameIds(s.orders[id], o) && s'.orders == s.orders[id := o]
    requires s'.exchangeIndex == s.exchangeIndex && s'.clientIndex == s.clientIndex
    ensures NoDangling(s) ==> NoDangling(s')
    ensures IdsIndexed(s) ==> IdsIndexed(s')
    ensures EntriesOwned(s) ==> EntriesOwned(s')
  {
    hide IdsIndexed, NoDangling, EntriesOwned, HasItsEntries;
    if EntriesOwned(s) {
      SameIdsHaveEntries(s, id, o);
      ExtendsItself(s.exchangeIndex, id);
      ExtendsItself(s.clientIndex, id);
      StoresKeepsOwned(s, s', id, o);
    }
    ExtendsItself(s.exchangeIndex, id);
    ExtendsItself(s.clientIndex, id);
    if NoDangling(s) {
      StoresKeepsLive(s, s', id, o);
    }
    if IdsIndexed(s) {
      SameIdsStayIndexed(s, s', id, o);
      StoresKeepsIndexed(s, s', id, o);
    }
  }

  lemma SameIdsHaveEntries(s: State, id: string, o: Order)
    requires EntriesOwned(s) && id in s.orders && SameIds(s.orders[id], o)
    ensures HasItsEntries(o, s.exchangeIndex, id)
  {
  }

  lemma NewHasEntries(s: State, id: string, o: Order)
    requires EntriesOwned(s) && id !in s.orders
    ensures HasItsEntries(o, s.exchangeIndex, id)
  {
  }

  lemma AdmitKeepsIndexes(s: State, t: nat, q: OrderRequest, o: Order, admitted: bool)
    requires o.exchangeOrderId == "" && o.exchangeOrderIdAliases == {} && o.exchangeClientIdAliases == {}
    requires q.clientOrderId !in s.orders
    ensures NoDangling(s) ==> NoDangling(Admit(s, t, q, o, admitted))
    ensures IdsIndexed(s) ==> IdsIndexed(Admit(s, t, q, o, admitted))
    ensures EntriesOwned(s) ==> EntriesOwned(Admit(s, t, q, o, admitted))
  {
    hide Put, Publish, IdsIndexed, NoDangling, EntriesOwned, HasItsEntries;
    var id := q.clientOrderId;
    var s' := Admit(s, t, q, o, admitted);
    PutFacts(s, id, o);
    PublishedIsSame(Put(s, id, o));
    ExtendsItself(s.exchangeIndex, id);
    ExtendsItself(s.clientIndex, id);
    if NoDangling(s) {
      StoresKeepsLive(s, s', id, o);
    }
    if IdsIndexed(s) {
      StoresKeepsIndexed(s, s', id, o);
    }
    if EntriesOwned(s) {
      NewHasEntries(s, id, o);
      StoresKeepsOwned(s, s', id, o);
    }
  }

  lemma PlaceKeepsIndexes(table: Risk.LimitTable, s: State, t: nat, q: OrderRequest, marketData: bool,
                          marketPrice: Option<int>, preflight: Risk.Decision, reason: string)
    ensures var s' := PlaceStart(table, s, t, q, marketData, marketPrice, preflight, reason);
            (NoDangling(s) ==> NoDangling(s')) && (IdsIndexed(s) ==> IdsIndexed(s')) && (EntriesOwned(s) ==> EntriesOwned(s'))
  {
    hide PlaceDecision, Admit, NoDangling, IdsIndexed, EntriesOwned, Fingerprints.CreateFingerprint;
    if q.clientOrderId !in s.orders {
      var decision := PlaceDecision(table, s, q, marketData, marketPrice, preflight);
      AdmitKeepsIndexes(s, t, q, NewOrder(q, decision, reason), decision == Risk.Accept);
    }
  }

  lemma CancelKeepsIndexes(s: State, t: nat, q: CancelRequest)
    ensures NoDangling(s) ==> NoDangling(CancelStart(s, t, q))
    ensures IdsIndexed(s) ==> IdsIndexed(CancelStart(s, t, q))
    ensures EntriesOwned(s) ==> EntriesOwned(CancelStart(s, t, q))
  {
    hide CancelDecision, CancelKey, Publish, NoDangling, IdsIndexed, Fingerprints.CancelFingerprint, EntriesOwned;
    if t !in s.threads && CancelDecision(s, q) == CancelProceeds {
      CancelFindsOrder(s, q);
      var id := q.clientOrderId;
      var o := WithRequest(s.orders[id], CancelKey(q), Fingerprints.CancelFingerprint(q)).(pendingAction := Cancel);
      PublishedIsSame(s.(orders := s.orders[id := o], active := s.active + {id}));
      SameIdsKeepIndexes(s, CancelStart(s, t, q), id, o);
    }
  }

  lemma AmendKeepsIndexes(table: Risk.LimitTable, s: State, t: nat, q: AmendRequest, legacy: string)
    ensures NoDangling(s) ==> NoDangling(AmendStart(table, s, t, q, legacy))
    ensures IdsIndexed(s) ==> IdsIndexed(AmendStart(table, s, t, q, legacy))
    ensures EntriesOwned(s) ==> EntriesOwned(AmendStart(table, s, t, q, legacy))
  {
    hide AmendDecision, AmendKey, Publish, NoDangling, IdsIndexed, Fingerprints.AmendFingerprint, EntriesOwned;
    if t !in s.threads && AmendDecision(table, s, q, legacy) == AmendProceeds {
      AmendFindsOrder(table, s, q, legacy);
      var id := q.clientOrderId;
      var o := WithRequest(s.orders[id], AmendKey(q), Fingerprints.AmendFingerprint(q))
               .(pendingAction := Amend, pendingAmendPrice := q.newPrice, pendingAmendQuantity := q.newQuantity);
      PublishedIsSame(s.(orders := s.orders[id := o], active := s.active + {id}));
      SameIdsKeepIndexes(s, AmendStart(table, s, t, q, legacy), id, o);
    }
  }

  lemma QueryKeepsIndexes(s: State, t: nat, answer: Option<Report>)
    requires Safe(s)
    ensures NoDangling(s) ==> NoDangling(QueryAnswers(s, t, answer))
    ensures IdsIndexed(s) ==> IdsIndexed(QueryAnswers(s, t, answer))
    ensures EntriesOwned(s) ==> EntriesOwned(QueryAnswers(s, t, answer))
  {
    hide Safe, ApplyExecution, NoDangling, IdsIndexed, EntriesOwned;
    if t in s.threads && s.threads[t].Querying? && s.threads[t].id in s.orders {
      var id := s.threads[t].id;
      match answer
      case Some(r) => ExecutionKeepsIndexes(s, t, s.orders[id].venue, r, []);
      case None => SameIdsKeepIndexes(s, QueryAnswers(s, t, None), id, NullQueried(s.orders[id]));
    }
  }

  lemma NextKeepsIndexes(s: State, t: nat)
    requires Safe(s)
    ensures NoDangling(s) ==> NoDangling(ApplyNext(s, t))
    ensures IdsIndexed(s) ==> IdsIndexed(ApplyNext(s, t))
    ensures EntriesOwned(s) ==> EntriesOwned(ApplyNext(s, t))
  {
    hide Safe, ApplyExecution, NoDangling, IdsIndexed, EntriesOwned;
    if t in s.threads && s.threads[t].Draining? {
      var stage := s.threads[t];
      if stage.reports == [] {
        SameIndexes(s, ApplyNext(s, t));
      } else {
        ExecutionKeepsIndexes(s, t, stage.venue, stage.reports[0], stage.reports[1..]);
      }
    }
  }

  /** The startup loop indexes everything, also what was missing before, and only what orders have. */
  lemma CrashIndexes(s: State, list: seq<Order>, events: nat)
    ensures var s' := Crash(s, list, events);
            s' == s || (NoDangling(s') && IdsIndexed(s') && EntriesOwned(s'))
  {
    hide RecoveredOrders, RebuiltPositions, RebuiltExchangeIndex, RebuiltClientIndex, Survivors, Reloaded;
    var orders := RecoveredOrders(Survivors(s));
    if Lists(list, orders) {
      ExchangeIndexIsRebuilt(list);
      ClientIndexIsRebuilt(list);
      forall key | key in RebuiltExchangeIndex(list)
        ensures RebuiltExchangeIndex(list)[key] in orders && NamedByVenue(orders[RebuiltExchangeIndex(list)[key]], key)
      {
        assert Listed(list, RebuiltExchangeIndex(list)[key], key, NamedByVenue);
      }
      forall key | key in RebuiltClientIndex(list)
        ensures RebuiltClientIndex(list)[key] in orders
      {
        assert Listed(list, RebuiltClientIndex(list)[key], key, NamedByClient);
      }
      forall id | id in orders
        ensures OwnedIndexed(orders[id], RebuiltExchangeIndex(list), RebuiltClientIndex(list))
      {
        var i :| 0 <= i < |list| && list[i].clientOrderId == id;
        ListedIsIndexed(list, i);
      }
    }
  }

  lemma ListedIsIndexed(list: seq<Order>, i: nat)
    requires i < |list|
    ensures OwnedIndexed(list[i], RebuiltExchangeIndex(list), RebuiltClientIndex(list))
  {
    hide RebuiltExchangeIndex, RebuiltClientIndex;
    ExchangeIndexIsRebuilt(list);
    ClientIndexIsRebuilt(list);
    forall key | OwnsExchangeId(list[i], key)
      ensures NamedByVenue(list[i], key)
    {
    }
    forall key | key in list[i].exchangeClientIdAliases
      ensures NamedByClient(list[i], key)
    {
    }
  }

  lemma QuietKeepsIndexes(table: Risk.LimitTable, s: State, step: Step)
    requires step.DoAppend? || step.DoAppendFails? || step.DoCallVenue? || step.DoVenueAnswers? || step.DoQueryStart?
             || step.DoEventLogged?
    ensures NoDangling(s) ==> NoDangling(Exec(table, s, step))
    ensures IdsIndexed(s) ==> IdsIndexed(Exec(table, s, step))
    ensures EntriesOwned(s) ==> EntriesOwned(Exec(table, s, step))
  {
    hide Exec, NoDangling, IdsIndexed, EntriesOwned;
    ThreadStepKeepsBooks(table, s, step);
    QuietIndexes(table, s, step);
    SameIndexes(s, Exec(table, s, step));
  }

  lemma QuietIndexes(table: Risk.LimitTable, s: State, step: Step)
    requires step.DoAppend? || step.DoAppendFails? || step.DoCallVenue? || step.DoVenueAnswers? || step.DoQueryStart?
             || step.DoEventLogged?
    ensures Exec(table, s, step).exchangeIndex == s.exchangeIndex && Exec(table, s, step).clientIndex == s.clientIndex
  {
    hide PlaceStart, CancelStart, AmendStart, Complete, ApplyNext, ApplyExecution, QueryAnswers, StreamReport, Append,
         AppendFails, Crash;
    match step
    case DoAppend(t) => AppendIndexes(s, t, Nothing);
    case DoAppendFails(t, extent) => AppendIndexes(s, t, extent);
    case _ => {}
  }

  lemma AppendIndexes(s: State, t: nat, extent: Extent)
    ensures Append(s, t).exchangeIndex == s.exchangeIndex && Append(s, t).clientIndex == s.clientIndex
    ensures var f := AppendFails(s, t, extent);
            f.exchangeIndex == s.exchangeIndex && f.clientIndex == s.clientIndex
  {
    hide AfterAppend, Filed, Written;
    if t in s.threads && HasRecordToAppend(s.threads[t]) {
      FiledFacts(s, s.threads[t].record);
      AfterAppendIndexes(Filed(s, s.threads[t].record), t, s.threads[t]);
    }
  }

  lemma AfterAppendIndexes(s: State, t: nat, stage: Stage)
    ensures AfterAppend(s, t, stage).exchangeIndex == s.exchangeIndex && AfterAppend(s, t, stage).clientIndex == s.clientIndex
  {
    if stage.Finishing? && !stage.op.PlaceOp? {
      var s1 := Enter(s, t, Draining(stage.record.order.venue, stage.reports));
      assert s1.(answered := s1.answered[stage.op := stage.answer]).exchangeIndex == s.exchangeIndex;
    }
  }

  lemma ExecKeepsIndexes(table: Risk.LimitTable, s: State, step: Step)
    requires Safe(s)
    ensures NoDangling(s) ==> NoDangling(Exec(table, s, step))
    ensures IdsIndexed(s) && !GapStep(s, step) ==> IdsIndexed(Exec(table, s, step))
    ensures EntriesOwned(s) && !DropStep(s, step) ==> EntriesOwned(Exec(table, s, step))
  {
    hide Safe, PlaceStart, CancelStart, AmendStart, Complete, ApplyNext, ApplyExecution, QueryAnswers, Crash, NoDangling,
         IdsIndexed, EntriesOwned, Append, AppendFails, CallVenue, VenueAnswers, QueryStart, EventLogged;
    match step
    case DoPlaceStart(t, q, marketData, marketPrice, preflight, reason) =>
      PlaceKeepsIndexes(table, s, t, q, marketData, marketPrice, preflight, reason);
    case DoCancelStart(t, c) => CancelKeepsIndexes(s, t, c);
    case DoAmendStart(t, a, legacy) => AmendKeepsIndexes(table, s, t, a, legacy);
    case DoComplete(t) => CompleteKeepsIndexesExactly(s, t);
    case DoStreamReport(t, venue, r) => ExecutionKeepsIndexes(s, t, venue, r, []);
    case DoApplyNext(t) => NextKeepsIndexes(s, t);
    case DoQueryAnswers(t, answer) => QueryKeepsIndexes(s, t, answer);
    case DoCrash(list, events) => CrashIndexes(s, list, events);
    case _ => QuietKeepsIndexes(table, s, step);
  }

  // ----- over runs -----

  lemma {:induction false} IndexesNeverDangle(table: Risk.LimitTable, steps: seq<Step>)
    ensures NoDangling(After(table, steps))
  {
    hide Exec, Safe;
    if steps != [] {
      var before := steps[..|steps| - 1];
      IndexesNeverDangle(table, before);
      EveryRunIsSafe(table, before);
      ExecKeepsIndexes(table, After(table, before), steps[|steps| - 1]);
    }
  }

  lemma {:induction false} OwnedIdsAreIndexed(table: Risk.LimitTable, steps: seq<Step>)
    requires forall i :: 0 <= i < |steps| ==> !GapStep(After(table, steps[..i]), steps[i])
    ensures IdsIndexed(After(table, steps))
  {
    hide Exec, Safe, GapStep;
    if steps != [] {
      var n := |steps| - 1;
      var before := steps[..n];
      assert forall i :: 0 <= i < n ==> before[..i] == steps[..i] && before[i] == steps[i];
      OwnedIdsAreIndexed(table, before);
      EveryRunIsSafe(table, before);
      ExecKeepsIndexes(table, After(table, before), steps[n]);
    }
  }

  lemma {:induction false} EntriesStayOwned(table: Risk.LimitTable, steps: seq<Step>)
    requires forall i :: 0 <= i < |steps| ==> !DropStep(After(table, steps[..i]), steps[i])
    ensures EntriesOwned(After(table, steps))
  {
    hide Exec, Safe, DropStep;
    if steps != [] {
      var n := |steps| - 1;
      var before := steps[..n];
      assert forall i :: 0 <= i < n ==> before[..i] == steps[..i] && before[i] == steps[i];
      EntriesStayOwned(table, before);
      EveryRunIsSafe(table, before);
      ExecKeepsIndexes(table, After(table, before), steps[n]);
    }
  }

  // ----- finding the order of a report -----

  /** A report under a venue id finds its owner at the owner's venue exactly when the id leads to the owner. */
  lemma OwnedIdsAreLocatedExactly(s: State, id: string, r: Report)
    requires id in s.orders && OwnsExchangeId(s.orders[id], r.exchangeOrderId) && r.clientOrderId == ""
    ensures Locate(s, s.orders[id].venue, r) == Some(id)
            <==> r.exchangeOrderId in s.exchangeIndex && s.exchangeIndex[r.exchangeOrderId] == id
  {
  }

  /** So it does for an id that no other order has, of whichever venue. */
  lemma SoleOwnerIsLocated(s: State, id: string, r: Report)
    requires EntriesOwned(s) && IdsIndexed(s) && id in s.orders
    requires OwnsExchangeId(s.orders[id], r.exchangeOrderId) && r.clientOrderId == ""
    requires forall other :: other in s.orders && other != id ==> !NamedByVenue(s.orders[other], r.exchangeOrderId)
    ensures Locate(s, s.orders[id].venue, r) == Some(id)
  {
    hide NamedByVenue;
    IndexedHere(s, id);
    OwnedIdsAreLocatedExactly(s, id, r);
  }

  /** When two orders have the id, the one it does not lead to gets nothing, or the other one's venue's answer. */
  lemma SharedIdMissesOne(s: State, id: string, other: string, r: Report)
    requires id in s.orders && other in s.orders && other != id && r.clientOrderId == "" && r.exchangeOrderId != ""
    requires r.exchangeOrderId in s.exchangeIndex && s.exchangeIndex[r.exchangeOrderId] == other
    ensures Locate(s, s.orders[id].venue, r) == if s.orders[other].venue == s.orders[id].venue then Some(other) else None
  {
  }
}
