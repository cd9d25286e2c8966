/**
 Runs from an empty gateway that reach the states in which it does less than one would like. All of
 them use the same small orders: buy two units at price one, with room for three units in all.
 */
module GatewayExamples {
  import opened Wrappers
  import opened Orders
  import opened Positions
  import opened Gateway
  import opened GatewayRuns
  import opened GatewayDeferral
  import opened GatewayIndexes
  import opened GatewayPositions
  import opened GatewayRebuild
  import GatewayHistory
  import GatewaySafety
  import opened GatewayStranding
  import opened GatewayMemory
  import opened GatewayTheorems
  import opened Recovery
  import opened JournalEnds
  import Fingerprints
  import CancelReplace
  import Machine = OrderStateMachine
  import Risk

  const ID_A: string := ['a']
  const ID_B: string := ['b']
  const FIRST: string := ['1']
  const SECOND: string := ['2']
  const UNREGISTERED: string := ['X']
  const ROOM := Risk.Limits(10, 10, 3, None)
  const TABLE: Risk.LimitTable := map[UNREGISTERED := ROOM, SYMBOLS[0] := ROOM]

  function Create(id: string, venue: Venue, symbol: string): OrderRequest {
    OrderRequest(id, venue, symbol, Buy, Limit, Some(1), 2, Gtc)
  }

  function Acceptance(exchangeId: string): AdapterResult {
    AdapterResult(true, false, false, exchangeId, "", "", "", [])
  }

  function Reported(id: string, exchangeId: string, status: OrderStatus): Report {
    Report("", id, exchangeId, status, 0, None, None, None, None, None, "")
  }

  // ----- one order placed -----

  /** The order once the venue has accepted it. */
  function OpenOrder(q: OrderRequest, exchangeId: string): Order {
    PlacedOrder(NewOrder(q, Risk.Accept, ""), Acceptance(exchangeId))
  }

  function Placed(steps: seq<Step>, q: OrderRequest, exchangeId: string): seq<Step> {
    WholeOperation(steps + [Placing(0, q)], 0, Acceptance(exchangeId))
  }

  lemma CreateIsAccepted(s: State, q: OrderRequest)
    requires q == Create(q.clientOrderId, q.venue, q.symbol) && q.clientOrderId != ""
    requires (q.symbol == SYMBOLS[0] && s.positions == [0, 0]) || q.symbol == UNREGISTERED
    ensures PlaceDecision(TABLE, s, q, false, None, Risk.Accept) == Risk.Accept
  {
    assert |SYMBOLS[0]| == 8 && |SYMBOLS[1]| == 8;
    assert q.symbol in TABLE && TABLE[q.symbol] == ROOM;
    assert PositionOf(s, q.symbol) == 0;
  }

  lemma OpenOrderFacts(q: OrderRequest, exchangeId: string)
    requires exchangeId != ""
    ensures var o := OpenOrder(q, exchangeId);
            && o.clientOrderId == q.clientOrderId && o.venue == q.venue && o.symbol == q.symbol && o.side == q.side
            && o.orderType == q.orderType && o.price == q.price && o.quantity == q.quantity
            && o.exchangeOrderId == exchangeId && o.exchangeOrderIdAliases == {} && o.exchangeClientIdAliases == {}
            && o.status == Live && o.pendingAction == NoAction && o.filledQuantity == 0
            && o.fillOffsets == map[] && o.lastSequence == None
            && o.processedRequests == map[] && o.processedEventIds == {}
  {
    hide Fingerprints.CreateFingerprint;
  }

  /** After a whole accepted create nothing is left but the open order and its index entry. */
  lemma PlacedBooks(steps: seq<Step>, q: OrderRequest, exchangeId: string)
    requires q == Create(q.clientOrderId, q.venue, q.symbol) && q.clientOrderId != "" && exchangeId != ""
    requires var s := After(TABLE, steps);
             && s.threads == map[] && s.active == {} && q.clientOrderId !in s.orders
             && ((q.symbol == SYMBOLS[0] && s.positions == [0, 0]) || q.symbol == UNREGISTERED)
    ensures var s := After(TABLE, steps);
            var s' := After(TABLE, Placed(steps, q, exchangeId));
            && s'.threads == map[]
            && BooksOf(s') == BooksOf(s).(orders := s.orders[q.clientOrderId := OpenOrder(q, exchangeId)],
                                          exchangeIndex := s.exchangeIndex[exchangeId := q.clientOrderId])
  {
    hide After, PlaceDecision, NewOrder, PlacedOrder, WholeOperation;
    var s := After(TABLE, steps);
    CreateIsAccepted(s, q);
    PlacedFacts(TABLE, steps, 0, q);
    var started := steps + [Placing(0, q)];
    WholeOperationFacts(TABLE, started, 0, Acceptance(exchangeId));
    var s1 := After(TABLE, started);
    assert s1.orders[q.clientOrderId := OpenOrder(q, exchangeId)] == s.orders[q.clientOrderId := OpenOrder(q, exchangeId)];
    assert s1.active - {q.clientOrderId} == {};
    assert After(TABLE, Placed(steps, q, exchangeId)).threads.Keys == {};
  }

  // ----- orphaned amends -----

  const REPRICE := AmendRequest(ID_A, FIRST, Some(2), None)
  const ON_BINANCE := Create(ID_A, Binance, UNREGISTERED)
  const AMENDING := Placed([], ON_BINANCE, FIRST) + [DoAmendStart(0, REPRICE, "")]

  lemma AmendIsAccepted(s: State)
    requires ID_A in s.orders && s.orders[ID_A] == OpenOrder(ON_BINANCE, FIRST) && s.active == {}
    ensures AmendDecision(TABLE, s, REPRICE, "") == AmendProceeds
  {
    hide OpenOrder, AmendKey;
    OpenOrderFacts(ON_BINANCE, FIRST);
    assert |SYMBOLS[0]| == 8 && |SYMBOLS[1]| == 8;
    assert TABLE[UNREGISTERED] == ROOM;
  }

  /** The amend is under way: its order is active and pending, and nobody else is at work. */
  lemma AmendUnderWay()
    ensures var s := After(TABLE, AMENDING);
            && s.threads.Keys == {0} && s.threads[0].Prepared? && s.threads[0].op == AmendOp(REPRICE)
            && s.orders == map[ID_A := AmendedPending(OpenOrder(ON_BINANCE, FIRST), REPRICE)]
            && s.active == {ID_A} && s.deferred == map[]
  {
    hide OpenOrder, AmendDecision, AmendedPending, After;
    StartBooks();
    PlacedBooks([], ON_BINANCE, FIRST);
    AmendIsAccepted(After(TABLE, Placed([], ON_BINANCE, FIRST)));
    AmendingFacts(TABLE, Placed([], ON_BINANCE, FIRST), 0, REPRICE);
  }

  lemma StartBooks()
    ensures After(TABLE, []) == Start()
  {
  }

  const TIMEOUT := AdapterResult(false, true, false, "", "", FIRST, FIRST, [])

  /** What an uncertain or unsettled amend leaves of its order, as far as reports are concerned. */
  lemma PendingAfterTimeout(o: Order)
    ensures var y := AmendedOrder(o, REPRICE, TIMEOUT);
            && y.pendingAction == Amend && y.venue == o.venue && y.exchangeOrderId == o.exchangeOrderId
            && y.exchangeOrderIdAliases == o.exchangeOrderIdAliases && y.clientOrderId == o.clientOrderId
  {
    hide AmendKey, AnswerOf;
  }

  lemma PendingFacts(o: Order, a: AmendRequest)
    ensures var y := AmendedPending(o, a);
            && y.pendingAction == Amend && y.venue == o.venue && y.exchangeOrderId == o.exchangeOrderId
            && y.exchangeOrderIdAliases == o.exchangeOrderIdAliases && y.clientOrderId == o.clientOrderId
            && y.fillOffsets == o.fillOffsets && y.filledQuantity == o.filledQuantity && y.status == o.status
  {
    hide AmendKey, Fingerprints.AmendFingerprint;
  }

  /** One thread's amend ends uncertain and its order is orphaned; then the replacement's first report is held back. */
  lemma UncertainAmendOrphans()
    ensures var orphaning := UpToCompletion(AMENDING, 0, TIMEOUT);
            var report := Reported(ID_A, SECOND, Live);
            var s := After(TABLE, orphaning + [DoStreamReport(1, Binance, report)]);
            Orphaned(After(TABLE, orphaning), ID_A) && Orphaned(s, ID_A) && Held(s, ID_A) == [report]
  {
    hide After, OpenOrder, AmendedPending, AmendedOrder, UpToCompletion, ApplyExecution, CompletedExchangeIndex,
         CompletedClientIndex;
    AmendUnderWay();
    var orphaning, report := UpToCompletion(AMENDING, 0, TIMEOUT), Reported(ID_A, SECOND, Live);
    UpToCompletionFacts(TABLE, AMENDING, 0, TIMEOUT);
    var s := After(TABLE, orphaning);
    OpenOrderFacts(ON_BINANCE, FIRST);
    PendingFacts(OpenOrder(ON_BINANCE, FIRST), REPRICE);
    PendingAfterTimeout(AmendedPending(OpenOrder(ON_BINANCE, FIRST), REPRICE));
    assert Orphaned(s, ID_A);
    AfterOneMore(TABLE, orphaning, DoStreamReport(1, Binance, report));
    OrphanHoldsExactly(s, 1, Binance, report, [], ID_A);
  }

  const OWN_END := Reported(ID_A, SECOND, Canceled)
  const REPLACED := AdapterResult(true, false, true, SECOND, "", "", "", [OWN_END])

  lemma PendingAfterReplacement(o: Order)
    requires o.pendingAction == Amend && o.exchangeOrderId == FIRST && o.filledQuantity == 0
    ensures var y := AmendedOrder(o, REPRICE, REPLACED);
            && y.pendingAction == Amend && y.venue == o.venue && y.exchangeOrderId == SECOND && y.clientOrderId == o.clientOrderId
            && y.status == Live
  {
    hide AmendKey, AnswerOf, DriftNote, CancelReplace.WithOffset, CancelReplace.ActualQuantity, CancelReplace.FinalOldQuote;
    assert OWN_END.exchangeOrderId[0] != FIRST[0];
    assert REPLACED.reports[0] == OWN_END && REPLACED.reports[1..] == [];
    assert forall offset :: CancelReplace.FinalOldFill(REPLACED.reports, FIRST, offset, 0) == 0;
  }

  /** An accepted replacement that the venue ended at once: its own report is held back, and the order stays open. */
  lemma AcceptedAmendOrphans()
    ensures var orphaning := UpToCompletion(AMENDING, 0, REPLACED);
            var s := After(TABLE, orphaning + [DoAppend(0)] + [DoApplyNext(0)]);
            && Orphaned(After(TABLE, orphaning), ID_A)
            && Orphaned(s, ID_A) && Held(s, ID_A) == [OWN_END] && s.orders[ID_A].status == Live
  {
    hide After, OpenOrder, AmendedPending, AmendedOrder, UpToCompletion, ApplyExecution, CompletedExchangeIndex,
         CompletedClientIndex;
    AmendUnderWay();
    var orphaning := UpToCompletion(AMENDING, 0, REPLACED);
    UpToCompletionFacts(TABLE, AMENDING, 0, REPLACED);
    OpenOrderFacts(ON_BINANCE, FIRST);
    PendingFacts(OpenOrder(ON_BINANCE, FIRST), REPRICE);
    PendingAfterReplacement(AmendedPending(OpenOrder(ON_BINANCE, FIRST), REPRICE));
    OutcomeAppended(TABLE, orphaning, 0);
    AfterOneMore(TABLE, orphaning + [DoAppend(0)], DoApplyNext(0));
    var s := After(TABLE, orphaning + [DoAppend(0)]);
    assert s.threads[0] == Draining(Binance, [OWN_END]);
    OrphanHoldsExactly(s, 0, Binance, OWN_END, [OWN_END][1..], ID_A);
  }

  // ----- an order reopened by a null query -----

  const REGISTERED := Create(ID_A, Okx, SYMBOLS[0])
  const QUERIED := Placed([], REGISTERED, FIRST) + [DoQueryStart(1, ID_A)]
  const CANCELED_MEANWHILE := QUERIED + [DoStreamReport(2, Okx, Reported(ID_A, FIRST, Canceled))]

  lemma QueryUnderWay()
    ensures var s := After(TABLE, QUERIED);
            s.threads == map[1 := Querying(ID_A)] && s.orders == map[ID_A := OpenOrder(REGISTERED, FIRST)]
  {
    hide OpenOrder, After, Placed, Enter;
    StartBooks();
    PlacedBooks([], REGISTERED, FIRST);
    OpenOrderFacts(REGISTERED, FIRST);
    var steps := Placed([], REGISTERED, FIRST);
    AfterOneMore(TABLE, steps, DoQueryStart(1, ID_A));
    GatewaySafety.EnterFacts(After(TABLE, steps), 1, Querying(ID_A));
  }

  lemma CancelReportMerges(o: Order)
    requires o == OpenOrder(REGISTERED, FIRST)
    ensures var r := Reported(ID_A, FIRST, Canceled);
            && !MustDefer(Okx, o, r) && Machine.Outcome(o, r).disposition != Machine.Invalid
            && ReportedOrder(o, r).status == Canceled && ReportedOrder(o, r).filledQuantity == 0
            && ReportedOrder(o, r).quantity == 2 && ReportedOrder(o, r).symbol == SYMBOLS[0]
  {
    hide OpenOrder, Machine.Merge;
    OpenOrderFacts(REGISTERED, FIRST);
    var r := Reported(ID_A, FIRST, Canceled);
    Machine.ApplyCases(o, r);
    Machine.MergeFacts(o, r);
    Machine.MergeFrame(o, r);
  }

  /** While the venue is asked about an open order, the stream reports its cancellation. */
  lemma CanceledWhileQueried()
    ensures var s := After(TABLE, CANCELED_MEANWHILE);
            && 1 in s.threads && s.threads[1] == Querying(ID_A) && s.orders.Keys == {ID_A}
            && s.orders[ID_A].status == Canceled && s.orders[ID_A].filledQuantity == 0
            && s.orders[ID_A].quantity == 2 && s.orders[ID_A].symbol == SYMBOLS[0]
  {
    hide OpenOrder, After, MergeReport, ReportedOrder, Machine.Outcome, MustDefer;
    QueryUnderWay();
    OpenOrderFacts(REGISTERED, FIRST);
    CancelReportMerges(OpenOrder(REGISTERED, FIRST));
    var r := Reported(ID_A, FIRST, Canceled);
    AfterOneMore(TABLE, QUERIED, DoStreamReport(2, Okx, r));
    MergedOnThread(After(TABLE, QUERIED), 2, ID_A, Okx, r);
  }

  lemma MergedOnThread(s: State, t: nat, id: string, venue: Venue, r: Report)
    requires id in s.orders
    ensures var s' := MergeReport(s, t, id, venue, r, []);
            && t in s'.threads && s'.threads == s.threads[t := s'.threads[t]]
            && s'.orders == s.orders[id := ReportedOrder(s.orders[id], r)]
  {
    hide ReportedOrder, MustPersist, PutReported, Publish, Enter;
    var o := ReportedOrder(s.orders[id], r);
    GatewaySafety.PutReportedFacts(s, id, o, r);
    var s1 := PutReported(s, id, o, r);
    GatewaySafety.PublishedIsSame(s1);
    GatewaySafety.EnterFacts(s1, t, Draining(venue, []));
    GatewaySafety.EnterFacts(Issue(Publish(s1), o), t, Saving(NextRecord(s, o), venue, []));
  }

  /** None of these steps is an answer without a trace. */
  lemma NoNullQueryIsHarmless(steps: seq<Step>)
    requires forall i :: 0 <= i < |steps| ==> !steps[i].DoQueryAnswers?
    ensures PositionsExact(After(TABLE, steps))
  {
    hide After, PositionsExact;
    PositionsFollowOrders(TABLE, steps);
  }

  /**
   The answer "no trace" then finds a canceled order: it is reopened, and the position index no longer
   counts it right.
   */
  lemma NullQueryBreaksPositions()
    ensures var before, s := After(TABLE, CANCELED_MEANWHILE), After(TABLE, CANCELED_MEANWHILE + [DoQueryAnswers(1, None)]);
            && ID_A in before.orders && PositionsExact(before) && before.orders[ID_A].status == Canceled
            && ID_A in s.orders && !PositionsExact(s) && s.orders[ID_A].status == Unknown
  {
    hide After, PositionsExact, Enter;
    CanceledWhileQueried();
    NoNullQueryIsHarmless(CANCELED_MEANWHILE);
    var before := After(TABLE, CANCELED_MEANWHILE);
    AfterOneMore(TABLE, CANCELED_MEANWHILE, DoQueryAnswers(1, None));
    NullQueryKeepsPositionsExactly(before, 1);
    NullAnswerReopens(before, 1);
  }

  lemma NullAnswerReopens(s: State, t: nat)
    requires t in s.threads && s.threads[t].Querying? && s.threads[t].id in s.orders
    ensures var id := s.threads[t].id;
            QueryAnswers(s, t, None).orders == s.orders[id := NullQueried(s.orders[id])]
  {
    hide Enter;
    var id := s.threads[t].id;
    var o := NullQueried(s.orders[id]);
    GatewaySafety.EnterFacts(Issue(s.(orders := s.orders[id := o]), o), t, Saving(NextRecord(s, o), o.venue, []));
  }

  // ----- an order reopened by an outcome -----

  const ENDED := Reported(ID_A, FIRST, Canceled)

  lemma NewOrderEnds()
    ensures var o := NewOrder(REGISTERED, Risk.Accept, "");
            && o.venue == Okx && !MustDefer(Okx, o, ENDED) && Machine.Outcome(o, ENDED).disposition != Machine.Invalid
            && ReportedOrder(o, ENDED).status == Canceled
  {
    hide Fingerprints.CreateFingerprint, Machine.Merge;
    var o := NewOrder(REGISTERED, Risk.Accept, "");
    Machine.ApplyCases(o, ENDED);
    Machine.MergeFacts(o, ENDED);
    Machine.MergeFrame(o, ENDED);
  }

  /** The stream reports the end of an order before its place times out: the outcome opens it again. */
  lemma UncertainPlaceReopens()
    ensures var steps := OUT + [DoStreamReport(1, Okx, ENDED)];
            var before, s := After(TABLE, steps), After(TABLE, FromCall(steps, 0, TIMEOUT));
            && ID_A in before.orders && before.orders[ID_A].status == Canceled
            && ID_A in s.orders && s.orders[ID_A].status == Unknown
  {
    hide After, NewOrder, MergeReport, ReportedOrder, MustDefer, Machine.Outcome, UpToCall, FromCall;
    CreateIsOut();
    NewOrderEnds();
    var steps := OUT + [DoStreamReport(1, Okx, ENDED)];
    AfterOneMore(TABLE, OUT, DoStreamReport(1, Okx, ENDED));
    MergedOnThread(After(TABLE, OUT), 1, ID_A, Okx, ENDED);
    FromCallFacts(TABLE, steps, 0, TIMEOUT);
  }

  const FILLED_MEANWHILE := Report("", ID_A, FIRST, Filled, 2, None, None, None, None, None, "")
  const AMEND_OUT := UpToCall(AMENDING, 0)

  lemma PendingFills()
    ensures var o := AmendedPending(OpenOrder(ON_BINANCE, FIRST), REPRICE);
            && o.venue == Binance && !MustDefer(Binance, o, FILLED_MEANWHILE)
            && Machine.Outcome(o, FILLED_MEANWHILE).disposition != Machine.Invalid
            && ReportedOrder(o, FILLED_MEANWHILE).status == Filled && ReportedOrder(o, FILLED_MEANWHILE).filledQuantity == 2
  {
    hide OpenOrder, AmendKey, Machine.Merge, Fingerprints.AmendFingerprint;
    OpenOrderFacts(ON_BINANCE, FIRST);
    var o := AmendedPending(OpenOrder(ON_BINANCE, FIRST), REPRICE);
    Machine.ApplyCases(o, FILLED_MEANWHILE);
    Machine.MergeFacts(o, FILLED_MEANWHILE);
    Machine.MergeFrame(o, FILLED_MEANWHILE);
  }

  lemma ReplacedFilled(o: Order)
    requires o.filledQuantity == 2
    ensures AmendedOrder(o, REPRICE, REPLACED).status == PartiallyFilled
  {
    hide AmendKey, AnswerOf, DriftNote, CancelReplace.WithOffset, CancelReplace.ActualQuantity, CancelReplace.FinalOldQuote,
         CancelReplace.FinalOldFill;
  }

  /** The stream reports an order filled before its replacement is accepted: the outcome opens it again. */
  lemma ReplacementReopens()
    ensures var steps := AMEND_OUT + [DoStreamReport(1, Binance, FILLED_MEANWHILE)];
            var before, s := After(TABLE, steps), After(TABLE, FromCall(steps, 0, REPLACED));
            && ID_A in before.orders && before.orders[ID_A].status == Filled
            && ID_A in s.orders && s.orders[ID_A].status == PartiallyFilled
  {
    hide After, OpenOrder, AmendedPending, AmendedOrder, MergeReport, ReportedOrder, MustDefer, Machine.Outcome, UpToCall,
         FromCall;
    AmendUnderWay();
    UpToCallFacts(TABLE, AMENDING, 0);
    PendingFills();
    var steps := AMEND_OUT + [DoStreamReport(1, Binance, FILLED_MEANWHILE)];
    AfterOneMore(TABLE, AMEND_OUT, DoStreamReport(1, Binance, FILLED_MEANWHILE));
    MergedOnThread(After(TABLE, AMEND_OUT), 1, ID_A, Binance, FILLED_MEANWHILE);
    ReplacedFilled(After(TABLE, steps).orders[ID_A]);
    FromCallFacts(TABLE, steps, 0, REPLACED);
  }

  // ----- an order reopened by a restart -----

  const OTHER_OUT := UpToCall([] + [Placing(0, OTHER)], 0)
  const OTHER_ENDS := Reported(ID_B, FIRST, Canceled)
  const CANCELED_UNJOURNALED := OTHER_OUT + [DoStreamReport(1, Okx, OTHER_ENDS)]

  lemma OtherOrderEnds()
    ensures var o := NewOrder(OTHER, Risk.Accept, "");
            && o.venue == Okx && o.clientOrderId == ID_B && o.status == Unknown
            && !MustDefer(Okx, o, OTHER_ENDS) && Machine.Outcome(o, OTHER_ENDS).disposition != Machine.Invalid
            && ReportedOrder(o, OTHER_ENDS).status == Canceled
  {
    hide Fingerprints.CreateFingerprint, Machine.Merge;
    var o := NewOrder(OTHER, Risk.Accept, "");
    Machine.ApplyCases(o, OTHER_ENDS);
    Machine.MergeFacts(o, OTHER_ENDS);
    Machine.MergeFrame(o, OTHER_ENDS);
  }

  lemma OtherIsOut()
    ensures var s, o := After(TABLE, OTHER_OUT), NewOrder(OTHER, Risk.Accept, "");
            && s.orders == map[ID_B := o] && s.threads.Keys == {0}
            && s.file == File([Snapshot(Record(1, o))], Clean)
  {
    hide After, UpToCall, NewOrder, PlaceDecision;
    StartBooks();
    CreateIsAccepted(Start(), OTHER);
    PlacedFacts(TABLE, [], 0, OTHER);
    UpToCallFacts(TABLE, [] + [Placing(0, OTHER)], 0);
    SendingFacts([], OTHER);
  }

  lemma MergeKeepsFile(s: State, t: nat, id: string, venue: Venue, r: Report)
    requires id in s.orders
    ensures MergeReport(s, t, id, venue, r, []).file == s.file
  {
    hide ReportedOrder, MustPersist, PutReported, Publish;
    var o := ReportedOrder(s.orders[id], r);
    PutReportedKeepsFile(s, id, o, r);
    GatewaySafety.PublishedIsSame(PutReported(s, id, o, r));
  }

  lemma PutReportedKeepsFile(s: State, id: string, o: Order, r: Report)
    ensures PutReported(s, id, o, r).file == s.file
  {
    hide Put, Indexed;
    GatewaySafety.PutFacts(s, id, o);
  }

  lemma OneRecordFound(o: Order)
    requires o.clientOrderId == ID_B
    ensures Snapshots([Snapshot(Record(1, o))]) == [Record(1, o)]
    ensures RecoveredOrders([Record(1, o)]) == map[ID_B := o] && Lists([o], map[ID_B := o])
  {
    var entry, record := Snapshot(Record(1, o)), Record(1, o);
    assert [entry][..0] == [] && [record][..0] == [];
    assert Latest([record]) == map[ID_B := record];
    assert [o][0].clientOrderId == ID_B;
  }

  lemma CanceledButUnjournaled()
    ensures var s := After(TABLE, CANCELED_UNJOURNALED);
            && ID_B in s.orders && s.orders[ID_B].status == Canceled
            && s.file == File([Snapshot(Record(1, NewOrder(OTHER, Risk.Accept, "")))], Clean)
  {
    hide After, UpToCall, NewOrder, MergeReport, ReportedOrder, MustDefer, Machine.Outcome;
    OtherIsOut();
    OtherOrderEnds();
    AfterOneMore(TABLE, OTHER_OUT, DoStreamReport(1, Okx, OTHER_ENDS));
    MergedOnThread(After(TABLE, OTHER_OUT), 1, ID_B, Okx, OTHER_ENDS);
    MergeKeepsFile(After(TABLE, OTHER_OUT), 1, ID_B, Okx, OTHER_ENDS);
  }

  lemma RestartFromOne(s: State, o: Order)
    requires s.file == File([Snapshot(Record(1, o))], Clean) && o.clientOrderId == ID_B
    ensures Crash(s, [o], 0).orders == map[ID_B := o]
  {
    hide RebuiltExchangeIndex, RebuiltClientIndex, RebuiltPositions, RecoveredOrders, Snapshots, Lists;
    OneRecordFound(o);
  }

  /**
   The stream reports an order canceled, and the process stops before that is journaled: the restart
   opens it again.
   */
  lemma RestartReopens()
    ensures var list := [NewOrder(OTHER, Risk.Accept, "")];
            var before, s := After(TABLE, CANCELED_UNJOURNALED), After(TABLE, CANCELED_UNJOURNALED + [DoCrash(list, 0)]);
            && ID_B in before.orders && before.orders[ID_B].status == Canceled
            && ID_B in s.orders && s.orders[ID_B].status == Unknown
  {
    hide After, NewOrder, Crash, Machine.Outcome, MustDefer;
    var o := NewOrder(OTHER, Risk.Accept, "");
    CanceledButUnjournaled();
    OtherOrderEnds();
    AfterOneMore(TABLE, CANCELED_UNJOURNALED, DoCrash([o], 0));
    RestartFromOne(After(TABLE, CANCELED_UNJOURNALED), o);
  }

  // ----- a symbol outside the registry -----

  /** A second order of the same kind is let through, although both together exceed the limit. */
  lemma UnregisteredSymbolExceedsLimit()
    ensures var q := Create(ID_B, Okx, UNREGISTERED);
            var s := After(TABLE, Placed([], Create(ID_A, Okx, UNREGISTERED), FIRST));
            && PlaceDecision(TABLE, s, q, false, None, Risk.Accept) == Risk.Accept
            && ID_A in s.orders && Lists([s.orders[ID_A]], s.orders)
            && Risk.CheckNewWithPosition(TABLE, q, ListExposure([s.orders[ID_A]], UNREGISTERED), None)
               == Risk.Reject(Risk.PositionLimit)
  {
    hide OpenOrder, After, Placed, PlaceDecision;
    StartBooks();
    var first, q := Create(ID_A, Okx, UNREGISTERED), Create(ID_B, Okx, UNREGISTERED);
    PlacedBooks([], first, FIRST);
    var s := After(TABLE, Placed([], first, FIRST));
    CreateIsAccepted(s, q);
    OpenOrderFacts(first, FIRST);
    var list := [s.orders[ID_A]];
    assert list[..0] == [] && list[0].clientOrderId == ID_A;
    assert ListExposure(list, UNREGISTERED) == 2;
    assert TABLE[UNREGISTERED] == ROOM;
  }

  // ----- venue ids that lead nowhere -----

  const REFUSED := AdapterResult(false, false, false, SECOND, "", FIRST, FIRST, [])

  lemma CreateUnderWay()
    ensures var s := After(TABLE, [Placing(0, REGISTERED)]);
            && s.threads.Keys == {0} && s.threads[0].Prepared? && s.threads[0].op == PlaceOp(REGISTERED)
            && s.orders == map[ID_A := NewOrder(REGISTERED, Risk.Accept, "")] && s.exchangeIndex == map[]
  {
    hide After, PlaceDecision, NewOrder;
    StartBooks();
    CreateIsAccepted(Start(), REGISTERED);
    PlacedFacts(TABLE, [], 0, REGISTERED);
    assert [] + [Placing(0, REGISTERED)] == [Placing(0, REGISTERED)];
  }

  /** A rejected place brings a venue id: its order has it, and a report under it is not found. */
  lemma RejectedPlaceLeavesGap()
    ensures var s := After(TABLE, UpToCompletion([Placing(0, REGISTERED)], 0, REFUSED));
            && s.orders.Keys == {ID_A} && s.orders[ID_A].exchangeOrderId == SECOND && !IdsIndexed(s)
            && Locate(s, Okx, Reported("", SECOND, Canceled)) == None
  {
    hide After, UpToCompletion, NewOrder, PlacedOrder;
    CreateUnderWay();
    UpToCompletionFacts(TABLE, [Placing(0, REGISTERED)], 0, REFUSED);
    RefusedOrder();
    assert OwnsExchangeId(PlacedOrder(NewOrder(REGISTERED, Risk.Accept, ""), REFUSED), SECOND);
  }

  lemma RefusedOrder()
    ensures PlacedOrder(NewOrder(REGISTERED, Risk.Accept, ""), REFUSED).exchangeOrderId == SECOND
  {
    hide Fingerprints.CreateFingerprint, Machine.Merge, PlaceRejectionId;
    var o := NewOrder(REGISTERED, Risk.Accept, "");
    PlaceRejectionIds(o, REFUSED);
    PlaceRejectionAccepted(o, REFUSED);
  }

  /** Two venues gave their orders the same id: a report of the first venue under it finds no order. */
  lemma SharedIdLosesReport()
    ensures var s := After(TABLE, Placed(Placed([], Create(ID_A, Okx, UNREGISTERED), FIRST),
                                         Create(ID_B, Binance, UNREGISTERED), FIRST));
            && s.orders.Keys == {ID_A, ID_B} && s.orders[ID_A].venue == Okx && s.orders[ID_A].exchangeOrderId == FIRST
            && Locate(s, Okx, Reported("", FIRST, Filled)) == None
  {
    hide OpenOrder, After, Placed;
    StartBooks();
    var first, second := Create(ID_A, Okx, UNREGISTERED), Create(ID_B, Binance, UNREGISTERED);
    assert ID_A[0] != ID_B[0];
    PlacedBooks([], first, FIRST);
    PlacedBooks(Placed([], first, FIRST), second, FIRST);
    OpenOrderFacts(first, FIRST);
    OpenOrderFacts(second, FIRST);
  }

  const EARLY := Reported(ID_A, FIRST, Live)
  const OUT := UpToCall([Placing(0, REGISTERED)], 0)
  const REPORTED_EARLY := OUT + [DoStreamReport(1, Okx, EARLY)]

  lemma EarlyReportMerges(o: Order)
    requires o == NewOrder(REGISTERED, Risk.Accept, "")
    ensures o.venue == Okx && !MustDefer(Okx, o, EARLY) && Machine.Outcome(o, EARLY).disposition != Machine.Invalid
    ensures var y := ReportedOrder(o, EARLY);
            y.exchangeOrderId == FIRST && y.exchangeOrderIdAliases == {}
  {
    hide Fingerprints.CreateFingerprint, Machine.Merge;
    Machine.ApplyCases(o, EARLY);
    Machine.MergeFacts(o, EARLY);
    Machine.MergeFrame(o, EARLY);
  }

  lemma ReportedBeforeAnswer()
    ensures var s := After(TABLE, REPORTED_EARLY);
            && 0 in s.threads && s.threads[0] == InFlight(PlaceOp(REGISTERED)) && s.orders.Keys == {ID_A}
            && s.orders[ID_A].exchangeOrderId == FIRST && s.orders[ID_A].exchangeOrderIdAliases == {}
            && s.exchangeIndex == map[FIRST := ID_A]
  {
    hide After, NewOrder, MergeReport, ReportedOrder, MustDefer, Machine.Outcome, UpToCall;
    CreateIsOut();
    var placed := After(TABLE, OUT);
    AfterOneMore(TABLE, OUT, DoStreamReport(1, Okx, EARLY));
    EarlyReportMerges(placed.orders[ID_A]);
    MergedOnThread(placed, 1, ID_A, Okx, EARLY);
    ReportStores(placed, 1, ID_A, Okx, EARLY, []);
  }

  lemma CreateIsOut()
    ensures var s := After(TABLE, OUT);
            && s.threads == map[0 := InFlight(PlaceOp(REGISTERED))]
            && s.orders == map[ID_A := NewOrder(REGISTERED, Risk.Accept, "")] && s.exchangeIndex == map[]
  {
    hide After, UpToCall, NewOrder;
    CreateUnderWay();
    UpToCallFacts(TABLE, [Placing(0, REGISTERED)], 0);
  }

  lemma AcceptedId(o: Order)
    ensures var y := PlacedOrder(o, Acceptance(SECOND));
            y.exchangeOrderId == SECOND && y.exchangeOrderIdAliases == o.exchangeOrderIdAliases
  {
  }

  /**
   A report that overtakes the answer brings a venue id; an answer with another id leaves it leading to
   an order without it.
   */
  lemma OvertakenAnswerDropsId()
    ensures var s := After(TABLE, FromCall(REPORTED_EARLY, 0, Acceptance(SECOND)));
            && FIRST in s.exchangeIndex && s.exchangeIndex[FIRST] == ID_A && ID_A in s.orders
            && !NamedByVenue(s.orders[ID_A], FIRST) && !EntriesOwned(s)
  {
    hide After, FromCall, UpToCall, PlacedOrder;
    ReportedBeforeAnswer();
    FromCallFacts(TABLE, REPORTED_EARLY, 0, Acceptance(SECOND));
    AcceptedId(After(TABLE, REPORTED_EARLY).orders[ID_A]);
    assert FIRST[0] != SECOND[0];
  }

  // ----- a stranded order -----

  /** The very first intent cannot be appended: its order is known and busy, and nothing was sent or journaled. */
  lemma FailedAppendStrands()
    ensures var s := After(TABLE, [Placing(0, REGISTERED)] + [DoAppendFails(0, Nothing)]);
            Stranded(s, ID_A) && s.calls == [] && s.journal == []
  {
    hide After, PlaceDecision, AppendFails, PlaceStart, CancelDecision, ReplyToRepeat, Stranded, NewOrder, GatewaySafety.Safe;
    StartBooks();
    CreateIsAccepted(Start(), REGISTERED);
    StartIsSafe();
    AfterOneMore(TABLE, [], Placing(0, REGISTERED));
    assert [] + [Placing(0, REGISTERED)] == [Placing(0, REGISTERED)];
    AfterOneMore(TABLE, [Placing(0, REGISTERED)], DoAppendFails(0, Nothing));
    FailedPlaceIsRemembered(TABLE, Start(), 0, REGISTERED, false, None, Risk.Accept, "", "", CancelRequest(ID_A, ""), Nothing);
  }

  lemma StartIsSafe()
    ensures GatewaySafety.Safe(Start())
  {
    hide GatewaySafety.Safe, Exec;
    StartBooks();
    GatewaySafety.EveryRunIsSafe(TABLE, []);
  }

  // ----- an order sent twice -----

  const OTHER := Create(ID_B, Okx, UNREGISTERED)
  const BROKEN := [Placing(0, Create(ID_A, Okx, UNREGISTERED))] + [DoAppendFails(0, Part)]
  const SENT := UpToCall(BROKEN + [Placing(0, OTHER)], 0)
  const RESTARTED := SENT + [DoCrash([], 0)]
  const SENT_AGAIN := UpToCall(RESTARTED + [Placing(0, OTHER)], 0)

  /** What three steps of an idle thread do to the calls and to the file. */
  lemma SendingFacts(steps: seq<Step>, q: OrderRequest)
    requires q == Create(q.clientOrderId, q.venue, UNREGISTERED) && q.clientOrderId != ""
    requires 0 !in After(TABLE, steps).threads && q.clientOrderId !in After(TABLE, steps).orders
    ensures var s := After(TABLE, steps);
            var s' := After(TABLE, UpToCall(steps + [Placing(0, q)], 0));
            && s'.calls == s.calls + [PlaceOp(q)]
            && s'.file == Written(s.file, Snapshot(NextRecord(s, NewOrder(q, Risk.Accept, ""))), Everything)
  {
    hide After, PlaceDecision, NewOrder, PlaceStart, Append, CallVenue, Written;
    var s := After(TABLE, steps);
    CreateIsAccepted(s, q);
    AfterOneMore(TABLE, steps, Placing(0, q));
    AfterOneMore(TABLE, steps + [Placing(0, q)], DoAppend(0));
    AfterOneMore(TABLE, steps + [Placing(0, q)] + [DoAppend(0)], DoCallVenue(0));
    UndisturbedPlaceIsSent(TABLE, s, 0, q, false, None, Risk.Accept, "");
    SendingFiles(s, q);
  }

  lemma SendingFiles(s: State, q: OrderRequest)
    requires 0 !in s.threads && q.clientOrderId !in s.orders && PlaceDecision(TABLE, s, q, false, None, Risk.Accept) == Risk.Accept
    ensures CallVenue(Append(PlaceStart(TABLE, s, 0, q, false, None, Risk.Accept, ""), 0), 0).file
            == Written(s.file, Snapshot(NextRecord(s, NewOrder(q, Risk.Accept, ""))), Everything)
  {
    hide PlaceDecision, NewOrder, Put, Publish, Enter, Written;
    var o := NewOrder(q, Risk.Accept, "");
    var put := Put(s, q.clientOrderId, o);
    GatewaySafety.PutFacts(s, q.clientOrderId, o);
    GatewaySafety.PublishedIsSame(put);
    var issued := Issue(Publish(put), o);
    GatewaySafety.EnterFacts(issued.(active := issued.active + {q.clientOrderId}), 0, Prepared(PlaceOp(q), NextRecord(s, o)));
    var s1 := PlaceStart(TABLE, s, 0, q, false, None, Risk.Accept, "");
    GatewaySafety.EnterFacts(Filed(s1, NextRecord(s, o)), 0, Recorded(PlaceOp(q)));
    var s2 := Append(s1, 0);
    GatewaySafety.EnterFacts(s2.(calls := s2.calls + [PlaceOp(q)]), 0, InFlight(PlaceOp(q)));
  }

  /** The first order's intent breaks off: the file ends in part of a record. */
  lemma FirstIntentBreaks()
    ensures var s := After(TABLE, BROKEN);
            s.threads == map[] && s.calls == [] && s.orders.Keys == {ID_A} && s.file == File([], Torn)
  {
    hide After, PlaceDecision, NewOrder, PlaceStart;
    var q := Create(ID_A, Okx, UNREGISTERED);
    StartBooks();
    CreateIsAccepted(Start(), q);
    AfterOneMore(TABLE, [], Placing(0, q));
    assert [] + [Placing(0, q)] == [Placing(0, q)];
    AfterOneMore(TABLE, [Placing(0, q)], DoAppendFails(0, Part));
    AcceptedPlace(TABLE, Start(), 0, q, false, None, Risk.Accept, "");
    PlaceKeepsFile(Start(), 0, q);
    var s1 := After(TABLE, [Placing(0, q)]);
    assert AppendFails(s1, 0, Part).threads == s1.threads - {0} == map[];
  }

  lemma PlaceKeepsFile(s: State, t: nat, q: OrderRequest)
    ensures PlaceStart(TABLE, s, t, q, false, None, Risk.Accept, "").file == s.file
  {
    hide PlaceDecision, NewOrder, Admit;
    var decision := PlaceDecision(TABLE, s, q, false, None, Risk.Accept);
    AdmitKeepsFile(s, t, q, NewOrder(q, decision, ""), decision == Risk.Accept);
  }

  lemma AdmitKeepsFile(s: State, t: nat, q: OrderRequest, o: Order, admitted: bool)
    ensures Admit(s, t, q, o, admitted).file == s.file
  {
    hide Put, Publish;
    GatewaySafety.PutFacts(s, q.clientOrderId, o);
    GatewaySafety.PublishedIsSame(Put(s, q.clientOrderId, o));
  }

  /** The second order is appended and sent, but a restart now finds neither of the two. */
  lemma SecondIntentIsSwallowed()
    ensures var s := After(TABLE, SENT);
            && s.calls == [PlaceOp(OTHER)] && Swallows(s) && Survivors(s) == []
            && After(TABLE, RESTARTED).calls == s.calls && After(TABLE, RESTARTED).orders == map[]
            && After(TABLE, RESTARTED).threads == map[]
  {
    hide After, UpToCall, NewOrder;
    FirstIntentBreaks();
    assert ID_A[0] != ID_B[0];
    SendingFacts(BROKEN, OTHER);
    AfterOneMore(TABLE, SENT, DoCrash([], 0));
    NothingFound();
  }

  lemma NothingFound()
    ensures RecoveredOrders([]) == map[] && Lists([], map[])
  {
  }

  /**
   One append breaks off after any part of its record, the next order's intent is appended and the order
   sent, and the process stops before anything else is written: after the restart the same create is sent
   again.
   */
  lemma BrokenAppendSendsTwice()
    ensures After(TABLE, SENT_AGAIN).calls == [PlaceOp(OTHER), PlaceOp(OTHER)]
    ensures Forgets(After(TABLE, SENT), DoCrash([], 0), Target(PlaceOp(OTHER)))
  {
    hide After, UpToCall, NewOrder, GatewayHistory.Carries;
    SecondIntentIsSwallowed();
    SendingFacts(RESTARTED, OTHER);
    SwallowedCarries();
    NothingFound();
  }

  lemma SwallowedCarries()
    ensures var s := After(TABLE, SENT);
            Swallows(s) && GatewayHistory.Carries(s.file.end.record.record.order, PlaceOp(OTHER)) && s.file.lines == []
  {
    hide After, UpToCall, Fingerprints.CreateFingerprint;
    FirstIntentBreaks();
    assert ID_A[0] != ID_B[0];
    SendingFacts(BROKEN, OTHER);
  }
}
