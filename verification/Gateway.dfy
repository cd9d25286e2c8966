/**
 The order gateway as a transition system. Each section the gateway runs under its mutex is one
 step; appending a journal record, calling the venue, receiving its answer and a process crash
 are separate steps, so any number of threads interleave between them. A step that does not apply
 leaves the state alone, which makes every sequence of steps a run.
 */
module Gateway {
  import opened Wrappers
  import opened Orders
  import opened Recovery
  import opened Positions
  import opened JournalEnds
  import Fingerprints
  import Outcomes
  import Risk
  import Machine = OrderStateMachine
  import CancelReplace
  import Decimals

  // ----- what flows between a gateway thread and the venue -----

  datatype AdapterResult = AdapterResult(
    accepted: bool,
    outcomeUncertain: bool,
    replacement: bool,
    exchangeOrderId: string,
    exchangeClientOrderId: string,
    code: string,
    message: string,
    reports: seq<Report>
  )

  datatype Operation =
    | PlaceOp(request: OrderRequest)
    | CancelOp(cancel: CancelRequest)
    | AmendOp(amend: AmendRequest)

  function IdOfOp(op: Operation): string {
    match op
    case PlaceOp(q) => q.clientOrderId
    case CancelOp(q) => q.clientOrderId
    case AmendOp(q) => q.clientOrderId
  }

  function CancelKey(q: CancelRequest): string {
    "CANCEL:" + if q.requestId == "" then "cancel:" + q.clientOrderId else q.requestId
  }

  /** The request id of an amend is the caller's, or one derived from its content beforehand. */
  function AmendKey(q: AmendRequest): string {
    "AMEND:" + q.requestId
  }

  /** The idempotency key of a request; a place is keyed by its order alone. */
  function KeyOf(op: Operation): string {
    match op
    case PlaceOp(_) => ""
    case CancelOp(q) => CancelKey(q)
    case AmendOp(q) => AmendKey(q)
  }

  function FingerprintOf(op: Operation): string {
    match op
    case PlaceOp(q) => Fingerprints.CreateFingerprint(q)
    case CancelOp(q) => Fingerprints.CancelFingerprint(q)
    case AmendOp(q) => Fingerprints.AmendFingerprint(q)
  }

  // ----- threads -----

  /** How far a gateway thread has come. A thread without a stage is idle. */
  datatype Stage =
    | Prepared(op: Operation, record: Record)      // intent made under the lock, not yet appended
    | Recorded(op: Operation)                      // intent appended, venue not yet called
    | InFlight(op: Operation)                      // the venue call is out
    | Answered(op: Operation, result: AdapterResult)
    | Finishing(op: Operation, record: Record, answer: Outcomes.Answer, reports: seq<Report>)
    | Draining(venue: Venue, reports: seq<Report>) // reports this thread still has to apply
    | Saving(record: Record, venue: Venue, reports: seq<Report>)
    | Querying(id: string)                         // reconciliation is asking the venue about an order

  predicate Holds(stage: Stage) {
    stage.Prepared? || stage.Recorded? || stage.InFlight? || stage.Answered?
  }

  // ----- the journal file -----

  /** What a line of the journal holds; the text of operational events is not looked at. */
  datatype Entry = Snapshot(record: Record) | Event

  function Snapshots(entries: seq<Entry>): seq<Record> {
    if entries == [] then []
    else
      var before, last := Snapshots(entries[..|entries| - 1]), entries[|entries| - 1];
      if last.Snapshot? then before + [last.record] else before
  }

  // ----- the whole system -----

  datatype State = State(
    orders: map<string, Order>,
    exchangeIndex: map<string, string>,
    clientIndex: map<string, string>,
    active: set<string>,
    positions: seq<int>,
    snapshot: seq<int>,
    dirty: bool,
    deferred: map<string, seq<Report>>,
    journal: seq<Record>,                               // every record whose append succeeded and no restart lost
    file: File<Entry>,                                  // the journal file itself
    nextSequence: nat,
    threads: map<nat, Stage>,
    calls: seq<Operation>,                              // every call that reached the venue, ever
    issued: set<Record>,                                // every record made and not lost in a crash
    answered: map<Operation, Outcomes.Answer>           // what cancel and amend callers were told
  )

  const SYMBOLS := ["BTC-USDT", "ETH-USDT"]

  function Slot(symbol: string): Option<nat>
    ensures Slot(symbol).Some? ==> Slot(symbol).value < 2
  {
    if symbol == SYMBOLS[0] then Some(0) else if symbol == SYMBOLS[1] then Some(1) else None
  }

  function Start(): State {
    State(map[], map[], map[], {}, [0, 0], [0, 0], false, map[], [], File([], Clean), 1, map[], [], {}, map[])
  }

  // ----- positions -----

  function Adjusted(positions: seq<int>, symbol: string, delta: int): (r: seq<int>)
    ensures |r| == |positions|
  {
    match Slot(symbol)
    case Some(k) => if k < |positions| then positions[k := positions[k] + delta] else positions
    case None => positions
  }

  /** Position the risk checks use: the index slot, or zero for a symbol outside the registry. */
  function PositionOf(s: State, symbol: string): int {
    match Slot(symbol)
    case Some(k) => if k < |s.positions| then s.positions[k] else 0
    case None => 0
  }

  function PositionWithout(s: State, o: Order): int {
    PositionOf(s, o.symbol) - Contribution(o)
  }

  function Publish(s: State): State {
    if s.dirty then s.(snapshot := s.positions, dirty := false) else s
  }

  /** Stores an order and moves the position index by the change of its contribution. */
  function Put(s: State, id: string, o: Order): State {
    var previous := if id in s.orders then Contribution(s.orders[id]) else 0;
    s.(orders := s.orders[id := o], positions := Adjusted(s.positions, o.symbol, Contribution(o) - previous), dirty := true)
  }

  /** Snapshots an order under the next sequence number. */
  function Issue(s: State, o: Order): State {
    s.(nextSequence := s.nextSequence + 1, issued := s.issued + {Record(s.nextSequence, o)})
  }

  function NextRecord(s: State, o: Order): Record {
    Record(s.nextSequence, o)
  }

  function Enter(s: State, t: nat, stage: Stage): State {
    s.(threads := s.threads[t := stage])
  }

  function Leave(s: State, t: nat): State {
    s.(threads := s.threads - {t})
  }

  // ----- place -----

  datatype PlaceReply = ReplayedRejection(reason: string) | ReplayedUnknown(reason: string) | ReplayedOrder | Conflict

  /** The idempotency check that place makes before and again inside its first locked section. */
  function ReplyToRepeat(o: Order, q: OrderRequest, legacy: string): PlaceReply {
    if !Fingerprints.CreateMatches(o.createFingerprint, q, legacy) then Conflict
    else if o.status == Rejected then ReplayedRejection(o.rejectionReason)
    else if o.status == Unknown && o.pendingAction == Reconcile then ReplayedUnknown(o.rejectionReason)
    else ReplayedOrder
  }

  function PlaceDecision(table: Risk.LimitTable, s: State, q: OrderRequest, marketData: bool, marketPrice: Option<int>,
                         preflight: Risk.Decision): Risk.Decision
  {
    var risk := if q.orderType == Market && marketData && marketPrice.None? then Risk.Reject(Risk.MarketDataUnavailable)
                else Risk.CheckNewWithPosition(table, q, PositionOf(s, q.symbol), marketPrice);
    if risk == Risk.Accept then preflight else risk
  }

  function NewOrder(q: OrderRequest, decision: Risk.Decision, reason: string): Order {
    var o := MakeOrder(q, Fingerprints.CreateFingerprint(q));
    if decision == Risk.Accept then o
    else o.(status := Rejected, pendingAction := NoAction, rejectionReason := reason, version := o.version + 1)
  }

  /** Stores a new order; an admitted one becomes an active operation of the thread. */
  function Admit(s: State, t: nat, q: OrderRequest, o: Order, admitted: bool): State {
    var s1 := Issue(Publish(Put(s, q.clientOrderId, o)), o);
    if admitted then Enter(s1.(active := s1.active + {q.clientOrderId}), t, Prepared(PlaceOp(q), NextRecord(s, o)))
    else Enter(s1, t, Saving(NextRecord(s, o), q.venue, []))
  }

  function PlaceStart(table: Risk.LimitTable, s: State, t: nat, q: OrderRequest, marketData: bool,
                      marketPrice: Option<int>, preflight: Risk.Decision, reason: string): State
  {
    if t in s.threads || q.clientOrderId in s.orders then s
    else
      var decision := PlaceDecision(table, s, q, marketData, marketPrice, preflight);
      Admit(s, t, q, NewOrder(q, decision, reason), decision == Risk.Accept)
  }

  function PlaceRejectionId(o: Order): string {
    "place-reject-" + o.clientOrderId + "-" + Decimals.Digits(o.version)
  }

  function PlaceRejection(o: Order, result: AdapterResult): Report {
    Report(PlaceRejectionId(o), o.clientOrderId, result.exchangeOrderId, Rejected, o.filledQuantity, None, None, None,
           None, None, result.code + ": " + result.message)
  }

  /** The order after the venue answered a place. */
  function PlacedOrder(o: Order, result: AdapterResult): Order {
    if result.accepted then
      o.(exchangeOrderId := if result.exchangeOrderId != "" then result.exchangeOrderId else o.exchangeOrderId,
         exchangeClientIdAliases := if result.exchangeClientOrderId != ""
                                    then o.exchangeClientIdAliases + {result.exchangeClientOrderId}
                                    else o.exchangeClientIdAliases,
         status := if o.status == Unknown then Live else o.status,
         pendingAction := NoAction,
         version := o.version + 1)
    else if result.outcomeUncertain then
      o.(status := Unknown, pendingAction := Reconcile, rejectionReason := result.message, version := o.version + 1)
    else Machine.ApplyReport(o, PlaceRejection(o, result))
  }

  // ----- cancel -----

  datatype CancelGate =
    | CancelUnknownOrder
    | CancelConflict
    | CancelReplayed(response: Outcomes.Response)
    | AlreadyCanceled
    | CancelTerminal
    | CancelBusy
    | CancelProceeds

  function StoredOutcome(o: Order, key: string): string {
    if key in o.processedRequestOutcomes then o.processedRequestOutcomes[key] else ""
  }

  function CancelDecision(s: State, q: CancelRequest): CancelGate {
    if q.clientOrderId !in s.orders then CancelUnknownOrder
    else
      var o, key := s.orders[q.clientOrderId], CancelKey(q);
      if key in o.processedRequests then
        if Fingerprints.CancelMatches(o.processedRequests[key], q)
        then CancelReplayed(Outcomes.Replay(StoredOutcome(o, key)))
        else CancelConflict
      else if o.status == Canceled then AlreadyCanceled
      else if IsTerminal(o.status) then CancelTerminal
      else if o.clientOrderId in s.active || o.pendingAction != NoAction then CancelBusy
      else CancelProceeds
  }

  function WithRequest(o: Order, key: string, fingerprint: string): Order {
    o.(processedRequests := o.processedRequests[key := fingerprint],
       processedRequestOutcomes := o.processedRequestOutcomes[key := Outcomes.PENDING_MARK],
       version := o.version + 1)
  }

  function CancelStart(s: State, t: nat, q: CancelRequest): State {
    if t in s.threads || CancelDecision(s, q) != CancelProceeds then s
    else
      var id := q.clientOrderId;
      var o := WithRequest(s.orders[id], CancelKey(q), Fingerprints.CancelFingerprint(q)).(pendingAction := Cancel);
      var s1 := Issue(Publish(s.(orders := s.orders[id := o], active := s.active + {id})), o);
      Enter(s1, t, Prepared(CancelOp(q), NextRecord(s, o)))
  }

  function AnswerOf(result: AdapterResult): Outcomes.Answer {
    if result.accepted then Outcomes.Accepted
    else if result.outcomeUncertain then Outcomes.Uncertain(result.code, result.message)
    else Outcomes.Failed(result.code, result.message)
  }

  function WithOutcome(o: Order, key: string, result: AdapterResult): Order {
    o.(processedRequestOutcomes := o.processedRequestOutcomes[key := Outcomes.Encode(AnswerOf(result))],
       version := o.version + 1)
  }

  function CanceledOrder(o: Order, key: string, result: AdapterResult): Order {
    var o1 := WithOutcome(o, key, result);
    if result.accepted then o1.(rejectionReason := "")
    else o1.(pendingAction := if result.outcomeUncertain then Cancel else NoAction,
             status := if result.outcomeUncertain then Unknown else o.status,
             rejectionReason := result.message)
  }

  // ----- amend -----

  datatype AmendGate =
    | AmendUnknownOrder
    | AmendConflict
    | AmendReplayed(response: Outcomes.Response)
    | AmendBusy
    | AmendRefused(code: Risk.Code)
    | AmendProceeds

  function AmendDecision(table: Risk.LimitTable, s: State, q: AmendRequest, legacy: string): AmendGate {
    if q.clientOrderId !in s.orders then AmendUnknownOrder
    else
      var o, key := s.orders[q.clientOrderId], AmendKey(q);
      if key in o.processedRequests then
        if Fingerprints.AmendMatches(o.processedRequests[key], q, legacy)
        then AmendReplayed(Outcomes.Replay(StoredOutcome(o, key)))
        else AmendConflict
      else if o.clientOrderId in s.active then AmendBusy
      else
        match Risk.CheckAmendWithPosition(table, o, q.newPrice, q.newQuantity, PositionWithout(s, o))
        case Accept => AmendProceeds
        case Reject(code) => AmendRefused(code)
  }

  function AmendStart(table: Risk.LimitTable, s: State, t: nat, q: AmendRequest, legacy: string): State {
    if t in s.threads || AmendDecision(table, s, q, legacy) != AmendProceeds then s
    else
      var id := q.clientOrderId;
      var o := WithRequest(s.orders[id], AmendKey(q), Fingerprints.AmendFingerprint(q))
               .(pendingAction := Amend, pendingAmendPrice := q.newPrice, pendingAmendQuantity := q.newQuantity);
      var s1 := Issue(Publish(s.(orders := s.orders[id := o], active := s.active + {id})), o);
      Enter(s1, t, Prepared(AmendOp(q), NextRecord(s, o)))
  }

  /** The note an accepted replacement leaves when a confirmed total is not the requested one. */
  function DriftNote(reports: seq<Report>, newId: string, oldFill: int, requested: int): string {
    if exists i :: 0 <= i < |reports| && reports[i].exchangeOrderId == newId && reports[i].orderQuantity.Some?
                   && reports[i].status != Canceled && oldFill + reports[i].orderQuantity.value != requested
    then "replacement quantity drift" else ""
  }

  function AmendedOrder(o: Order, q: AmendRequest, result: AdapterResult): Order {
    var o1 := WithOutcome(o, AmendKey(q), result);
    if result.accepted then
      var o2 := if result.replacement then CancelReplace.Replace(o1, result.exchangeOrderId, result.reports) else o1;
      var requested := if q.newQuantity.Some? then q.newQuantity.value else o.quantity;
      o2.(exchangeClientIdAliases := if result.exchangeClientOrderId != ""
                                     then o.exchangeClientIdAliases + {result.exchangeClientOrderId}
                                     else o.exchangeClientIdAliases,
          rejectionReason := if result.replacement
                             then DriftNote(result.reports, result.exchangeOrderId, o2.filledQuantity, requested)
                             else "")
    else if result.outcomeUncertain then
      o1.(pendingAction := Amend, status := Unknown, rejectionReason := result.message)
    else
      o1.(pendingAction := NoAction, pendingAmendPrice := None, pendingAmendQuantity := None,
          rejectionReason := result.message)
  }

  // ----- the second locked section of the three operations -----

  function CompletedOrder(o: Order, op: Operation, result: AdapterResult): Order {
    match op
    case PlaceOp(_) => PlacedOrder(o, result)
    case CancelOp(q) => CanceledOrder(o, CancelKey(q), result)
    case AmendOp(q) => AmendedOrder(o, q, result)
  }

  function Indexed(index: map<string, string>, key: string, id: string): map<string, string> {
    if key == "" then index else index[key := id]
  }

  function CompletedExchangeIndex(s: State, o: Order, op: Operation, result: AdapterResult): map<string, string> {
    var id := IdOfOp(op);
    if op.PlaceOp? && result.accepted then Indexed(s.exchangeIndex, result.exchangeOrderId, id)
    else if op.AmendOp? && result.accepted && result.replacement then
      Indexed(Indexed(s.exchangeIndex, o.exchangeOrderId, id), result.exchangeOrderId, id)
    else s.exchangeIndex
  }

  function CompletedClientIndex(s: State, op: Operation, result: AdapterResult): map<string, string> {
    if !op.CancelOp? && result.accepted then Indexed(s.clientIndex, result.exchangeClientOrderId, IdOfOp(op))
    else s.clientIndex
  }

  function ReportsToApply(s: State, op: Operation, result: AdapterResult): seq<Report> {
    var id := IdOfOp(op);
    match op
    case PlaceOp(_) => result.reports
    case CancelOp(_) => []
    case AmendOp(_) => result.reports + if id in s.deferred then s.deferred[id] else []
  }

  function Complete(s: State, t: nat): State {
    if t !in s.threads || !s.threads[t].Answered? || IdOfOp(s.threads[t].op) !in s.orders then s
    else
      var op, result := s.threads[t].op, s.threads[t].result;
      var id := IdOfOp(op);
      var before := s.orders[id];
      var o := CompletedOrder(before, op, result);
      var s1 := Put(s, id, o).(active := s.active - {id},
                               exchangeIndex := CompletedExchangeIndex(s, before, op, result),
                               clientIndex := CompletedClientIndex(s, op, result),
                               deferred := if op.AmendOp? then s.deferred - {id} else s.deferred);
      Enter(Issue(Publish(s1), o), t, Finishing(op, NextRecord(s, o), AnswerOf(result), ReportsToApply(s, op, result)))
  }

  // ----- journal appends and venue calls -----

  /** After its record is in the journal a thread moves on; the caller of a finished request is told. */
  function AfterAppend(s: State, t: nat, stage: Stage): State {
    match stage
    case Prepared(op, _) => Enter(s, t, Recorded(op))
    case Finishing(op, record, answer, reports) =>
      var s1 := Enter(s, t, Draining(record.order.venue, reports));
      if op.PlaceOp? then s1 else s1.(answered := s1.answered[op := answer])
    case Saving(_, venue, reports) => Enter(s, t, Draining(venue, reports))
    case _ => s
  }

  predicate HasRecordToAppend(stage: Stage) {
    stage.Prepared? || stage.Finishing? || stage.Saving?
  }

  /** The record is written: on a line of its own, or onto what a broken append left of the line. */
  function Filed(s: State, record: Record): State {
    s.(journal := s.journal + [record], file := Written(s.file, Snapshot(record), Everything))
  }

  function Append(s: State, t: nat): State {
    if t !in s.threads || !HasRecordToAppend(s.threads[t]) then s
    else AfterAppend(Filed(s, s.threads[t].record), t, s.threads[t])
  }

  /** The append throws: the thread's operation ends there, the in-memory state stays, and so does what was written. */
  function AppendFails(s: State, t: nat, extent: Extent): State {
    if t !in s.threads || !HasRecordToAppend(s.threads[t]) || extent.Everything? then s
    else Leave(s.(file := Written(s.file, Snapshot(s.threads[t].record), extent)), t)
  }

  function CallVenue(s: State, t: nat): State {
    if t !in s.threads || !s.threads[t].Recorded? then s
    else Enter(s.(calls := s.calls + [s.threads[t].op]), t, InFlight(s.threads[t].op))
  }

  function VenueAnswers(s: State, t: nat, result: AdapterResult): State {
    if t !in s.threads || !s.threads[t].InFlight? then s else Enter(s, t, Answered(s.threads[t].op, result))
  }

  // ----- execution reports -----

  function Owned(s: State, venue: Venue, id: string): bool {
    id in s.orders && s.orders[id].venue == venue
  }

  /** Finds the canonical order: by client id, by client alias, then by exchange id. */
  function Locate(s: State, venue: Venue, r: Report): Option<string> {
    if r.clientOrderId != "" && Owned(s, venue, r.clientOrderId) then Some(r.clientOrderId)
    else if r.clientOrderId != "" && r.clientOrderId in s.clientIndex && Owned(s, venue, s.clientIndex[r.clientOrderId])
    then Some(s.clientIndex[r.clientOrderId])
    else if r.exchangeOrderId != "" && r.exchangeOrderId in s.exchangeIndex
            && Owned(s, venue, s.exchangeIndex[r.exchangeOrderId])
    then Some(s.exchangeIndex[r.exchangeOrderId])
    else None
  }

  /** Reports that a Binance cancel-replace in progress must not see yet. */
  predicate MustDefer(venue: Venue, o: Order, r: Report) {
    && venue == Binance && o.pendingAction == Amend
    && ((Machine.OtherGeneration(o, r) && r.exchangeOrderId !in o.exchangeOrderIdAliases)
        || (r.status == Canceled && r.exchangeOrderId == o.exchangeOrderId))
  }

  function ReportedOrder(o: Order, r: Report): Order {
    var o1 := Machine.ApplyReport(o, r);
    if r.clientOrderId != "" && r.clientOrderId != o.clientOrderId
    then o1.(exchangeClientIdAliases := o1.exchangeClientIdAliases + {r.clientOrderId}) else o1
  }

  predicate MustPersist(o: Order, r: Report) {
    var result := Machine.Outcome(o, r);
    result.disposition != Machine.Duplicate && (result.stateChanged || r.eventId != "")
  }

  /** Stores a reported order and indexes the ids the report brought. */
  function PutReported(s: State, id: string, o: Order, r: Report): State {
    Put(s, id, o).(
      exchangeIndex := Indexed(s.exchangeIndex, o.exchangeOrderId, id),
      clientIndex := if r.clientOrderId != id then Indexed(s.clientIndex, r.clientOrderId, id) else s.clientIndex)
  }

  /** Applies an acceptable report to its order and decides whether the result must be journaled. */
  function MergeReport(s: State, t: nat, id: string, venue: Venue, r: Report, rest: seq<Report>): State
    requires id in s.orders
  {
    var o1 := ReportedOrder(s.orders[id], r);
    var s1 := PutReported(s, id, o1, r);
    if !MustPersist(s.orders[id], r) then Enter(s1, t, Draining(venue, rest))
    else Enter(Issue(Publish(s1), o1), t, Saving(NextRecord(s, o1), venue, rest))
  }

  function Defer(s: State, id: string, r: Report): State {
    s.(deferred := s.deferred[id := (if id in s.deferred then s.deferred[id] else []) + [r]])
  }

  /** The locked section of apply_execution, for a thread with `rest` still to apply afterwards. */
  function ApplyExecution(s: State, t: nat, venue: Venue, r: Report, rest: seq<Report>): State {
    match Locate(s, venue, r)
    case None => Enter(s, t, Draining(venue, rest))
    case Some(id) =>
      if MustDefer(venue, s.orders[id], r) then Enter(Defer(s, id, r), t, Draining(venue, rest))
      else if Machine.Outcome(s.orders[id], r).disposition == Machine.Invalid then Enter(s, t, Draining(venue, rest))
      else MergeReport(s, t, id, venue, r, rest)
  }

  /** A stream lane or reconciliation hands one report to an idle thread. */
  function StreamReport(s: State, t: nat, venue: Venue, r: Report): State {
    if t in s.threads then s else ApplyExecution(s, t, venue, r, [])
  }

  function ApplyNext(s: State, t: nat): State {
    if t !in s.threads || !s.threads[t].Draining? then s
    else
      var stage := s.threads[t];
      if stage.reports == [] then Leave(s, t)
      else ApplyExecution(s, t, stage.venue, stage.reports[0], stage.reports[1..])
  }

  /** Reconciliation asks the venue about an order that is open and idle right now. */
  function QueryStart(s: State, t: nat, id: string): State {
    if t in s.threads || id !in s.orders || id in s.active || IsTerminal(s.orders[id].status) then s
    else Enter(s, t, Querying(id))
  }

  function NullQueried(o: Order): Order {
    o.(status := Unknown, pendingAction := Reconcile, version := o.version + 1)
  }

  /** The venue's answer: a report to apply, or no trace, and then the order is not looked at again. */
  function QueryAnswers(s: State, t: nat, answer: Option<Report>): State {
    if t !in s.threads || !s.threads[t].Querying? || s.threads[t].id !in s.orders then s
    else
      var id := s.threads[t].id;
      match answer
      case Some(r) => ApplyExecution(s, t, s.orders[id].venue, r, [])
      case None =>
        var o := NullQueried(s.orders[id]);
        Enter(Issue(s.(orders := s.orders[id := o]), o), t, Saving(NextRecord(s, o), o.venue, []))
  }

  /** An operational event takes a sequence number from the same counter and a line of the same file. */
  function EventLogged(s: State, extent: Extent): State {
    s.(nextSequence := s.nextSequence + 1, file := Written(s.file, Event, extent))
  }

  // ----- crash and restart -----

  function OwnsExchangeId(o: Order, key: string): bool {
    key != "" && (key == o.exchangeOrderId || key in o.exchangeOrderIdAliases)
  }

  /** The index with every one of the keys leading to `id`. */
  function IndexedAll(index: map<string, string>, keys: set<string>, id: string): map<string, string> {
    index + map key | key in keys :: id
  }

  // Rebuilding goes through the recovered orders once, in whatever order the table lists them.

  function RebuiltExchangeIndex(list: seq<Order>): map<string, string> {
    if list == [] then map[]
    else
      var before, o := RebuiltExchangeIndex(list[..|list| - 1]), list[|list| - 1];
      IndexedAll(Indexed(before, o.exchangeOrderId, o.clientOrderId), o.exchangeOrderIdAliases, o.clientOrderId)
  }

  function RebuiltClientIndex(list: seq<Order>): map<string, string> {
    if list == [] then map[]
    else
      var before, o := RebuiltClientIndex(list[..|list| - 1]), list[|list| - 1];
      IndexedAll(before[o.clientOrderId := o.clientOrderId], o.exchangeClientIdAliases, o.clientOrderId)
  }

  function RebuiltPositions(list: seq<Order>): (positions: seq<int>)
    ensures |positions| == 2
  {
    if list == [] then [0, 0]
    else
      var before, o := RebuiltPositions(list[..|list| - 1]), list[|list| - 1];
      Adjusted(before, o.symbol, Contribution(o))
  }

  function RecoveredOrders(journal: seq<Record>): map<string, Order> {
    var table := Latest(journal);
    map id | id in table :: table[id].order
  }

  /** The records a restart finds in the file. */
  function Survivors(s: State): seq<Record> {
    match Reloaded(s.file)
    case Some(entries) => Snapshots(entries)
    case None => []
  }

  /**
   Everything in memory is lost; the file is loaded and its end repaired, and indexes and positions are
   rebuilt from a listing of the recovered orders. Event records may have taken further sequence numbers.
   From a file that does not load there is no restart.
   */
  ghost function Crash(s: State, list: seq<Order>, events: nat): State {
    var found := Survivors(s);
    var orders := RecoveredOrders(found);
    match Reloaded(s.file)
    case None => s
    case Some(entries) =>
      if !Lists(list, orders) then s
      else
        State(orders, RebuiltExchangeIndex(list), RebuiltClientIndex(list), {}, RebuiltPositions(list), RebuiltPositions(list),
              false, map[], found, File(entries, Clean), MaxSequence(found) + 1 + events, map[], s.calls,
              (set r | r in found), s.answered)
  }

  // ----- runs -----

  datatype Step =
    | DoPlaceStart(t: nat, q: OrderRequest, marketData: bool, marketPrice: Option<int>, preflight: Risk.Decision, reason: string)
    | DoCancelStart(t: nat, c: CancelRequest)
    | DoAmendStart(t: nat, a: AmendRequest, legacy: string)
    | DoAppend(t: nat)
    | DoAppendFails(t: nat, extent: Extent)
    | DoCallVenue(t: nat)
    | DoVenueAnswers(t: nat, result: AdapterResult)
    | DoComplete(t: nat)
    | DoStreamReport(t: nat, venue: Venue, r: Report)
    | DoApplyNext(t: nat)
    | DoQueryStart(t: nat, id: string)
    | DoQueryAnswers(t: nat, answer: Option<Report>)
    | DoEventLogged(extent: Extent)
    | DoCrash(list: seq<Order>, events: nat)

  ghost function Exec(table: Risk.LimitTable, s: State, step: Step): State {
    match step
    case DoPlaceStart(t, q, marketData, marketPrice, preflight, reason) =>
      PlaceStart(table, s, t, q, marketData, marketPrice, preflight, reason)
    case DoCancelStart(t, c) => CancelStart(s, t, c)
    case DoAmendStart(t, a, legacy) => AmendStart(table, s, t, a, legacy)
    case DoAppend(t) => Append(s, t)
    case DoAppendFails(t, extent) => AppendFails(s, t, extent)
    case DoCallVenue(t) => CallVenue(s, t)
    case DoVenueAnswers(t, result) => VenueAnswers(s, t, result)
    case DoComplete(t) => Complete(s, t)
    case DoStreamReport(t, venue, r) => StreamReport(s, t, venue, r)
    case DoApplyNext(t) => ApplyNext(s, t)
    case DoQueryStart(t, id) => QueryStart(s, t, id)
    case DoQueryAnswers(t, answer) => QueryAnswers(s, t, answer)
    case DoEventLogged(extent) => EventLogged(s, extent)
    case DoCrash(list, events) => Crash(s, list, events)
  }

  /** The state after a sequence of steps from an empty gateway. */
  ghost function After(table: Risk.LimitTable, steps: seq<Step>): State {
    if steps == [] then Start() else Exec(table, After(table, steps[..|steps| - 1]), steps[|steps| - 1])
  }
}
