/**
 Runs of the gateway put together from operations. Each lemma says what one more stretch of a run
 does to the orders, the indexes, the held reports and the threads.
 */
module GatewayRuns {
  import opened Wrappers
  import opened Orders
  import opened Gateway
  import opened GatewaySafety
  import opened Positions
  import Fingerprints
  import Risk

  lemma AfterOneMore(table: Risk.LimitTable, steps: seq<Step>, step: Step)
    ensures After(table, steps + [step]) == Exec(table, After(table, steps), step)
  {
    hide Exec;
    assert (steps + [step])[..|steps|] == steps;
  }

  /** The parts of the state that the examples look at, apart from the threads. */
  datatype Books = Books(orders: map<string, Order>, exchangeIndex: map<string, string>, clientIndex: map<string, string>,
                         active: set<string>, deferred: map<string, seq<Report>>)

  function BooksOf(s: State): Books {
    Books(s.orders, s.exchangeIndex, s.clientIndex, s.active, s.deferred)
  }

  lemma IssueFacts(s: State, o: Order)
    ensures Issue(s, o).threads == s.threads && BooksOf(Issue(s, o)) == BooksOf(s)
  {
  }

  lemma StoredFacts(s: State, id: string, o: Order)
    ensures Put(s, id, o).threads == s.threads && BooksOf(Put(s, id, o)) == BooksOf(s).(orders := s.orders[id := o])
    ensures Publish(s).threads == s.threads && BooksOf(Publish(s)) == BooksOf(s)
  {
    hide Put, Publish;
    PutFacts(s, id, o);
    PublishedIsSame(s);
  }

  // ----- the sections of an operation -----

  /** An accepted create makes its order an active operation of the thread. */
  lemma PlaceFacts(table: Risk.LimitTable, s: State, t: nat, q: OrderRequest)
    requires t !in s.threads && q.clientOrderId !in s.orders
    requires PlaceDecision(table, s, q, false, None, Risk.Accept) == Risk.Accept
    ensures var s' := PlaceStart(table, s, t, q, false, None, Risk.Accept, "");
            var o := NewOrder(q, Risk.Accept, "");
            && s'.threads == s.threads[t := Prepared(PlaceOp(q), NextRecord(s, o))]
            && BooksOf(s') == BooksOf(s).(orders := s.orders[q.clientOrderId := o], active := s.active + {q.clientOrderId})
  {
    hide PlaceDecision, NewOrder, Put, Publish, Issue, Enter;
    var o := NewOrder(q, Risk.Accept, "");
    var put := Put(s, q.clientOrderId, o);
    StoredFacts(s, q.clientOrderId, o);
    StoredFacts(put, q.clientOrderId, o);
    IssueFacts(Publish(put), o);
    var issued := Issue(Publish(put), o);
    EnterFacts(issued.(active := issued.active + {q.clientOrderId}), t, Prepared(PlaceOp(q), NextRecord(s, o)));
  }

  /** The order an accepted amend request leaves while it is pending. */
  function AmendedPending(o: Order, a: AmendRequest): Order {
    WithRequest(o, AmendKey(a), Fingerprints.AmendFingerprint(a))
    .(pendingAction := Amend, pendingAmendPrice := a.newPrice, pendingAmendQuantity := a.newQuantity)
  }

  lemma AmendFacts(table: Risk.LimitTable, s: State, t: nat, a: AmendRequest)
    requires t !in s.threads && a.clientOrderId in s.orders && AmendDecision(table, s, a, "") == AmendProceeds
    ensures var id := a.clientOrderId;
            var s' := AmendStart(table, s, t, a, "");
            var o := AmendedPending(s.orders[id], a);
            && s'.threads == s.threads[t := Prepared(AmendOp(a), NextRecord(s, o))]
            && BooksOf(s') == BooksOf(s).(orders := s.orders[id := o], active := s.active + {id})
  {
    hide AmendDecision, AmendedPending, Publish, Issue, Enter;
    var id := a.clientOrderId;
    var o := AmendedPending(s.orders[id], a);
    PendingIs(s.orders[id], a);
    var stored := s.(orders := s.orders[id := o], active := s.active + {id});
    StoredFacts(stored, id, o);
    IssueFacts(Publish(stored), o);
    EnterFacts(Issue(Publish(stored), o), t, Prepared(AmendOp(a), NextRecord(s, o)));
  }

  lemma PendingIs(o: Order, a: AmendRequest)
    ensures AmendedPending(o, a)
            == WithRequest(o, AmendKey(a), Fingerprints.AmendFingerprint(a))
               .(pendingAction := Amend, pendingAmendPrice := a.newPrice, pendingAmendQuantity := a.newQuantity)
  {
  }

  /** From a prepared intent to the venue call. */
  function UpToCall(steps: seq<Step>, t: nat): seq<Step> {
    steps + [DoAppend(t)] + [DoCallVenue(t)]
  }

  lemma UpToCallFacts(table: Risk.LimitTable, steps: seq<Step>, t: nat)
    requires var s := After(table, steps);
             t in s.threads && s.threads[t].Prepared?
    ensures var s := After(table, steps);
            var s' := After(table, UpToCall(steps, t));
            s'.threads == s.threads[t := InFlight(s.threads[t].op)] && BooksOf(s') == BooksOf(s)
  {
    hide After, Append, CallVenue, BooksOf;
    var s := After(table, steps);
    AfterOneMore(table, steps, DoAppend(t));
    AfterOneMore(table, steps + [DoAppend(t)], DoCallVenue(t));
    IntentAppended(s, t);
    CallFacts(Append(s, t), t);
  }

  lemma IntentAppended(s: State, t: nat)
    requires t in s.threads && s.threads[t].Prepared?
    ensures Append(s, t).threads == s.threads[t := Recorded(s.threads[t].op)] && BooksOf(Append(s, t)) == BooksOf(s)
  {
    hide Enter, Filed;
    var s1 := Filed(s, s.threads[t].record);
    FiledFacts(s, s.threads[t].record);
    EnterFacts(s1, t, Recorded(s.threads[t].op));
  }

  lemma CallFacts(s: State, t: nat)
    requires t in s.threads && s.threads[t].Recorded?
    ensures CallVenue(s, t).threads == s.threads[t := InFlight(s.threads[t].op)] && BooksOf(CallVenue(s, t)) == BooksOf(s)
  {
    hide Enter;
    var op := s.threads[t].op;
    EnterFacts(s.(calls := s.calls + [op]), t, InFlight(op));
  }

  lemma AnswerFacts(s: State, t: nat, result: AdapterResult)
    requires t in s.threads && s.threads[t].InFlight?
    ensures var s' := VenueAnswers(s, t, result);
            s'.threads == s.threads[t := Answered(s.threads[t].op, result)] && BooksOf(s') == BooksOf(s)
  {
    hide Enter;
    EnterFacts(s, t, Answered(s.threads[t].op, result));
  }

  function CompletedBooks(s: State, op: Operation, result: AdapterResult): Books
    requires IdOfOp(op) in s.orders
  {
    var id := IdOfOp(op);
    Books(s.orders[id := CompletedOrder(s.orders[id], op, result)],
          CompletedExchangeIndex(s, s.orders[id], op, result), CompletedClientIndex(s, op, result),
          s.active - {id}, if op.AmendOp? then s.deferred - {id} else s.deferred)
  }

  lemma CompleteFacts(s: State, t: nat)
    requires t in s.threads && s.threads[t].Answered? && IdOfOp(s.threads[t].op) in s.orders
    ensures var op, result := s.threads[t].op, s.threads[t].result;
            var o := CompletedOrder(s.orders[IdOfOp(op)], op, result);
            var s' := Complete(s, t);
            && s'.threads == s.threads[t := Finishing(op, NextRecord(s, o), AnswerOf(result), ReportsToApply(s, op, result))]
            && BooksOf(s') == CompletedBooks(s, op, result)
  {
    hide CompletedOrder, Put, Publish, CompletedExchangeIndex, CompletedClientIndex, AnswerOf, ReportsToApply, Issue, Enter;
    var op, result := s.threads[t].op, s.threads[t].result;
    var id := IdOfOp(op);
    var before := s.orders[id];
    var o := CompletedOrder(before, op, result);
    StoredFacts(s, id, o);
    var s1 := Put(s, id, o).(active := s.active - {id},
                             exchangeIndex := CompletedExchangeIndex(s, before, op, result),
                             clientIndex := CompletedClientIndex(s, op, result),
                             deferred := if op.AmendOp? then s.deferred - {id} else s.deferred);
    StoredFacts(s1, id, o);
    IssueFacts(Publish(s1), o);
    EnterFacts(Issue(Publish(s1), o), t, Finishing(op, NextRecord(s, o), AnswerOf(result), ReportsToApply(s, op, result)));
  }

  // ----- whole operations -----

  /** From a venue call that is out to the end of the second locked section. */
  function FromCall(steps: seq<Step>, t: nat, result: AdapterResult): seq<Step> {
    steps + [DoVenueAnswers(t, result)] + [DoComplete(t)]
  }

  lemma FromCallFacts(table: Risk.LimitTable, steps: seq<Step>, t: nat, result: AdapterResult)
    requires var s := After(table, steps);
             t in s.threads && s.threads[t].InFlight? && IdOfOp(s.threads[t].op) in s.orders
    ensures var s := After(table, steps);
            var op := s.threads[t].op;
            var s' := After(table, FromCall(steps, t, result));
            && BooksOf(s') == CompletedBooks(s, op, result)
            && s'.threads.Keys == s.threads.Keys && s'.threads[t].Finishing? && s'.threads[t].op == op
            && s'.threads[t].record.order == CompletedOrder(s.orders[IdOfOp(op)], op, result)
            && s'.threads[t].reports == ReportsToApply(s, op, result)
  {
    hide After, Complete, VenueAnswers, CompletedOrder, AnswerOf;
    var s := After(table, steps);
    var answered := VenueAnswers(s, t, result);
    AfterOneMore(table, steps, DoVenueAnswers(t, result));
    AfterOneMore(table, steps + [DoVenueAnswers(t, result)], DoComplete(t));
    AnswerFacts(s, t, result);
    CompleteFacts(answered, t);
    SameBooksComplete(s, answered, s.threads[t].op, result);
  }

  /** From a prepared intent to the end of the second locked section. */
  function UpToCompletion(steps: seq<Step>, t: nat, result: AdapterResult): seq<Step> {
    FromCall(UpToCall(steps, t), t, result)
  }

  lemma UpToCompletionFacts(table: Risk.LimitTable, steps: seq<Step>, t: nat, result: AdapterResult)
    requires var s := After(table, steps);
             t in s.threads && s.threads[t].Prepared? && IdOfOp(s.threads[t].op) in s.orders
    ensures var s := After(table, steps);
            var op := s.threads[t].op;
            var s' := After(table, UpToCompletion(steps, t, result));
            && BooksOf(s') == CompletedBooks(s, op, result)
            && s'.threads.Keys == s.threads.Keys && s'.threads[t].Finishing? && s'.threads[t].op == op
            && s'.threads[t].record.order == CompletedOrder(s.orders[IdOfOp(op)], op, result)
            && s'.threads[t].reports == ReportsToApply(s, op, result)
  {
    hide After, UpToCall, FromCall, CompletedOrder, CompletedBooks, ReportsToApply;
    var s := After(table, steps);
    UpToCallFacts(table, steps, t);
    FromCallFacts(table, UpToCall(steps, t), t, result);
    SameBooksComplete(s, After(table, UpToCall(steps, t)), s.threads[t].op, result);
  }

  lemma SameBooksComplete(s: State, s': State, op: Operation, result: AdapterResult)
    requires BooksOf(s') == BooksOf(s) && IdOfOp(op) in s.orders
    ensures CompletedBooks(s', op, result) == CompletedBooks(s, op, result)
    ensures ReportsToApply(s', op, result) == ReportsToApply(s, op, result)
  {
    hide CompletedOrder;
  }

  lemma OutcomeRecorded(s: State, t: nat)
    requires t in s.threads && s.threads[t].Finishing?
    ensures BooksOf(Append(s, t)) == BooksOf(s)
    ensures Append(s, t).threads == s.threads[t := Draining(s.threads[t].record.order.venue, s.threads[t].reports)]
  {
    hide Enter, Filed;
    var s1 := Filed(s, s.threads[t].record);
    FiledFacts(s, s.threads[t].record);
    EnterFacts(s1, t, Draining(s.threads[t].record.order.venue, s.threads[t].reports));
  }

  /** The record of the outcome is appended; what the venue reported is still to be applied. */
  lemma OutcomeAppended(table: Risk.LimitTable, steps: seq<Step>, t: nat)
    requires var s := After(table, steps);
             t in s.threads && s.threads[t].Finishing?
    ensures var s := After(table, steps);
            var s' := After(table, steps + [DoAppend(t)]);
            && BooksOf(s') == BooksOf(s)
            && s'.threads == s.threads[t := Draining(s.threads[t].record.order.venue, s.threads[t].reports)]
  {
    hide After, Append;
    AfterOneMore(table, steps, DoAppend(t));
    OutcomeRecorded(After(table, steps), t);
  }

  /** An operation whose answer brings no reports, to its end. */
  function WholeOperation(steps: seq<Step>, t: nat, result: AdapterResult): seq<Step> {
    UpToCompletion(steps, t, result) + [DoAppend(t)] + [DoApplyNext(t)]
  }

  lemma WholeOperationFacts(table: Risk.LimitTable, steps: seq<Step>, t: nat, result: AdapterResult)
    requires var s := After(table, steps);
             && t in s.threads && s.threads[t].Prepared? && IdOfOp(s.threads[t].op) in s.orders
             && ReportsToApply(s, s.threads[t].op, result) == []
    ensures var s := After(table, steps);
            var s' := After(table, WholeOperation(steps, t, result));
            BooksOf(s') == CompletedBooks(s, s.threads[t].op, result) && s'.threads.Keys == s.threads.Keys - {t}
  {
    hide After, UpToCompletion, CompletedBooks, CompletedOrder, ReportsToApply;
    UpToCompletionFacts(table, steps, t, result);
    OutcomeAppended(table, UpToCompletion(steps, t, result), t);
    AfterOneMore(table, UpToCompletion(steps, t, result) + [DoAppend(t)], DoApplyNext(t));
  }

  /** A create from its request to its end, or as far as the second locked section. */
  lemma PlacedFacts(table: Risk.LimitTable, steps: seq<Step>, t: nat, q: OrderRequest)
    requires var s := After(table, steps);
             && t !in s.threads && q.clientOrderId !in s.orders
             && PlaceDecision(table, s, q, false, None, Risk.Accept) == Risk.Accept
    ensures var s := After(table, steps);
            var s' := After(table, steps + [Placing(t, q)]);
            var o := NewOrder(q, Risk.Accept, "");
            && s'.threads == s.threads[t := Prepared(PlaceOp(q), NextRecord(s, o))]
            && BooksOf(s') == BooksOf(s).(orders := s.orders[q.clientOrderId := o], active := s.active + {q.clientOrderId})
  {
    hide After, PlaceStart, PlaceDecision, NewOrder;
    AfterOneMore(table, steps, Placing(t, q));
    PlaceFacts(table, After(table, steps), t, q);
  }

  function Placing(t: nat, q: OrderRequest): Step {
    DoPlaceStart(t, q, false, None, Risk.Accept, "")
  }

  lemma AmendingFacts(table: Risk.LimitTable, steps: seq<Step>, t: nat, a: AmendRequest)
    requires var s := After(table, steps);
             && t !in s.threads && a.clientOrderId in s.orders
             && AmendDecision(table, s, a, "") == AmendProceeds
    ensures var s := After(table, steps);
            var s' := After(table, steps + [DoAmendStart(t, a, "")]);
            var o := AmendedPending(s.orders[a.clientOrderId], a);
            && s'.threads == s.threads[t := Prepared(AmendOp(a), NextRecord(s, o))]
            && BooksOf(s') == BooksOf(s).(orders := s.orders[a.clientOrderId := o], active := s.active + {a.clientOrderId})
  {
    hide After, AmendStart, AmendDecision, AmendedPending;
    AfterOneMore(table, steps, DoAmendStart(t, a, ""));
    AmendFacts(table, After(table, steps), t, a);
  }
}
