/**
 How the snapshots of one order relate over time: later ones keep the identity, every request key
 and every completed outcome of earlier ones. This is what makes replay after a crash sound.
 */
module GatewayHistory {
  import opened Wrappers
  import opened Orders
  import opened Recovery
  import opened Gateway
  import Outcomes
  import Machine = OrderStateMachine
  import CancelReplace

  ghost predicate SameIdentity(a: Order, b: Order) {
    && b.clientOrderId == a.clientOrderId && b.venue == a.venue && b.symbol == a.symbol && b.side == a.side
    && b.createFingerprint == a.createFingerprint
  }

  /** Snapshot `b` may follow snapshot `a` of the same order. */
  ghost predicate Extends(a: Order, b: Order) {
    && SameIdentity(a, b)
    && (forall k :: k in a.processedRequests ==> k in b.processedRequests && b.processedRequests[k] == a.processedRequests[k])
    && (forall k :: k in a.processedRequestOutcomes && Outcomes.Completed(a.processedRequestOutcomes[k])
                    ==> k in b.processedRequestOutcomes && b.processedRequestOutcomes[k] == a.processedRequestOutcomes[k])
  }

  /** Nothing about requests changed. */
  ghost predicate SameRequests(a: Order, b: Order) {
    && SameIdentity(a, b)
    && b.processedRequests == a.processedRequests && b.processedRequestOutcomes == a.processedRequestOutcomes
  }

  /** Outcomes are kept only for known requests. */
  ghost predicate Keyed(o: Order) {
    forall k :: k in o.processedRequestOutcomes ==> k in o.processedRequests
  }

  predicate AwaitsOutcome(o: Order, key: string) {
    key in o.processedRequestOutcomes && o.processedRequestOutcomes[key] == Outcomes.PENDING_MARK
  }

  /** The order remembers the operation: its creation, or the request under its key. */
  predicate Carries(o: Order, op: Operation) {
    && o.clientOrderId == IdOfOp(op)
    && match op
       case PlaceOp(_) => o.createFingerprint == FingerprintOf(op)
       case _ => KeyOf(op) in o.processedRequests && o.processedRequests[KeyOf(op)] == FingerprintOf(op)
  }

  lemma ExtendsTransitive(a: Order, b: Order, c: Order)
    requires Extends(a, b) && Extends(b, c)
    ensures Extends(a, c)
  {
  }

  lemma CarriesIsKept(a: Order, b: Order, op: Operation)
    requires Extends(a, b) && Carries(a, op)
    ensures Carries(b, op)
  {
    hide KeyOf, FingerprintOf;
  }

  // ----- the mutations of one order -----

  lemma ReportKeepsRequests(o: Order, r: Report)
    ensures SameRequests(o, Machine.ApplyReport(o, r)) && SameRequests(o, ReportedOrder(o, r))
  {
    hide Machine.ApplyReport, Machine.Merge;
    Machine.ApplyCases(o, r);
    Machine.MergeFrame(o, r);
  }

  lemma PlacedKeepsRequests(o: Order, result: AdapterResult)
    ensures SameRequests(o, PlacedOrder(o, result))
  {
    hide Machine.ApplyReport, PlaceRejection;
    ReportKeepsRequests(o, PlaceRejection(o, result));
  }

  lemma WithRequestExtends(o: Order, key: string, fingerprint: string)
    requires Keyed(o) && key !in o.processedRequests
    ensures Extends(o, WithRequest(o, key, fingerprint)) && Keyed(WithRequest(o, key, fingerprint))
    ensures AwaitsOutcome(WithRequest(o, key, fingerprint), key)
    ensures key in WithRequest(o, key, fingerprint).processedRequests
            && WithRequest(o, key, fingerprint).processedRequests[key] == fingerprint
  {
  }

  lemma WithOutcomeExtends(o: Order, key: string, result: AdapterResult)
    requires Keyed(o) && AwaitsOutcome(o, key)
    ensures Extends(o, WithOutcome(o, key, result)) && Keyed(WithOutcome(o, key, result))
    ensures var o' := WithOutcome(o, key, result);
            key in o'.processedRequestOutcomes && o'.processedRequestOutcomes[key] == Outcomes.Encode(AnswerOf(result))
  {
    hide Outcomes.Encode;
  }

  lemma ReplaceKeepsRequests(o: Order, newId: string, reports: seq<Report>)
    ensures SameRequests(o, CancelReplace.Replace(o, newId, reports))
  {
    hide CancelReplace.FinalOldFill, CancelReplace.FinalOldQuote, CancelReplace.ActualQuantity, CancelReplace.WithOffset;
  }

  /** Completing an operation extends the order and, for a request, stores its answer. */
  lemma CompletedExtends(o: Order, op: Operation, result: AdapterResult)
    requires Keyed(o) && (op.PlaceOp? || AwaitsOutcome(o, KeyOf(op)))
    ensures Extends(o, CompletedOrder(o, op, result)) && Keyed(CompletedOrder(o, op, result))
    ensures !op.PlaceOp? ==> var o' := CompletedOrder(o, op, result);
                             && KeyOf(op) in o'.processedRequestOutcomes
                             && o'.processedRequestOutcomes[KeyOf(op)] == Outcomes.Encode(AnswerOf(result))
  {
    hide WithOutcome, CancelReplace.Replace, PlacedOrder, CancelKey, AmendKey, AnswerOf, Outcomes.Encode, DriftNote;
    match op
    case PlaceOp(_) =>
      PlacedKeepsRequests(o, result);
    case CancelOp(q) =>
      WithOutcomeExtends(o, CancelKey(q), result);
    case AmendOp(q) =>
      WithOutcomeExtends(o, AmendKey(q), result);
      ReplaceKeepsRequests(WithOutcome(o, AmendKey(q), result), result.exchangeOrderId, result.reports);
  }

  // ----- all snapshots ever issued -----

  /** Issued snapshots carry distinct sequence numbers, and order their owners' history. */
  ghost predicate History(orders: map<string, Order>, issued: set<Record>, next: nat) {
    && (forall id :: id in orders ==> orders[id].clientOrderId == id && Keyed(orders[id]))
    && (forall r :: r in issued ==> r.sequence < next && IdOf(r) in orders && Extends(r.order, orders[IdOf(r)]) && Keyed(r.order))
    && (forall r, r' :: r in issued && r' in issued && r.sequence == r'.sequence ==> r == r')
    && (forall r, r' :: r in issued && r' in issued && IdOf(r) == IdOf(r') && r.sequence < r'.sequence
                        ==> Extends(r.order, r'.order))
  }

  ghost predicate Follows(orders: map<string, Order>, id: string, o: Order) {
    o.clientOrderId == id && Keyed(o) && (id in orders ==> Extends(orders[id], o))
  }

  lemma HistoryKeptByUpdate(orders: map<string, Order>, issued: set<Record>, next: nat, id: string, o: Order)
    requires History(orders, issued, next) && Follows(orders, id, o)
    ensures History(orders[id := o], issued, next)
  {
    hide Extends, Keyed;
    forall r | r in issued
      ensures IdOf(r) in orders[id := o] && Extends(r.order, orders[id := o][IdOf(r)])
    {
      if IdOf(r) == id {
        ExtendsTransitive(r.order, orders[id], o);
      }
    }
  }

  lemma ExtendsItself(o: Order)
    ensures Extends(o, o)
  {
  }

  lemma HistoryKeptByIssue(orders: map<string, Order>, issued: set<Record>, next: nat, id: string, o: Order)
    requires History(orders, issued, next) && Follows(orders, id, o)
    ensures History(orders[id := o], issued + {Record(next, o)}, next + 1)
  {
    hide Extends, Keyed;
    HistoryKeptByUpdate(orders, issued, next, id, o);
    ExtendsItself(o);
    var latest := Record(next, o);
    forall r, r' | r in issued + {latest} && r' in issued + {latest} && IdOf(r) == IdOf(r') && r.sequence < r'.sequence
      ensures Extends(r.order, r'.order)
    {
      if r' == latest {
        assert r in issued;
        assert Extends(r.order, orders[id := o][IdOf(r)]);
      }
    }
  }

  lemma HistoryKeptByTime(orders: map<string, Order>, issued: set<Record>, next: nat, later: nat)
    requires History(orders, issued, next) && next <= later
    ensures History(orders, issued, later)
  {
  }

  /** What recovery loads for an order: the newest of its journaled snapshots. */
  lemma RecoveredIsNewest(journal: seq<Record>, id: string) returns (newest: Record)
    requires id in RecoveredOrders(journal)
    ensures newest in journal && IdOf(newest) == id && RecoveredOrders(journal)[id] == newest.order
    ensures forall r :: r in journal && IdOf(r) == id ==> r.sequence <= newest.sequence
  {
    hide Latest;
    LatestIsNewest(journal);
    newest := Latest(journal)[id];
    assert IsNewest(journal, id, newest);
  }

  lemma JournaledIsRecovered(journal: seq<Record>, r: Record)
    requires r in journal
    ensures IdOf(r) in RecoveredOrders(journal)
  {
    hide Latest;
    LatestIsNewest(journal);
    assert HasRecord(journal, IdOf(r));
  }

  /** Only journaled snapshots survive a crash; the newest of each order becomes the live one. */
  lemma HistoryKeptByCrash(orders: map<string, Order>, issued: set<Record>, next: nat, journal: seq<Record>, events: nat)
    requires History(orders, issued, next) && forall r :: r in journal ==> r in issued
    ensures History(RecoveredOrders(journal), (set r | r in journal), MaxSequence(journal) + 1 + events)
  {
    hide Extends, Keyed, RecoveredOrders;
    MaxSequenceBounds(journal);
    var recovered := RecoveredOrders(journal);
    forall id | id in recovered
      ensures recovered[id].clientOrderId == id && Keyed(recovered[id])
    {
      var newest := RecoveredIsNewest(journal, id);
    }
    forall r | r in journal
      ensures IdOf(r) in recovered && Extends(r.order, recovered[IdOf(r)])
    {
      JournaledIsRecovered(journal, r);
      var newest := RecoveredIsNewest(journal, IdOf(r));
      ExtendsItself(r.order);
    }
  }
}
