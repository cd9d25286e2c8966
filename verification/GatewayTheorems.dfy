/**
 What callers of the gateway may rely on, over every run from an empty gateway, and the one case in
 which they may not.
 */
module GatewayTheorems {
  import opened Wrappers
  import opened Orders
  import opened Recovery
  import opened Gateway
  import opened GatewayHistory
  import opened GatewaySafety
  import opened GatewayMemory
  import opened Positions
  import Fingerprints
  import Outcomes
  import Risk

  /**
   Each order is placed at the venue at most once, and each cancel or amend key is sent at most once,
   counting all restarts: when two calls go out under one key, some restart of the run has found the only
   record of the first one on a line that a broken append had spoiled.
   */
  lemma EachOperationIsSentAtMostOnce(table: Risk.LimitTable, steps: seq<Step>, i: nat, j: nat)
    requires i < j < |After(table, steps).calls|
    requires Target(After(table, steps).calls[i]) == Target(After(table, steps).calls[j])
    ensures Forgotten(table, steps, Target(After(table, steps).calls[i]))
  {
    hide After, SentOk, Durable, Forgotten, Target;
    CallsAreRemembered(table, steps, Target(After(table, steps).calls[i]));
  }

  /** And whatever was sent has its intent in the journal, unless such a restart forgot it. */
  lemma WhateverIsSentIsJournaled(table: Risk.LimitTable, steps: seq<Step>, op: Operation)
    requires op in After(table, steps).calls
    ensures Durable(After(table, steps).journal, op) || Forgotten(table, steps, Target(op))
  {
    hide After, SentOk, Durable, Forgotten, Target;
    CallsAreRemembered(table, steps, Target(op));
  }

  /** The moment a call goes out, the complete intent is already journaled and nothing like it was sent. */
  lemma SendingNeedsDurableIntent(table: Risk.LimitTable, steps: seq<Step>, t: nat)
    requires t in After(table, steps).threads && After(table, steps).threads[t].Recorded?
    ensures var s := After(table, steps);
            var op := s.threads[t].op;
            && CallVenue(s, t).calls == s.calls + [op]
            && (Forgotten(table, steps, Target(op)) || (Durable(s.journal, op) && NotCalled(s.calls, Target(op))))
  {
    hide After, Durable, NotCalled, Forgotten, Target, CallsOk;
    var s := After(table, steps);
    CallsAreRemembered(table, steps, Target(s.threads[t].op));
    if !Forgotten(table, steps, Target(s.threads[t].op)) {
      SentOf(s, t, Target(s.threads[t].op));
    }
  }

  /**
   Once an order has been sent, every later create under its id is answered from the record, in every
   later state and after every restart that does not forget it: it changes nothing, and it is a conflict
   exactly when the visible payload differs.
   */
  lemma PlacedOrderIsReplayed(table: Risk.LimitTable, steps: seq<Step>, sent: OrderRequest, retry: OrderRequest,
                              legacy: string, t: nat, marketData: bool, marketPrice: Option<int>,
                              preflight: Risk.Decision, reason: string)
    requires PlaceOp(sent) in After(table, steps).calls && retry.clientOrderId == sent.clientOrderId
    requires !Forgotten(table, steps, Target(PlaceOp(sent)))
    ensures var s := After(table, steps);
            && sent.clientOrderId in s.orders
            && PlaceStart(table, s, t, retry, marketData, marketPrice, preflight, reason) == s
            && (ReplyToRepeat(s.orders[sent.clientOrderId], retry, legacy) == Conflict
                <==> Fingerprints.Visible(sent) != Fingerprints.Visible(retry))
  {
    hide After, Admit, NewOrder, PlaceDecision, Fingerprints.CreateFingerprint, Fingerprints.CreateMatches,
         Fingerprints.Visible, Safe, Remembers, Forgotten;
    EveryRunIsSafe(table, steps);
    var s := After(table, steps);
    CallsAreRemembered(table, steps, Target(PlaceOp(sent)));
    CallIsDurable(s, PlaceOp(sent));
    DurableIsRemembered(s, PlaceOp(sent));
    Fingerprints.CreateConflictsExactly(sent, retry, legacy);
  }

  /** At most one venue call per order is out at any time. */
  lemma OneCallInFlightPerOrder(table: Risk.LimitTable, steps: seq<Step>, t: nat, t': nat)
    requires var s := After(table, steps);
             t in s.threads && t' in s.threads && s.threads[t].InFlight? && s.threads[t'].InFlight? && t != t'
    ensures IdOfOp(After(table, steps).threads[t].op) != IdOfOp(After(table, steps).threads[t'].op)
  {
    hide After, StageOk, History;
    EveryRunIsSafe(table, steps);
  }

  /** An answered request is remembered by the live order together with its encoded answer. */
  lemma AnswerIsRemembered(s: State, op: Operation)
    requires Safe(s) && AnswerOk(s, op) && op in s.answered
    ensures IdOfOp(op) in s.orders && Told(s.orders[IdOfOp(op)], op, s.answered[op]) && !op.PlaceOp?
  {
    hide KeyOf, FingerprintOf, Outcomes.Encode, StageOk, FileOk;
    var answer := s.answered[op];
    var r :| r in s.journal && Told(r.order, op, answer);
    var live := s.orders[IdOf(r)];
    CarriesIsKept(r.order, live, op);
    Outcomes.ReplayIsFaithfulExactly(answer);
    assert Outcomes.Completed(r.order.processedRequestOutcomes[KeyOf(op)]);
  }

  /**
   A caller who was told the outcome of a cancel and retries it gets that outcome back, in every
   later state and after every restart that does not forget it: exactly when the code holds no separator.
   */
  lemma CancelRetryIsFaithful(table: Risk.LimitTable, steps: seq<Step>, q: CancelRequest)
    requires CancelOp(q) in After(table, steps).answered && !AnswerForgotten(table, steps, CancelOp(q))
    ensures var s := After(table, steps);
            var answer := s.answered[CancelOp(q)];
            && CancelDecision(s, q).CancelReplayed?
            && (CancelDecision(s, q).response == Outcomes.FirstResponse(answer)
                <==> Outcomes.SEPARATOR !in Outcomes.CodeOf(answer))
  {
    hide After, Safe, AnswerForgotten, CancelKey, Fingerprints.CancelFingerprint, Outcomes.Encode, Outcomes.Replay, Outcomes.CodeOf;
    EveryRunIsSafe(table, steps);
    var s := After(table, steps);
    AnswersAreRemembered(table, steps, CancelOp(q));
    AnswerIsRemembered(s, CancelOp(q));
    Outcomes.ReplayIsFaithfulExactly(s.answered[CancelOp(q)]);
  }

  lemma AmendRetryIsFaithful(table: Risk.LimitTable, steps: seq<Step>, q: AmendRequest, legacy: string)
    requires AmendOp(q) in After(table, steps).answered && !AnswerForgotten(table, steps, AmendOp(q))
    ensures var s := After(table, steps);
            var answer := s.answered[AmendOp(q)];
            && AmendDecision(table, s, q, legacy).AmendReplayed?
            && (AmendDecision(table, s, q, legacy).response == Outcomes.FirstResponse(answer)
                <==> Outcomes.SEPARATOR !in Outcomes.CodeOf(answer))
  {
    hide After, Safe, AnswerForgotten, AmendKey, Fingerprints.AmendFingerprint, Outcomes.Encode, Outcomes.Replay, Outcomes.CodeOf,
         Risk.CheckAmendWithPosition, PositionWithout;
    EveryRunIsSafe(table, steps);
    var s := After(table, steps);
    AnswersAreRemembered(table, steps, AmendOp(q));
    AnswerIsRemembered(s, AmendOp(q));
    Outcomes.ReplayIsFaithfulExactly(s.answered[AmendOp(q)]);
  }

  /**
   The guarantees are not bought by never sending: in any state, an accepted create of a new order by
   an idle thread reaches the venue in three steps of that thread, its record journaled before.
   */
  lemma UndisturbedPlaceIsSent(table: Risk.LimitTable, s: State, t: nat, q: OrderRequest, marketData: bool,
                               marketPrice: Option<int>, preflight: Risk.Decision, reason: string)
    requires t !in s.threads && q.clientOrderId !in s.orders
    requires PlaceDecision(table, s, q, marketData, marketPrice, preflight) == Risk.Accept
    ensures var s1 := PlaceStart(table, s, t, q, marketData, marketPrice, preflight, reason);
            var s2 := Append(s1, t);
            && s1.calls == s.calls && s2.journal == s.journal + [NextRecord(s, NewOrder(q, Risk.Accept, reason))]
            && CallVenue(s2, t).calls == s.calls + [PlaceOp(q)]
  {
    hide PlaceDecision, NewOrder, Put, Publish, Filed, Enter;
    var o := NewOrder(q, Risk.Accept, reason);
    var put := Put(s, q.clientOrderId, o);
    PutFacts(s, q.clientOrderId, o);
    PublishedIsSame(put);
    var issued := Issue(Publish(put), o);
    EnterFacts(issued.(active := issued.active + {q.clientOrderId}), t, Prepared(PlaceOp(q), NextRecord(s, o)));
    var s1 := PlaceStart(table, s, t, q, marketData, marketPrice, preflight, reason);
    assert s1.threads[t] == Prepared(PlaceOp(q), NextRecord(s, o));
    FiledFacts(s1, NextRecord(s, o));
    EnterFacts(Filed(s1, NextRecord(s, o)), t, Recorded(PlaceOp(q)));
    var s2 := Append(s1, t);
    EnterFacts(s2.(calls := s2.calls + [PlaceOp(q)]), t, InFlight(PlaceOp(q)));
  }

  // ----- what a restart that forgets leads to -----

  lemma SameOrderCarries(s: State, r: Record, other: Record, q: OrderRequest)
    requires Safe(s) && r in s.issued && other in s.issued && Carries(r.order, PlaceOp(q)) && IdOf(other) == q.clientOrderId
    ensures Carries(other.order, PlaceOp(q))
  {
    hide StageOk, FileOk, Exclusive, Fingerprints.CreateFingerprint;
    assert Extends(r.order, s.orders[IdOf(r)]) && Extends(other.order, s.orders[IdOf(other)]);
  }

  lemma ForgottenIsUnknown(s: State, q: OrderRequest)
    requires Safe(s) && Swallows(s) && Carries(s.file.end.record.record.order, PlaceOp(q))
    requires !Durable(Snapshots(s.file.lines), PlaceOp(q))
    ensures q.clientOrderId !in RecoveredOrders(Survivors(s))
  {
    hide Safe, Carries, RecoveredOrders, Snapshots, Survivors;
    SwallowedJournal(s);
    var record, others := s.file.end.record.record, Snapshots(s.file.lines);
    if q.clientOrderId in RecoveredOrders(others) {
      var newest := RecoveredIsNewest(others, q.clientOrderId);
      JournaledIsIssued(s, newest);
      JournaledIsIssued(s, record);
      SameOrderCarries(s, record, newest, q);
      assert false;
    }
  }

  lemma JournaledIsIssued(s: State, r: Record)
    requires Safe(s) && r in s.journal
    ensures r in s.issued
  {
    hide History, StageOk, FileOk, Exclusive;
  }

  /**
   A place that was sent and of which only a swallowed record knows: after the restart its order is unknown,
   and the same create, if it is accepted, goes to the venue a second time.
   */
  lemma ForgottenPlaceIsSentAgain(table: Risk.LimitTable, s: State, list: seq<Order>, events: nat, t: nat, q: OrderRequest,
                                  marketData: bool, marketPrice: Option<int>, preflight: Risk.Decision, reason: string)
    requires Safe(s) && PlaceOp(q) in s.calls && Swallows(s) && Lists(list, RecoveredOrders(Survivors(s)))
    requires Carries(s.file.end.record.record.order, PlaceOp(q)) && !Durable(Snapshots(s.file.lines), PlaceOp(q))
    requires PlaceDecision(table, Crash(s, list, events), q, marketData, marketPrice, preflight) == Risk.Accept
    ensures var s1 := Crash(s, list, events);
            var s2 := PlaceStart(table, s1, t, q, marketData, marketPrice, preflight, reason);
            && Forgets(s, DoCrash(list, events), Target(PlaceOp(q))) && q.clientOrderId !in s1.orders
            && CallVenue(Append(s2, t), t).calls == s.calls + [PlaceOp(q)]
  {
    hide Safe, Lists, Carries, RecoveredOrders, Snapshots, Survivors, Durable, PlaceDecision, NewOrder, Put, Publish, Filed,
         RebuiltExchangeIndex, RebuiltClientIndex, RebuiltPositions;
    ForgottenIsUnknown(s, q);
    BlockedDoesNotSwallow(s);
    var s1 := Crash(s, list, events);
    UndisturbedPlaceIsSent(table, s1, t, q, marketData, marketPrice, preflight, reason);
  }
}
