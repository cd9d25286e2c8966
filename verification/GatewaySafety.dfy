/**
 Safety of the gateway protocol over every run: per-order exclusion, request memory and the history of
 snapshots, across any interleaving of threads, reports, appends that fail half-way, and restarts.
 */
module GatewaySafety {
  import opened Wrappers
  import opened Orders
  import opened Recovery
  import opened Gateway
  import opened GatewayHistory
  import opened JournalEnds
  import Fingerprints
  import Outcomes
  import Risk
  import Machine = OrderStateMachine
  import opened Positions

  // ----- the invariant -----

  /** A request is known to its live order and has no outcome yet. */
  ghost predicate OpLive(s: State, op: Operation) {
    && IdOfOp(op) in s.active && IdOfOp(op) in s.orders
    && Carries(s.orders[IdOfOp(op)], op)
    && (op.PlaceOp? || AwaitsOutcome(s.orders[IdOfOp(op)], KeyOf(op)))
  }

  ghost predicate Told(o: Order, op: Operation, answer: Outcomes.Answer) {
    && o.clientOrderId == IdOfOp(op) && Carries(o, op)
    && (op.PlaceOp? || (KeyOf(op) in o.processedRequestOutcomes
                        && o.processedRequestOutcomes[KeyOf(op)] == Outcomes.Encode(answer)))
  }

  ghost predicate StageOk(s: State, stage: Stage) {
    match stage
    case Prepared(op, record) => OpLive(s, op) && record in s.issued && Carries(record.order, op)
    case Recorded(op) => OpLive(s, op)
    case InFlight(op) => OpLive(s, op)
    case Answered(op, _) => OpLive(s, op)
    case Finishing(op, record, answer, _) => record in s.issued && Told(record.order, op, answer)
    case Saving(record, _, _) => record in s.issued
    case Draining(_, _) => true
    case Querying(id) => id in s.orders
  }

  /** No two threads hold an operation of the same order. */
  ghost predicate Exclusive(threads: map<nat, Stage>) {
    forall t, t' :: t in threads && t' in threads && t != t' && Holds(threads[t]) && Holds(threads[t'])
                    ==> IdOfOp(threads[t].op) != IdOfOp(threads[t'].op)
  }

  /** The journal is what the file holds, but for a record that was appended to a broken line. */
  ghost predicate FileOk(s: State) {
    && (!s.file.end.Blocked? ==>
          s.journal == Snapshots(s.file.lines)
                       + (if s.file.end.Joined? && s.file.end.record.Snapshot? then [s.file.end.record.record] else []))
    && (s.file.end.Unfinished? && s.file.end.record.Snapshot? ==> s.file.end.record.record in s.issued)
  }

  ghost predicate Safe(s: State) {
    && History(s.orders, s.issued, s.nextSequence)
    && (forall r :: r in s.journal ==> r in s.issued)
    && FileOk(s)
    && (forall t :: t in s.threads ==> StageOk(s, s.threads[t]))
    && Exclusive(s.threads)
    && (forall id :: id in s.active ==> id in s.orders)
  }

  lemma CarriesOwner(o: Order, op: Operation)
    requires Carries(o, op)
    ensures o.clientOrderId == IdOfOp(op)
  {
  }

  // ----- stages survive what other threads do -----

  lemma StageKept(s: State, s': State, stage: Stage)
    requires StageOk(s, stage)
    requires s.issued <= s'.issued
    requires stage.Querying? ==> stage.id in s'.orders
    requires Holds(stage) ==> OpLive(s', stage.op)
    ensures StageOk(s', stage)
  {
    hide OpLive, Carries, Told;
  }

  lemma OpLiveKept(s: State, s': State, op: Operation, id: string, o: Order)
    requires OpLive(s, op) && s'.orders == s.orders[id := o]
    requires IdOfOp(op) in s'.active
    requires IdOfOp(op) == id ==> SameRequests(s.orders[id], o)
    ensures OpLive(s', op)
  {
    hide KeyOf, FingerprintOf;
  }

  // ----- one mutation of one order by one thread -----

  /** What a locked section that stores order `o` does to the shared state. */
  ghost predicate Mutates(s: State, s': State, t: nat, id: string, o: Order) {
    && s'.orders == s.orders[id := o]
    && (|| (s'.issued == s.issued && s'.nextSequence == s.nextSequence)
        || (s'.issued == s.issued + {NextRecord(s, o)} && s'.nextSequence == s.nextSequence + 1))
    && s'.journal == s.journal && s'.file == s.file && s'.calls == s.calls && s'.answered == s.answered
    && t in s'.threads && s'.threads == s.threads[t := s'.threads[t]]
    && s'.active <= s.active + {id}
  }

  lemma MutationIsSafe(s: State, s': State, t: nat, id: string, o: Order)
    requires Safe(s) && Mutates(s, s', t, id, o) && Follows(s.orders, id, o)
    requires StageOk(s', s'.threads[t])
    requires forall t' :: t' in s.threads && t' != t && Holds(s.threads[t'])
               ==> && IdOfOp(s.threads[t'].op) in s'.active
                   && (IdOfOp(s.threads[t'].op) == id ==> id in s.orders && SameRequests(s.orders[id], o))
                   && (Holds(s'.threads[t]) ==> IdOfOp(s'.threads[t].op) != IdOfOp(s.threads[t'].op))
    ensures Safe(s')
  {
    hide History, Follows, StageOk, OpLive, SameRequests;
    if s'.issued == s.issued && s'.nextSequence == s.nextSequence {
      HistoryKeptByUpdate(s.orders, s.issued, s.nextSequence, id, o);
    } else {
      HistoryKeptByIssue(s.orders, s.issued, s.nextSequence, id, o);
    }
    forall t' | t' in s'.threads
      ensures StageOk(s', s'.threads[t'])
    {
      if t' != t {
        OtherStageKept(s, s', t', id, o);
      }
    }
  }

  lemma OtherStageKept(s: State, s': State, t: nat, id: string, o: Order)
    requires t in s.threads && StageOk(s, s.threads[t])
    requires s'.orders == s.orders[id := o] && s.issued <= s'.issued
    requires Holds(s.threads[t]) ==> IdOfOp(s.threads[t].op) in s'.active
    requires Holds(s.threads[t]) && IdOfOp(s.threads[t].op) == id ==> id in s.orders && SameRequests(s.orders[id], o)
    ensures StageOk(s', s.threads[t])
  {
    hide OpLive, SameRequests, Carries, Told;
    var stage := s.threads[t];
    if Holds(stage) {
      OpLiveKept(s, s', stage.op, id, o);
    }
    StageKept(s, s', stage);
  }

  lemma HolderIsActive(s: State, t: nat)
    requires Safe(s) && t in s.threads && Holds(s.threads[t])
    ensures OpLive(s, s.threads[t].op)
  {
    hide OpLive;
  }

  // ----- the first locked sections -----

  lemma PublishedIsSame(s: State)
    ensures var p := Publish(s);
            && p.orders == s.orders && p.issued == s.issued && p.nextSequence == s.nextSequence
            && p.journal == s.journal && p.file == s.file && p.calls == s.calls && p.answered == s.answered && p.threads == s.threads
            && p.active == s.active && p.deferred == s.deferred
            && p.exchangeIndex == s.exchangeIndex && p.clientIndex == s.clientIndex && p.positions == s.positions
  {
  }

  lemma PutFacts(s: State, id: string, o: Order)
    ensures var p := Put(s, id, o);
            && p.orders == s.orders[id := o] && p.issued == s.issued && p.nextSequence == s.nextSequence
            && p.journal == s.journal && p.file == s.file && p.calls == s.calls && p.answered == s.answered && p.threads == s.threads
            && p.active == s.active && p.deferred == s.deferred
            && p.exchangeIndex == s.exchangeIndex && p.clientIndex == s.clientIndex
  {
    hide Adjusted, Contribution;
  }

  lemma EnterFacts(s: State, t: nat, stage: Stage)
    ensures var e := Enter(s, t, stage);
            && e.threads == s.threads[t := stage] && e.orders == s.orders && e.active == s.active
            && e.journal == s.journal && e.file == s.file && e.calls == s.calls && e.deferred == s.deferred
            && e.exchangeIndex == s.exchangeIndex && e.clientIndex == s.clientIndex && e.answered == s.answered
  {
  }

  lemma PutReportedFacts(s: State, id: string, o: Order, r: Report)
    ensures var p := PutReported(s, id, o, r);
            && p.orders == s.orders[id := o] && p.issued == s.issued && p.nextSequence == s.nextSequence
            && p.journal == s.journal && p.file == s.file && p.calls == s.calls && p.answered == s.answered && p.threads == s.threads
            && p.active == s.active && p.deferred == s.deferred
  {
    hide Put, Indexed;
    PutFacts(s, id, o);
  }

  lemma NewOrderCarries(q: OrderRequest, decision: Risk.Decision, reason: string)
    ensures var o := NewOrder(q, decision, reason);
            Carries(o, PlaceOp(q)) && Keyed(o) && o.clientOrderId == q.clientOrderId
  {
    hide Fingerprints.CreateFingerprint;
  }

  lemma AdmitSafe(s: State, t: nat, q: OrderRequest, o: Order, admitted: bool)
    requires Safe(s) && t !in s.threads && q.clientOrderId !in s.orders
    requires Carries(o, PlaceOp(q)) && Keyed(o) && o.clientOrderId == q.clientOrderId
    ensures Safe(Admit(s, t, q, o, admitted))
  {
    hide Safe, Publish, Put, StageOk, Carries, Keyed, Extends;
    var s' := Admit(s, t, q, o, admitted);
    PutFacts(s, q.clientOrderId, o);
    PublishedIsSame(Put(s, q.clientOrderId, o));
    StartedStageOk(s', t, PlaceOp(q), NextRecord(s, o));
    forall t' | t' in s.threads && t' != t && Holds(s.threads[t'])
      ensures IdOfOp(s.threads[t'].op) in s.active && IdOfOp(s.threads[t'].op) in s.orders
    {
      HolderIsActive(s, t');
    }
    MutationIsSafe(s, s', t, q.clientOrderId, o);
  }

  lemma PlaceStartSafe(table: Risk.LimitTable, s: State, t: nat, q: OrderRequest, marketData: bool,
                       marketPrice: Option<int>, preflight: Risk.Decision, reason: string)
    requires Safe(s)
    ensures Safe(PlaceStart(table, s, t, q, marketData, marketPrice, preflight, reason))
  {
    hide Safe, PlaceDecision, NewOrder, Carries, Keyed, Admit;
    if t !in s.threads && q.clientOrderId !in s.orders {
      var decision := PlaceDecision(table, s, q, marketData, marketPrice, preflight);
      NewOrderCarries(q, decision, reason);
      AdmitSafe(s, t, q, NewOrder(q, decision, reason), decision == Risk.Accept);
    }
  }

  lemma StartedStageOk(s': State, t: nat, op: Operation, record: Record)
    requires t in s'.threads && record in s'.issued && Carries(record.order, op)
    requires s'.threads[t] == Prepared(op, record) ==>
               && IdOfOp(op) in s'.active && IdOfOp(op) in s'.orders && s'.orders[IdOfOp(op)] == record.order
               && (op.PlaceOp? || AwaitsOutcome(record.order, KeyOf(op)))
    requires s'.threads[t] == Prepared(op, record) || (s'.threads[t].Saving? && s'.threads[t].record == record)
    ensures StageOk(s', s'.threads[t])
  {
    hide Carries, KeyOf;
  }

  /** A cancel or amend that goes ahead: its request is recorded on the order before the venue hears of it. */
  lemma RequestStartSafe(s: State, s': State, t: nat, op: Operation, o: Order)
    requires Safe(s) && !op.PlaceOp? && t !in s.threads && IdOfOp(op) in s.orders && IdOfOp(op) !in s.active
    requires KeyOf(op) !in s.orders[IdOfOp(op)].processedRequests
    requires SameRequests(WithRequest(s.orders[IdOfOp(op)], KeyOf(op), FingerprintOf(op)), o)
    requires Mutates(s, s', t, IdOfOp(op), o) && s'.active == s.active + {IdOfOp(op)}
    requires NextRecord(s, o) in s'.issued && s'.threads[t] == Prepared(op, NextRecord(s, o))
    ensures Safe(s')
  {
    hide Safe, StageOk, WithRequest, KeyOf, FingerprintOf, Mutates;
    var id := IdOfOp(op);
    SafeOrder(s, id);
    WithRequestExtends(s.orders[id], KeyOf(op), FingerprintOf(op));
    MutatesParts(s, s', t, id, o);
    StartedStageOk(s', t, op, NextRecord(s, o));
    forall t' | t' in s.threads && t' != t && Holds(s.threads[t'])
      ensures IdOfOp(s.threads[t'].op) in s.active
    {
      HolderIsActive(s, t');
    }
    MutationIsSafe(s, s', t, id, o);
  }

  lemma MutatesParts(s: State, s': State, t: nat, id: string, o: Order)
    requires Mutates(s, s', t, id, o)
    ensures s'.orders == s.orders[id := o] && t in s'.threads
  {
  }

  lemma SafeOrder(s: State, id: string)
    requires Safe(s) && id in s.orders
    ensures s.orders[id].clientOrderId == id && Keyed(s.orders[id])
  {
    hide StageOk;
  }

  lemma CancelStartSafe(s: State, t: nat, q: CancelRequest)
    requires Safe(s)
    ensures Safe(CancelStart(s, t, q))
  {
    hide Safe, CancelKey, Fingerprints.CancelFingerprint, Fingerprints.CancelMatches, Publish, WithRequest;
    var s' := CancelStart(s, t, q);
    if s' != s {
      var id := q.clientOrderId;
      SafeOrder(s, id);
      var o := WithRequest(s.orders[id], CancelKey(q), Fingerprints.CancelFingerprint(q)).(pendingAction := Cancel);
      PublishedIsSame(s.(orders := s.orders[id := o], active := s.active + {id}));
      RequestStartSafe(s, s', t, CancelOp(q), o);
    }
  }

  lemma AmendStartSafe(table: Risk.LimitTable, s: State, t: nat, q: AmendRequest, legacy: string)
    requires Safe(s)
    ensures Safe(AmendStart(table, s, t, q, legacy))
  {
    hide Safe, AmendKey, Fingerprints.AmendFingerprint, Fingerprints.AmendMatches, Publish, WithRequest,
         Risk.CheckAmendWithPosition, PositionWithout;
    var s' := AmendStart(table, s, t, q, legacy);
    if s' != s {
      var id := q.clientOrderId;
      SafeOrder(s, id);
      var o := WithRequest(s.orders[id], AmendKey(q), Fingerprints.AmendFingerprint(q))
               .(pendingAction := Amend, pendingAmendPrice := q.newPrice, pendingAmendQuantity := q.newQuantity);
      PublishedIsSame(s.(orders := s.orders[id := o], active := s.active + {id}));
      RequestStartSafe(s, s', t, AmendOp(q), o);
    }
  }

  // ----- completion -----

  lemma HolderFacts(s: State, t: nat)
    requires Safe(s) && t in s.threads && s.threads[t].Answered?
    ensures var op := s.threads[t].op;
            && OpLive(s, op) && s.orders[IdOfOp(op)].clientOrderId == IdOfOp(op) && Keyed(s.orders[IdOfOp(op)])
            && forall t' :: t' in s.threads && t' != t && Holds(s.threads[t'])
                            ==> IdOfOp(s.threads[t'].op) != IdOfOp(op) && IdOfOp(s.threads[t'].op) in s.active
  {
    hide OpLive, Extends, Keyed;
    var op := s.threads[t].op;
    assert StageOk(s, s.threads[t]);
    assert IdOfOp(op) in s.orders by { OpLiveParts(s, op); }
    forall t' | t' in s.threads && t' != t && Holds(s.threads[t'])
      ensures IdOfOp(s.threads[t'].op) != IdOfOp(op) && IdOfOp(s.threads[t'].op) in s.active
    {
      assert StageOk(s, s.threads[t']);
      OpLiveParts(s, s.threads[t'].op);
    }
  }

  lemma OpLiveParts(s: State, op: Operation)
    requires OpLive(s, op)
    ensures IdOfOp(op) in s.active && IdOfOp(op) in s.orders && Carries(s.orders[IdOfOp(op)], op)
    ensures op.PlaceOp? || AwaitsOutcome(s.orders[IdOfOp(op)], KeyOf(op))
  {
  }

  lemma CompleteSafe(s: State, t: nat)
    requires Safe(s)
    ensures Safe(Complete(s, t))
  {
    hide Safe, CompletedOrder, Publish, CompletedExchangeIndex, CompletedClientIndex, ReportsToApply, KeyOf, AnswerOf,
         Adjusted, Extends, Keyed, Carries, Outcomes.Encode, OpLive;
    var s' := Complete(s, t);
    if s' != s {
      var op, result := s.threads[t].op, s.threads[t].result;
      var id := IdOfOp(op);
      HolderFacts(s, t);
      OpLiveParts(s, op);
      var o := CompletedOrder(s.orders[id], op, result);
      CompletedExtends(s.orders[id], op, result);
      CarriesIsKept(s.orders[id], o, op);
      CarriesOwner(o, op);
      var s1 := Put(s, id, o).(active := s.active - {id},
                               exchangeIndex := CompletedExchangeIndex(s, s.orders[id], op, result),
                               clientIndex := CompletedClientIndex(s, op, result),
                               deferred := if op.AmendOp? then s.deferred - {id} else s.deferred);
      PublishedIsSame(s1);
      assert StageOk(s', s'.threads[t]);
      MutationIsSafe(s, s', t, id, o);
    }
  }

  // ----- execution reports and reconciliation -----

  lemma OthersAreActive(s: State)
    requires Safe(s)
    ensures forall t :: t in s.threads && Holds(s.threads[t]) ==> IdOfOp(s.threads[t].op) in s.active
  {
    hide Safe, OpLive;
    forall t | t in s.threads && Holds(s.threads[t])
      ensures IdOfOp(s.threads[t].op) in s.active
    {
      HolderIsActive(s, t);
      OpLiveParts(s, s.threads[t].op);
    }
  }

  /** A thread that holds no operation stores an order whose requests did not change. */
  lemma ReportMutationSafe(s: State, s': State, t: nat, id: string, o: Order)
    requires Safe(s) && id in s.orders && SameRequests(s.orders[id], o)
    requires Mutates(s, s', t, id, o) && s'.active == s.active
    requires s'.threads[t].Draining? || (s'.threads[t].Saving? && s'.threads[t].record in s'.issued)
    ensures Safe(s')
  {
    hide Safe, SameRequests, Mutates;
    SafeOrder(s, id);
    OthersAreActive(s);
    assert Follows(s.orders, id, o) by { SameRequestsFollows(s.orders, id, o); }
    MutationIsSafe(s, s', t, id, o);
  }

  lemma SameRequestsFollows(orders: map<string, Order>, id: string, o: Order)
    requires id in orders && orders[id].clientOrderId == id && Keyed(orders[id]) && SameRequests(orders[id], o)
    ensures Follows(orders, id, o)
  {
  }

  /** Only the thread's own stage changes, and it holds no operation it did not hold before. */
  lemma StageChangeSafe(s: State, s': State, t: nat)
    requires Safe(s) && t in s'.threads && s' == s.(threads := s.threads[t := s'.threads[t]], deferred := s'.deferred)
    requires StageOk(s', s'.threads[t])
    requires Holds(s'.threads[t]) ==> t in s.threads && Holds(s.threads[t]) && s'.threads[t].op == s.threads[t].op
    ensures Safe(s')
  {
    hide History, OpLive, Carries, Told;
    forall t' | t' in s'.threads
      ensures StageOk(s', s'.threads[t'])
    {
      if t' != t {
        assert StageOk(s, s.threads[t']);
        OpLiveSame(s, s', s.threads[t']);
      }
    }
  }

  lemma OpLiveSame(s: State, s': State, stage: Stage)
    requires s' == s.(threads := s'.threads, deferred := s'.deferred) && StageOk(s, stage)
    ensures StageOk(s', stage)
  {
    hide Carries, Told;
  }

  lemma MergeReportSafe(s: State, t: nat, id: string, venue: Venue, r: Report, rest: seq<Report>)
    requires Safe(s) && id in s.orders
    ensures Safe(MergeReport(s, t, id, venue, r, rest))
  {
    hide Safe, ReportedOrder, Publish, PutReported, SameRequests, MustPersist;
    var o1 := ReportedOrder(s.orders[id], r);
    ReportKeepsRequests(s.orders[id], r);
    PutReportedFacts(s, id, o1, r);
    PublishedIsSame(PutReported(s, id, o1, r));
    ReportMutationSafe(s, MergeReport(s, t, id, venue, r, rest), t, id, o1);
  }

  lemma LocatedExists(s: State, venue: Venue, r: Report)
    ensures Locate(s, venue, r).Some? ==> Locate(s, venue, r).value in s.orders
  {
  }

  lemma ApplyExecutionSafe(s: State, t: nat, venue: Venue, r: Report, rest: seq<Report>)
    requires Safe(s)
    ensures Safe(ApplyExecution(s, t, venue, r, rest))
  {
    hide Safe, Locate, MustDefer, Machine.Outcome, MergeReport;
    var s' := ApplyExecution(s, t, venue, r, rest);
    var located := Locate(s, venue, r);
    LocatedExists(s, venue, r);
    if located.None? || MustDefer(venue, s.orders[located.value], r)
       || Machine.Outcome(s.orders[located.value], r).disposition == Machine.Invalid {
      StageChangeSafe(s, s', t);
    } else {
      MergeReportSafe(s, t, located.value, venue, r, rest);
    }
  }

  lemma QueryStartSafe(s: State, t: nat, id: string)
    requires Safe(s)
    ensures Safe(QueryStart(s, t, id))
  {
    hide Safe;
    if QueryStart(s, t, id) != s {
      StageChangeSafe(s, QueryStart(s, t, id), t);
    }
  }

  lemma QueryAnswersSafe(s: State, t: nat, answer: Option<Report>)
    requires Safe(s)
    ensures Safe(QueryAnswers(s, t, answer))
  {
    hide Safe, ApplyExecution, Mutates;
    var s' := QueryAnswers(s, t, answer);
    if t in s.threads && s.threads[t].Querying? && s.threads[t].id in s.orders {
      var id := s.threads[t].id;
      match answer
      case Some(r) => ApplyExecutionSafe(s, t, s.orders[id].venue, r, []);
      case None =>
        var o := NullQueried(s.orders[id]);
        assert Mutates(s, s', t, id, o) by { NullQueryMutates(s, t); }
        ReportMutationSafe(s, s', t, id, o);
    }
  }

  lemma NullQueryMutates(s: State, t: nat)
    requires t in s.threads && s.threads[t].Querying? && s.threads[t].id in s.orders
    ensures Mutates(s, QueryAnswers(s, t, None), t, s.threads[t].id, NullQueried(s.orders[s.threads[t].id]))
  {
  }

  lemma LeaveSafe(s: State, t: nat)
    requires Safe(s) && t in s.threads
    ensures Safe(Leave(s, t))
  {
    hide History, OpLive, Carries, Told;
    var s' := Leave(s, t);
    forall t' | t' in s'.threads
      ensures StageOk(s', s'.threads[t'])
    {
      assert StageOk(s, s.threads[t']);
      OpLiveSame(s, s', s.threads[t']);
    }
  }

  lemma ApplyNextSafe(s: State, t: nat)
    requires Safe(s)
    ensures Safe(ApplyNext(s, t))
  {
    hide Safe, ApplyExecution, Leave;
    if t in s.threads && s.threads[t].Draining? {
      var stage := s.threads[t];
      if stage.reports == [] {
        LeaveSafe(s, t);
      } else {
        ApplyExecutionSafe(s, t, stage.venue, stage.reports[0], stage.reports[1..]);
      }
    }
  }

  lemma EventLoggedSafe(s: State, extent: Extent)
    requires Safe(s)
    ensures Safe(EventLogged(s, extent))
  {
    hide OpLive, Carries, Told, History;
    var s' := EventLogged(s, extent);
    WrittenKeepsFile(s, s', Event, extent);
    HistoryKeptByTime(s.orders, s.issued, s.nextSequence, s'.nextSequence);
    forall t | t in s'.threads
      ensures StageOk(s', s'.threads[t])
    {
      assert StageOk(s, s.threads[t]);
      OpLiveUnchanged(s, s', s.threads[t]);
      StageKept(s, s', s.threads[t]);
    }
  }

  lemma OpLiveUnchanged(s: State, s': State, stage: Stage)
    requires s'.orders == s.orders && s'.active == s.active
    ensures Holds(stage) && OpLive(s, stage.op) ==> OpLive(s', stage.op)
  {
    hide Carries;
  }

  // ----- appends, venue calls -----

  lemma SnapshotsGrow(entries: seq<Entry>, entry: Entry)
    ensures Snapshots(entries + [entry]) == Snapshots(entries) + (if entry.Snapshot? then [entry.record] else [])
  {
    assert (entries + [entry])[..|entries|] == entries;
  }

  /** Whatever part of an entry is written, the journal gains it exactly when all of it is. */
  lemma WrittenKeepsFile(s: State, s': State, entry: Entry, extent: Extent)
    requires FileOk(s) && s'.file == Written(s.file, entry, extent) && s'.issued == s.issued
    requires s'.journal == s.journal + if extent.Everything? && entry.Snapshot? then [entry.record] else []
    requires entry.Snapshot? ==> entry.record in s.issued
    ensures FileOk(s')
  {
    hide Snapshots;
    SnapshotsGrow(s.file.lines, entry);
  }

  lemma JournalGrowthSafe(s: State, record: Record)
    requires Safe(s) && record in s.issued
    ensures Safe(Filed(s, record))
  {
    hide OpLive, Carries, Told, History, FileOk;
    var s' := Filed(s, record);
    WrittenKeepsFile(s, s', Snapshot(record), Everything);
    forall t | t in s'.threads
      ensures StageOk(s', s'.threads[t])
    {
      assert StageOk(s, s.threads[t]);
      OpLiveUnchanged(s, s', s.threads[t]);
    }
  }

  lemma AnswerSafe(s: State, op: Operation, answer: Outcomes.Answer)
    requires Safe(s)
    ensures Safe(s.(answered := s.answered[op := answer]))
  {
    hide OpLive, Carries, Told, History, FileOk;
    var s' := s.(answered := s.answered[op := answer]);
    SameFileOk(s, s');
    forall t | t in s'.threads
      ensures StageOk(s', s'.threads[t])
    {
      assert StageOk(s, s.threads[t]);
      OpLiveUnchanged(s, s', s.threads[t]);
    }
  }

  lemma SameFileOk(s: State, s': State)
    requires FileOk(s) && s'.file == s.file && s'.journal == s.journal && s.issued <= s'.issued
    ensures FileOk(s')
  {
  }

  lemma AppendSafe(s: State, t: nat)
    requires Safe(s)
    ensures Safe(Append(s, t))
  {
    hide Safe, OpLive, Carries, Told, Filed;
    if t in s.threads && HasRecordToAppend(s.threads[t]) {
      var stage := s.threads[t];
      StageOf(s, t);
      var s1 := Filed(s, stage.record);
      FiledFacts(s, stage.record);
      JournalGrowthSafe(s, stage.record);
      if stage.Prepared? {
        OpLiveUnchanged(s, Enter(s1, t, Recorded(stage.op)), stage);
        StageChangeSafe(s1, Enter(s1, t, Recorded(stage.op)), t);
      } else {
        var s2 := Enter(s1, t, if stage.Saving? then Draining(stage.venue, stage.reports)
                               else Draining(stage.record.order.venue, stage.reports));
        StageChangeSafe(s1, s2, t);
        if stage.Finishing? && !stage.op.PlaceOp? {
          AnswerSafe(s2, stage.op, stage.answer);
        }
      }
    }
  }

  /** What appending a record leaves alone. */
  lemma FiledFacts(s: State, record: Record)
    ensures var f := Filed(s, record);
            && f == s.(journal := s.journal + [record], file := f.file)
            && f.orders == s.orders && f.active == s.active && f.threads == s.threads && f.issued == s.issued
            && f.exchangeIndex == s.exchangeIndex && f.clientIndex == s.clientIndex && f.deferred == s.deferred
            && f.positions == s.positions && f.snapshot == s.snapshot && f.calls == s.calls && f.answered == s.answered
  {
    hide Written;
  }

  lemma StageOf(s: State, t: nat)
    requires Safe(s) && t in s.threads
    ensures StageOk(s, s.threads[t])
  {
    hide StageOk;
  }

  lemma CallVenueSafe(s: State, t: nat)
    requires Safe(s)
    ensures Safe(CallVenue(s, t))
  {
    hide OpLive, Carries, Told, History, FileOk;
    var s' := CallVenue(s, t);
    if s' != s {
      SameFileOk(s, s');
      forall t' | t' in s'.threads
        ensures StageOk(s', s'.threads[t'])
      {
        assert StageOk(s, s.threads[t']);
        OpLiveUnchanged(s, s', s.threads[t']);
      }
    }
  }

  lemma VenueAnswersSafe(s: State, t: nat, result: AdapterResult)
    requires Safe(s)
    ensures Safe(VenueAnswers(s, t, result))
  {
    hide Safe, OpLive, Carries;
    var s' := VenueAnswers(s, t, result);
    if s' != s {
      StageOf(s, t);
      OpLiveUnchanged(s, s', s.threads[t]);
      StageChangeSafe(s, s', t);
    }
  }

  // ----- crash -----

  /** Whatever a restart finds was issued before, and the file is then the journal again. */
  lemma SurvivorsAreIssued(s: State)
    requires Safe(s)
    ensures forall r :: r in Survivors(s) ==> r in s.issued
  {
    hide Snapshots, History, StageOk, Exclusive;
    if s.file.end.Unfinished? {
      SnapshotsGrow(s.file.lines, s.file.end.record);
    }
  }

  lemma CrashSafe(s: State, list: seq<Order>, events: nat)
    requires Safe(s)
    ensures Safe(Crash(s, list, events))
  {
    hide Lists, RebuiltExchangeIndex, RebuiltClientIndex, RebuiltPositions, History, StageOk, FileOk, Reloaded;
    if Crash(s, list, events) != s {
      SurvivorsAreIssued(s);
      HistoryKeptByCrash(s.orders, s.issued, s.nextSequence, Survivors(s), events);
      assert FileOk(Crash(s, list, events)) by { ReloadedFileOk(s, list, events); }
    }
  }

  lemma ReloadedFileOk(s: State, list: seq<Order>, events: nat)
    requires Crash(s, list, events) != s
    ensures FileOk(Crash(s, list, events))
  {
    hide Lists, RebuiltExchangeIndex, RebuiltClientIndex, RebuiltPositions, RecoveredOrders, Reloaded, Snapshots;
  }

  // ----- every run -----

  lemma ExecSafe(table: Risk.LimitTable, s: State, step: Step)
    requires Safe(s)
    ensures Safe(Exec(table, s, step))
  {
    hide Safe, PlaceStart, CancelStart, AmendStart, Append, AppendFails, CallVenue, VenueAnswers, Complete, ApplyNext,
         ApplyExecution, QueryStart, QueryAnswers, EventLogged, Crash;
    match step
    case DoPlaceStart(t, q, marketData, marketPrice, preflight, reason) =>
      PlaceStartSafe(table, s, t, q, marketData, marketPrice, preflight, reason);
    case DoCancelStart(t, c) => CancelStartSafe(s, t, c);
    case DoAmendStart(t, a, legacy) => AmendStartSafe(table, s, t, a, legacy);
    case DoAppend(t) => AppendSafe(s, t);
    case DoAppendFails(t, extent) => AppendFailsSafe(s, t, extent);
    case DoCallVenue(t) => CallVenueSafe(s, t);
    case DoVenueAnswers(t, result) => VenueAnswersSafe(s, t, result);
    case DoComplete(t) => CompleteSafe(s, t);
    case DoStreamReport(t, venue, r) => ApplyExecutionSafe(s, t, venue, r, []);
    case DoApplyNext(t) => ApplyNextSafe(s, t);
    case DoQueryStart(t, id) => QueryStartSafe(s, t, id);
    case DoQueryAnswers(t, answer) => QueryAnswersSafe(s, t, answer);
    case DoEventLogged(extent) => EventLoggedSafe(s, extent);
    case DoCrash(list, events) => CrashSafe(s, list, events);
  }

  lemma AppendFailsSafe(s: State, t: nat, extent: Extent)
    requires Safe(s)
    ensures Safe(AppendFails(s, t, extent))
  {
    hide Safe, Leave;
    if t in s.threads && HasRecordToAppend(s.threads[t]) && !extent.Everything? {
      var s1 := s.(file := Written(s.file, Snapshot(s.threads[t].record), extent));
      PartWrittenSafe(s, t, extent);
      LeaveSafe(s1, t);
    }
  }

  lemma PartWrittenSafe(s: State, t: nat, extent: Extent)
    requires Safe(s) && t in s.threads && HasRecordToAppend(s.threads[t]) && !extent.Everything?
    ensures Safe(s.(file := Written(s.file, Snapshot(s.threads[t].record), extent)))
  {
    hide OpLive, Carries, Told, History, FileOk;
    var s' := s.(file := Written(s.file, Snapshot(s.threads[t].record), extent));
    assert StageOk(s, s.threads[t]);
    WrittenKeepsFile(s, s', Snapshot(s.threads[t].record), extent);
    forall t' | t' in s'.threads
      ensures StageOk(s', s'.threads[t'])
    {
      assert StageOk(s, s.threads[t']);
      OpLiveUnchanged(s, s', s.threads[t']);
    }
  }

  lemma {:induction false} EveryRunIsSafe(table: Risk.LimitTable, steps: seq<Step>)
    ensures Safe(After(table, steps))
  {
    hide Exec;
    if steps != [] {
      EveryRunIsSafe(table, steps[..|steps| - 1]);
      ExecSafe(table, After(table, steps[..|steps| - 1]), steps[|steps| - 1]);
    }
  }
}
