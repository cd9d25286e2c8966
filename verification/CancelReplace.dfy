/**
 Cancel-replace: one canonical order spans several venue orders ("generations"). An accepted
 replacement fixes the old generation's final fill as the new generation's offset. The theorems
 compare the canonical fill with what the venue really filled, over chains of any length.
 */
module CancelReplace {
  import opened Wrappers
  import opened Orders
  import opened OrderStateMachine
  import opened Lifecycle

  // ----- the accepted-replacement section of amend -----

  /** The largest fill the authoritative reports give for the replaced venue order. */
  function FinalOldFill(reports: seq<Report>, oldId: string, offset: int, filled: int): (r: int)
    ensures r >= filled
    decreases |reports|
  {
    if reports == [] then filled
    else FinalOldFill(reports[1..], oldId, offset,
                      if reports[0].exchangeOrderId == oldId then Max(filled, offset + reports[0].cumulativeFilled)
                      else filled)
  }

  function FinalOldQuote(reports: seq<Report>, oldId: string, offset: int, quote: int): (r: int)
    ensures r >= quote
    decreases |reports|
  {
    if reports == [] then quote
    else FinalOldQuote(reports[1..], oldId, offset,
                       if reports[0].exchangeOrderId == oldId && reports[0].cumulativeQuote.Some?
                       then Max(quote, offset + reports[0].cumulativeQuote.value) else quote)
  }

  /** The total quantity the venue confirmed for the replacement: the last such report wins. */
  function ActualQuantity(reports: seq<Report>, newId: string, oldFill: int, pending: Option<int>): Option<int>
    decreases |reports|
  {
    if reports == [] then pending
    else ActualQuantity(reports[1..], newId, oldFill,
                        if reports[0].exchangeOrderId == newId && reports[0].orderQuantity.Some?
                           && reports[0].status != Canceled
                        then Some(oldFill + reports[0].orderQuantity.value) else pending)
  }

  /** Offset recorded for a venue id; unlike OffsetFor it also answers for the empty id. */
  function RecordedOffset(offsets: map<string, int>, id: string): int {
    if id in offsets then offsets[id] else 0
  }

  function WithOffset(offsets: map<string, int>, oldId: string, oldOffset: int, newId: string, newOffset: int): map<string, int> {
    var kept := if oldId == "" || oldId in offsets then offsets else offsets[oldId := oldOffset];
    if newId == "" then kept else kept[newId := newOffset]
  }

  function Replace(o: Order, newId: string, reports: seq<Report>): Order {
    var oldId := o.exchangeOrderId;
    var fillOffset, quoteOffset := RecordedOffset(o.fillOffsets, oldId), RecordedOffset(o.quoteOffsets, oldId);
    var fill := FinalOldFill(reports, oldId, fillOffset, o.filledQuantity);
    var quote := FinalOldQuote(reports, oldId, quoteOffset, o.cumulativeQuote);
    o.(exchangeOrderIdAliases := if oldId == "" then o.exchangeOrderIdAliases else o.exchangeOrderIdAliases + {oldId},
       fillOffsets := WithOffset(o.fillOffsets, oldId, fillOffset, newId, fill),
       quoteOffsets := WithOffset(o.quoteOffsets, oldId, quoteOffset, newId, quote),
       filledQuantity := fill,
       cumulativeQuote := quote,
       exchangeOrderId := newId,
       status := if fill > 0 then PartiallyFilled else Live,
       pendingAmendQuantity := ActualQuantity(reports, newId, fill, o.pendingAmendQuantity))
  }

  // ----- what the venue really did -----

  /** Ground truth beside the canonical order: each generation's venue id and its real fill. */
  datatype Chain = Chain(order: Order, ids: seq<string>, fills: seq<int>, reported: int)

  datatype Event =
    | VenueFills(amount: nat)                            // the live generation trades
    | Delivered(generation: nat, report: Report)         // a report of any generation arrives
    | Replaced(newId: string, reports: seq<Report>)      // the venue accepts a cancel-replace

  function Sum(fills: seq<int>): int {
    if fills == [] then 0 else Sum(fills[..|fills| - 1]) + fills[|fills| - 1]
  }

  function Last(c: Chain): nat
    requires c.ids != []
  {
    |c.ids| - 1
  }

  /** The report is of this generation and does not exaggerate its fill. */
  predicate HonestFill(c: Chain, g: nat, r: Report)
    requires |c.fills| == |c.ids|
  {
    g < |c.ids| && r.exchangeOrderId == c.ids[g] && r.cumulativeFilled <= c.fills[g]
  }

  /** A report that makes a filled order larger than all the venue filled. */
  predicate Enlarges(c: Chain, r: Report) {
    c.order.status == Filled && Accepts(c.order, r) && MergedQuantity(c.order, r) > Sum(c.fills)
  }

  /** Reports never exaggerate their generation's fill nor enlarge a filled order beyond the venue; ids are fresh. */
  predicate Honest(c: Chain, e: Event)
    requires c.ids != [] && |c.fills| == |c.ids|
  {
    match e
    case VenueFills(_) => true
    case Delivered(g, r) => HonestFill(c, g, r) && !Enlarges(c, r)
    case Replaced(newId, reports) =>
      && newId != "" && newId !in c.ids
      && forall i :: 0 <= i < |reports| && reports[i].exchangeOrderId == c.ids[Last(c)]
                     ==> reports[i].cumulativeFilled <= c.fills[Last(c)]
  }

  /** Nothing is lost: each replacement carries the old generation's final fill, quantities hold. */
  predicate Complete(c: Chain, e: Event)
    requires c.ids != [] && |c.fills| == |c.ids|
  {
    match e
    case VenueFills(_) => true
    case Delivered(g, r) => Accepts(c.order, r) ==> MergedQuantity(c.order, r) >= c.order.filledQuantity
    case Replaced(newId, reports) =>
      exists i :: 0 <= i < |reports| && reports[i].exchangeOrderId == c.ids[Last(c)]
                  && reports[i].cumulativeFilled == c.fills[Last(c)]
  }

  function Step(c: Chain, e: Event): Chain
    requires c.ids != [] && |c.fills| == |c.ids|
  {
    match e
    case VenueFills(amount) => c.(fills := c.fills[Last(c) := c.fills[Last(c)] + amount])
    case Delivered(g, r) =>
      c.(order := ApplyReport(c.order, r),
         reported := if Accepts(c.order, r) && g == Last(c) then Max(c.reported, r.cumulativeFilled) else c.reported)
    case Replaced(newId, reports) =>
      Chain(Replace(c.order, newId, reports), c.ids + [newId], c.fills + [0], 0)
  }

  /** Never above the venue: every generation's offset is at most what earlier ones filled. */
  ghost predicate Bounded(c: Chain) {
    && c.ids != [] && |c.fills| == |c.ids|
    && (forall i :: 0 <= i < |c.ids| ==> c.ids[i] != "" && c.fills[i] >= 0)
    && (forall i, j :: 0 <= i < j < |c.ids| ==> c.ids[i] != c.ids[j])
    && c.order.exchangeOrderId == c.ids[Last(c)]
    && (forall i :: 0 <= i < Last(c) ==> c.ids[i] in c.order.exchangeOrderIdAliases)
    && (forall i :: 0 <= i < |c.ids| ==> OffsetFor(c.order.fillOffsets, c.ids[i]) <= Sum(c.fills[..i]))
    && c.order.filledQuantity <= Sum(c.fills)
    && (c.order.status == Filled ==> c.order.filledQuantity == c.order.quantity)
  }

  /** Nothing missing: offsets are exact and what was reported of the live generation is counted. */
  ghost predicate Exact(c: Chain) {
    && Bounded(c)
    && (forall i :: 0 <= i < |c.ids| ==> OffsetFor(c.order.fillOffsets, c.ids[i]) == Sum(c.fills[..i]))
    && Sum(c.fills[..Last(c)]) + c.reported <= c.order.filledQuantity
    && 0 <= c.reported <= c.fills[Last(c)]
  }

  // ----- sums of prefixes -----

  lemma {:induction false} SumPrefix(fills: seq<int>, i: nat)
    requires i < |fills|
    ensures Sum(fills[..i + 1]) == Sum(fills[..i]) + fills[i]
  {
    assert fills[..i + 1][..i] == fills[..i];
  }

  lemma {:induction false} SumMonotone(fills: seq<int>, i: nat)
    requires i <= |fills| && forall k :: 0 <= k < |fills| ==> fills[k] >= 0
    ensures Sum(fills[..i]) <= Sum(fills)
    decreases |fills| - i
  {
    if i == |fills| {
      assert fills[..i] == fills;
    } else {
      SumMonotone(fills, i + 1);
      SumPrefix(fills, i);
    }
  }

  // ----- one event -----

  lemma OldFillBound(reports: seq<Report>, oldId: string, offset: int, filled: int, bound: int)
    requires filled <= bound
    requires forall i :: 0 <= i < |reports| && reports[i].exchangeOrderId == oldId
                         ==> offset + reports[i].cumulativeFilled <= bound
    ensures FinalOldFill(reports, oldId, offset, filled) <= bound
    decreases |reports|
  {
    if reports != [] {
      var next := if reports[0].exchangeOrderId == oldId then Max(filled, offset + reports[0].cumulativeFilled) else filled;
      OldFillBound(reports[1..], oldId, offset, next, bound);
    }
  }

  lemma OldFillReached(reports: seq<Report>, oldId: string, offset: int, filled: int, i: nat)
    requires i < |reports| && reports[i].exchangeOrderId == oldId
    ensures FinalOldFill(reports, oldId, offset, filled) >= offset + reports[i].cumulativeFilled
    decreases |reports|
  {
    var next := if reports[0].exchangeOrderId == oldId then Max(filled, offset + reports[0].cumulativeFilled) else filled;
    if i > 0 {
      OldFillReached(reports[1..], oldId, offset, next, i - 1);
    }
  }

  lemma AcceptedBound(o: Order, r: Report, bound: int)
    requires Accepts(o, r) && o.filledQuantity <= bound && Aggregate(o, r) <= bound
    requires o.status == Filled ==> o.filledQuantity == o.quantity && MergedQuantity(o, r) <= bound
    ensures Merge(o, r).filledQuantity <= bound
    ensures Merge(o, r).status == Filled ==> Merge(o, r).filledQuantity == Merge(o, r).quantity
  {
    hide Merge;
    MergeFacts(o, r);
  }

  /** A report of any generation leaves ledger, venue id and offsets alone. */
  lemma DeliveredFrame(c: Chain, g: nat, r: Report)
    requires Bounded(c) && Honest(c, Delivered(g, r))
    ensures var c' := Step(c, Delivered(g, r));
            && c'.ids == c.ids && c'.fills == c.fills && c'.order.exchangeOrderId == c.order.exchangeOrderId
            && c'.order.exchangeOrderIdAliases == c.order.exchangeOrderIdAliases
            && c'.order.fillOffsets == c.order.fillOffsets
            && c'.order == (if Accepts(c.order, r) then Merge(c.order, r) else c.order)
  {
    hide Merge, ApplyReport, Sum, OffsetFor, MergedQuantity, MergedStatus, MergedQuote, MergedSequence, Accepts, Aggregate;
    ApplyCases(c.order, r);
    MergeFacts(c.order, r);
    MergeFrame(c.order, r);
  }

  /** What a report can claim lies within the venue's total. */
  lemma ClaimWithinTotal(c: Chain, g: nat, r: Report)
    requires Bounded(c) && Honest(c, Delivered(g, r))
    ensures Aggregate(c.order, r) <= Sum(c.fills)
  {
    hide OffsetFor, MergedQuantity;
    SumPrefix(c.fills, g);
    SumMonotone(c.fills, g + 1);
  }

  /**
   Of the reports that do not exaggerate, exactly those that enlarge a filled order beyond the venue's total
   lift the canonical fill above it: a filled order takes a larger quantity for its fill.
   */
  lemma EnlargingExceedsExactly(c: Chain, g: nat, r: Report)
    requires Bounded(c) && HonestFill(c, g, r)
    ensures var fill := ApplyReport(c.order, r).filledQuantity;
            && (fill > Sum(c.fills) <==> Enlarges(c, r))
            && (Enlarges(c, r) ==> fill == MergedQuantity(c.order, r))
  {
    hide Merge, ApplyReport, Sum, OffsetFor;
    ApplyCases(c.order, r);
    MergeFacts(c.order, r);
    if !Enlarges(c, r) {
      ClaimWithinTotal(c, g, r);
    }
  }

  lemma DeliveredBounded(c: Chain, g: nat, r: Report)
    requires Bounded(c) && Honest(c, Delivered(g, r))
    ensures Bounded(Step(c, Delivered(g, r)))
  {
    hide Merge, Step, Sum, OffsetFor, Aggregate, Accepts, MergedQuantity;
    DeliveredFrame(c, g, r);
    ClaimWithinTotal(c, g, r);
    if Accepts(c.order, r) {
      AcceptedBound(c.order, r, Sum(c.fills));
    }
  }

  /** The venue's ledger after a trade of the live generation. */
  lemma VenueFillLedger(c: Chain, amount: nat)
    requires c.ids != [] && |c.fills| == |c.ids|
    ensures var fills := Step(c, VenueFills(amount)).fills;
            && |fills| == |c.fills| && fills[Last(c)] == c.fills[Last(c)] + amount
            && (forall i :: 0 <= i < Last(c) ==> fills[i] == c.fills[i])
            && Sum(fills) == Sum(c.fills) + amount
    ensures forall i :: 0 <= i < |c.ids| ==> Step(c, VenueFills(amount)).fills[..i] == c.fills[..i]
  {
    var fills := Step(c, VenueFills(amount)).fills;
    assert fills[..|fills| - 1] == c.fills[..|c.fills| - 1];
    forall i | 0 <= i < |c.ids|
      ensures fills[..i] == c.fills[..i]
    {
    }
  }

  lemma VenueFillBounded(c: Chain, amount: nat)
    requires Bounded(c)
    ensures Bounded(Step(c, VenueFills(amount)))
    ensures Sum(Step(c, VenueFills(amount)).fills) == Sum(c.fills) + amount
    ensures forall i :: 0 <= i < |c.ids| ==> Step(c, VenueFills(amount)).fills[..i] == c.fills[..i]
  {
    hide OffsetFor, Sum, Step;
    VenueFillLedger(c, amount);
    VenueFillFrame(c, amount);
  }

  lemma VenueFillFrame(c: Chain, amount: nat)
    requires c.ids != [] && |c.fills| == |c.ids|
    ensures var c' := Step(c, VenueFills(amount));
            c'.ids == c.ids && c'.order == c.order && c'.reported == c.reported
  {
  }

  /** The replaced generation's final fill lies between what was known and what the venue filled. */
  lemma ReplacedFill(c: Chain, newId: string, reports: seq<Report>)
    requires Bounded(c) && Honest(c, Replaced(newId, reports))
    ensures var oldId := c.ids[Last(c)];
            var fill := FinalOldFill(reports, oldId, RecordedOffset(c.order.fillOffsets, oldId), c.order.filledQuantity);
            c.order.filledQuantity <= fill <= Sum(c.fills) && Step(c, Replaced(newId, reports)).order.filledQuantity == fill
  {
    var oldId := c.ids[Last(c)];
    var offset := RecordedOffset(c.order.fillOffsets, oldId);
    assert offset == OffsetFor(c.order.fillOffsets, oldId) <= Sum(c.fills[..Last(c)]);
    OldFillBound(reports, oldId, offset, c.order.filledQuantity, Sum(c.fills));
  }

  lemma WithOffsetFacts(offsets: map<string, int>, oldId: string, newId: string, newOffset: int, id: string)
    requires newId != ""
    ensures var updated := WithOffset(offsets, oldId, RecordedOffset(offsets, oldId), newId, newOffset);
            && OffsetFor(updated, newId) == newOffset
            && (id != newId ==> OffsetFor(updated, id) == OffsetFor(offsets, id))
  {
  }

  /** The ledger after a replacement: earlier offsets stay, the new one is the old final fill. */
  lemma ReplacedOffsets(c: Chain, newId: string, reports: seq<Report>)
    requires Bounded(c) && Honest(c, Replaced(newId, reports))
    ensures var c' := Step(c, Replaced(newId, reports));
            && (forall i :: 0 <= i < |c.ids| ==>
                  && OffsetFor(c'.order.fillOffsets, c'.ids[i]) == OffsetFor(c.order.fillOffsets, c.ids[i])
                  && c'.fills[..i] == c.fills[..i])
            && OffsetFor(c'.order.fillOffsets, newId) == c'.order.filledQuantity
            && c'.fills[..|c.ids|] == c.fills && Sum(c'.fills) == Sum(c.fills)
  {
    hide WithOffset, OffsetFor, RecordedOffset;
    var c' := Step(c, Replaced(newId, reports));
    var oldId := c.order.exchangeOrderId;
    assert c'.fills[..|c'.fills| - 1] == c.fills;
    forall i | 0 <= i < |c.ids|
      ensures OffsetFor(c'.order.fillOffsets, c'.ids[i]) == OffsetFor(c.order.fillOffsets, c.ids[i])
      ensures c'.fills[..i] == c.fills[..i]
    {
      assert c'.ids[i] == c.ids[i] != newId;
      WithOffsetFacts(c.order.fillOffsets, oldId, newId, c'.order.filledQuantity, c.ids[i]);
    }
    WithOffsetFacts(c.order.fillOffsets, oldId, newId, c'.order.filledQuantity, oldId);
  }

  lemma ReplacedShape(c: Chain, newId: string, reports: seq<Report>)
    requires c.ids != [] && |c.fills| == |c.ids| && c.order.exchangeOrderId == c.ids[Last(c)] != ""
    ensures var c' := Step(c, Replaced(newId, reports));
            && |c'.ids| == |c'.fills| == |c.ids| + 1
            && (forall i :: 0 <= i < |c.ids| ==> c'.ids[i] == c.ids[i] && c'.fills[i] == c.fills[i])
            && c'.ids[|c.ids|] == newId == c'.order.exchangeOrderId && c'.fills[|c.ids|] == 0
            && c'.order.exchangeOrderIdAliases == c.order.exchangeOrderIdAliases + {c.ids[Last(c)]}
            && c'.order.status != Filled && c'.reported == 0
  {
  }

  lemma ReplacedBounded(c: Chain, newId: string, reports: seq<Report>)
    requires Bounded(c) && Honest(c, Replaced(newId, reports))
    ensures Bounded(Step(c, Replaced(newId, reports)))
  {
    hide WithOffset, OffsetFor, RecordedOffset, Step, Replace, Sum, FinalOldFill;
    ReplacedFill(c, newId, reports);
    ReplacedOffsets(c, newId, reports);
    ReplacedShape(c, newId, reports);
    var c' := Step(c, Replaced(newId, reports));
    forall i | 0 <= i < |c'.ids|
      ensures OffsetFor(c'.order.fillOffsets, c'.ids[i]) <= Sum(c'.fills[..i])
    {
    }
  }

  lemma StepBounded(c: Chain, e: Event)
    requires Bounded(c) && Honest(c, e)
    ensures Bounded(Step(c, e))
  {
    hide Bounded, Step;
    match e
    case VenueFills(amount) => VenueFillBounded(c, amount);
    case Delivered(g, r) => DeliveredBounded(c, g, r);
    case Replaced(newId, reports) => ReplacedBounded(c, newId, reports);
  }

  lemma AcceptedFloor(o: Order, r: Report)
    requires Accepts(o, r) && MergedQuantity(o, r) >= o.filledQuantity
    ensures Merge(o, r).filledQuantity >= o.filledQuantity && Merge(o, r).filledQuantity >= Aggregate(o, r)
  {
    hide Merge;
    MergeFacts(o, r);
  }

  lemma DeliveredReported(c: Chain, g: nat, r: Report)
    requires c.ids != [] && |c.fills| == |c.ids| && g < |c.ids|
    ensures Step(c, Delivered(g, r)).reported
            == if Accepts(c.order, r) && g == Last(c) then Max(c.reported, r.cumulativeFilled) else c.reported
  {
    hide Accepts, ApplyReport;
  }

  lemma DeliveredExact(c: Chain, g: nat, r: Report)
    requires Exact(c) && Honest(c, Delivered(g, r)) && Complete(c, Delivered(g, r))
    ensures Exact(Step(c, Delivered(g, r)))
  {
    hide Merge, Step, Sum, OffsetFor, Accepts, MergedQuantity;
    DeliveredBounded(c, g, r);
    DeliveredFrame(c, g, r);
    DeliveredReported(c, g, r);
    if Accepts(c.order, r) {
      AcceptedFloor(c.order, r);
    }
  }

  /** A replacement that carries the old final fill leaves the canonical fill at the venue's total. */
  lemma ReplacedFillExact(c: Chain, newId: string, reports: seq<Report>)
    requires Exact(c) && Honest(c, Replaced(newId, reports)) && Complete(c, Replaced(newId, reports))
    ensures Step(c, Replaced(newId, reports)).order.filledQuantity == Sum(c.fills)
  {
    ReplacedFill(c, newId, reports);
    var oldId := c.ids[Last(c)];
    var offset := RecordedOffset(c.order.fillOffsets, oldId);
    var k :| 0 <= k < |reports| && reports[k].exchangeOrderId == oldId && reports[k].cumulativeFilled == c.fills[Last(c)];
    OldFillReached(reports, oldId, offset, c.order.filledQuantity, k);
    assert offset == OffsetFor(c.order.fillOffsets, oldId);
  }

  lemma ReplacedExact(c: Chain, newId: string, reports: seq<Report>)
    requires Exact(c) && Honest(c, Replaced(newId, reports)) && Complete(c, Replaced(newId, reports))
    ensures Exact(Step(c, Replaced(newId, reports)))
  {
    hide WithOffset, OffsetFor, RecordedOffset, Step, Replace, Sum, FinalOldFill;
    ReplacedFillExact(c, newId, reports);
    ReplacedBounded(c, newId, reports);
    ReplacedOffsets(c, newId, reports);
    ReplacedShape(c, newId, reports);
    var c' := Step(c, Replaced(newId, reports));
    forall i | 0 <= i < |c'.ids|
      ensures OffsetFor(c'.order.fillOffsets, c'.ids[i]) == Sum(c'.fills[..i])
    {
    }
  }

  lemma StepExact(c: Chain, e: Event)
    requires Exact(c) && Honest(c, e) && Complete(c, e)
    ensures Exact(Step(c, e))
  {
    match e
    case VenueFills(amount) =>
      VenueFillBounded(c, amount);
    case Delivered(g, r) => DeliveredExact(c, g, r);
    case Replaced(newId, reports) => ReplacedExact(c, newId, reports);
  }

  // ----- whole chains -----

  /** A run in which every event is honest, ending in `end`. */
  ghost predicate HonestRun(c: Chain, events: seq<Event>, end: Chain)
    decreases |events|
  {
    if events == [] then c == end
    else
      && c.ids != [] && |c.fills| == |c.ids|
      && Honest(c, events[0]) && HonestRun(Step(c, events[0]), events[1..], end)
  }

  ghost predicate CompleteRun(c: Chain, events: seq<Event>)
    decreases |events|
  {
    events != [] ==>
      && c.ids != [] && |c.fills| == |c.ids|
      && Complete(c, events[0]) && CompleteRun(Step(c, events[0]), events[1..])
  }

  /** An acknowledged order with one generation and no fills yet. */
  ghost predicate Fresh(c: Chain) {
    && |c.ids| == 1 && c.fills == [0] && c.reported == 0
    && c.order.exchangeOrderId == c.ids[0] != "" && c.ids[0] !in c.order.fillOffsets
    && c.order.filledQuantity == 0 && c.order.status != Filled
  }

  lemma FreshIsExact(c: Chain)
    requires Fresh(c)
    ensures Exact(c)
  {
    assert c.fills[..0] == [];
  }

  lemma {:induction false} RunBounded(c: Chain, events: seq<Event>, end: Chain)
    requires Bounded(c) && HonestRun(c, events, end)
    ensures Bounded(end)
    decreases |events|
  {
    if events != [] {
      StepBounded(c, events[0]);
      RunBounded(Step(c, events[0]), events[1..], end);
    }
  }

  /** Over chains of any length the canonical fill never exceeds what the venue filled in all. */
  lemma FillNeverExceedsVenue(c: Chain, events: seq<Event>, end: Chain)
    requires Fresh(c) && HonestRun(c, events, end)
    ensures end.order.filledQuantity <= Sum(end.fills)
  {
    FreshIsExact(c);
    RunBounded(c, events, end);
  }

  lemma {:induction false} RunExact(c: Chain, events: seq<Event>, end: Chain)
    requires Exact(c) && HonestRun(c, events, end) && CompleteRun(c, events)
    ensures Exact(end)
    decreases |events|
  {
    if events != [] {
      StepExact(c, events[0]);
      RunExact(Step(c, events[0]), events[1..], end);
    }
  }

  /** With complete replacements the fill equals the venue's once the live generation is fully reported. */
  lemma FillEqualsVenue(c: Chain, events: seq<Event>, end: Chain)
    requires Fresh(c) && HonestRun(c, events, end) && CompleteRun(c, events)
    requires end.ids != [] && |end.fills| == |end.ids| && end.reported == end.fills[Last(end)]
    ensures end.order.filledQuantity == Sum(end.fills)
  {
    FreshIsExact(c);
    RunExact(c, events, end);
    SumPrefix(end.fills, Last(end));
    assert end.fills[..|end.fills|] == end.fills;
  }

  // ----- when a replacement loses fills -----

  lemma OldFillSource(reports: seq<Report>, oldId: string, offset: int, filled: int)
    ensures var r := FinalOldFill(reports, oldId, offset, filled);
            r == filled || exists i :: 0 <= i < |reports| && reports[i].exchangeOrderId == oldId
                                       && r == offset + reports[i].cumulativeFilled
    decreases |reports|
  {
    if reports != [] {
      var next := if reports[0].exchangeOrderId == oldId then Max(filled, offset + reports[0].cumulativeFilled) else filled;
      OldFillSource(reports[1..], oldId, offset, next);
      var r := FinalOldFill(reports, oldId, offset, filled);
      if r != filled && r != next {
        var i :| 0 <= i < |reports[1..]| && reports[1..][i].exchangeOrderId == oldId
                 && r == offset + reports[1..][i].cumulativeFilled;
        assert reports[i + 1] == reports[1..][i];
      }
    }
  }

  /** A replacement keeps the venue's total exactly when the old final fill is known or carried. */
  lemma ReplacementKeepsTotalExactly(c: Chain, newId: string, reports: seq<Report>)
    requires Exact(c) && Honest(c, Replaced(newId, reports))
    ensures Step(c, Replaced(newId, reports)).order.filledQuantity == Sum(c.fills) <==>
            c.order.filledQuantity == Sum(c.fills) || Complete(c, Replaced(newId, reports))
  {
    ReplacedFill(c, newId, reports);
    var oldId := c.ids[Last(c)];
    var offset := RecordedOffset(c.order.fillOffsets, oldId);
    assert offset == OffsetFor(c.order.fillOffsets, oldId);
    SumPrefix(c.fills, Last(c));
    assert c.fills[..|c.fills|] == c.fills;
    OldFillSource(reports, oldId, offset, c.order.filledQuantity);
    if Complete(c, Replaced(newId, reports)) {
      ReplacedFillExact(c, newId, reports);
    }
  }

  lemma DeliveredBelow(c: Chain, g: nat, r: Report, bound: int)
    requires Bounded(c) && Honest(c, Delivered(g, r))
    requires c.order.filledQuantity <= bound && Aggregate(c.order, r) <= bound
    requires c.order.status == Filled ==> MergedQuantity(c.order, r) <= c.order.quantity
    ensures Step(c, Delivered(g, r)).order.filledQuantity <= bound
    ensures Step(c, Delivered(g, r)).fills == c.fills && Step(c, Delivered(g, r)).ids == c.ids
    ensures Step(c, Delivered(g, r)).order.fillOffsets == c.order.fillOffsets
  {
    hide Merge, ApplyReport;
    ApplyCases(c.order, r);
    if Accepts(c.order, r) {
      AcceptedBound(c.order, r, bound);
      MergeFrame(c.order, r);
    }
  }

  // ----- a loss is never made good -----

  /** What the live generation can bring on top of its offset, or earlier ones without it. */
  function Reach(c: Chain): int
    requires c.ids != [] && |c.fills| == |c.ids|
  {
    Max(Sum(c.fills[..Last(c)]), OffsetFor(c.order.fillOffsets, c.ids[Last(c)]) + c.fills[Last(c)])
  }

  /** The live generation started below what earlier ones had filled, and the canonical fill has not got further. */
  ghost predicate Short(c: Chain) {
    && Bounded(c) && OffsetFor(c.order.fillOffsets, c.ids[Last(c)]) < Sum(c.fills[..Last(c)])
    && c.order.filledQuantity <= Reach(c)
  }

  /** A filled order is not enlarged, and a generation trades before it is replaced. */
  predicate KeepsLoss(c: Chain, e: Event)
    requires c.ids != [] && |c.fills| == |c.ids|
  {
    match e
    case VenueFills(_) => true
    case Delivered(g, r) => c.order.status == Filled ==> MergedQuantity(c.order, r) <= c.order.quantity
    case Replaced(_, _) => c.fills[Last(c)] > 0
  }

  ghost predicate KeepsLosses(c: Chain, events: seq<Event>)
    decreases |events|
  {
    events != [] ==>
      && c.ids != [] && |c.fills| == |c.ids|
      && KeepsLoss(c, events[0]) && KeepsLosses(Step(c, events[0]), events[1..])
  }

  /** The replacement that finds some of the old generation's fill neither known nor carried leaves the order short. */
  lemma LossLeavesShort(c: Chain, newId: string, reports: seq<Report>)
    requires Exact(c) && Honest(c, Replaced(newId, reports))
    requires c.order.filledQuantity != Sum(c.fills) && !Complete(c, Replaced(newId, reports))
    ensures Short(Step(c, Replaced(newId, reports)))
  {
    hide WithOffset, OffsetFor, RecordedOffset, Step, Replace, Sum, FinalOldFill, Complete;
    ReplacementKeepsTotalExactly(c, newId, reports);
    ReplacedFill(c, newId, reports);
    ReplacedBounded(c, newId, reports);
    ReplacedOffsets(c, newId, reports);
    ReplacedShape(c, newId, reports);
    var c' := Step(c, Replaced(newId, reports));
    assert c'.fills[..Last(c')] == c.fills;
  }

  lemma ShortAfterTrade(c: Chain, amount: nat)
    requires Short(c)
    ensures Short(Step(c, VenueFills(amount)))
  {
    hide OffsetFor, Sum, Step, Bounded;
    assert c.ids != [] && |c.fills| == |c.ids| by { BoundedShape(c); }
    VenueFillBounded(c, amount);
    VenueFillLedger(c, amount);
    VenueFillFrame(c, amount);
  }

  lemma BoundedShape(c: Chain)
    requires Bounded(c)
    ensures c.ids != [] && |c.fills| == |c.ids|
  {
  }

  lemma ShortAfterReport(c: Chain, g: nat, r: Report)
    requires Short(c) && Honest(c, Delivered(g, r)) && KeepsLoss(c, Delivered(g, r))
    ensures Short(Step(c, Delivered(g, r)))
  {
    hide OffsetFor, Sum, Step, MergedQuantity, Enlarges;
    DeliveredBounded(c, g, r);
    ReportWithinReach(c, g, r);
    DeliveredBelow(c, g, r, Reach(c));
  }

  lemma ReportWithinReach(c: Chain, g: nat, r: Report)
    requires Bounded(c) && HonestFill(c, g, r)
    ensures Aggregate(c.order, r) <= Reach(c)
  {
    hide OffsetFor, Sum, Bounded;
    BoundedShape(c);
    if g < Last(c) {
      EarlierWithinReach(c, g);
    }
  }

  /** What an earlier generation filled on top of its offset lies within what all earlier ones filled. */
  lemma EarlierWithinReach(c: Chain, g: nat)
    requires Bounded(c) && g < Last(c)
    ensures OffsetFor(c.order.fillOffsets, c.ids[g]) + c.fills[g] <= Sum(c.fills[..Last(c)])
  {
    hide OffsetFor, Sum;
    SumPrefix(c.fills, g);
    SumOfPrefix(c.fills, g + 1, Last(c));
  }

  lemma SumOfPrefix(fills: seq<int>, i: nat, n: nat)
    requires i <= n <= |fills| && forall k :: 0 <= k < |fills| ==> fills[k] >= 0
    ensures Sum(fills[..i]) <= Sum(fills[..n])
  {
    hide Sum;
    SumMonotone(fills[..n], i);
    assert fills[..n][..i] == fills[..i];
  }

  lemma ShortAfterReplacement(c: Chain, newId: string, reports: seq<Report>)
    requires Short(c) && Honest(c, Replaced(newId, reports)) && c.fills[Last(c)] > 0
    ensures Short(Step(c, Replaced(newId, reports)))
  {
    hide WithOffset, OffsetFor, RecordedOffset, Step, Replace, Sum, FinalOldFill;
    ReplacedFill(c, newId, reports);
    ReplacedWithinReach(c, newId, reports);
    ReplacedBounded(c, newId, reports);
    ReplacedOffsets(c, newId, reports);
    ReplacedShape(c, newId, reports);
    SumPrefix(c.fills, Last(c));
    var c' := Step(c, Replaced(newId, reports));
    assert c'.fills[..Last(c')] == c.fills && c.fills[..|c.fills|] == c.fills;
  }

  lemma ReplacedWithinReach(c: Chain, newId: string, reports: seq<Report>)
    requires Bounded(c) && Honest(c, Replaced(newId, reports)) && c.order.filledQuantity <= Reach(c)
    ensures Step(c, Replaced(newId, reports)).order.filledQuantity <= Reach(c)
  {
    var oldId := c.ids[Last(c)];
    var offset := RecordedOffset(c.order.fillOffsets, oldId);
    assert offset == OffsetFor(c.order.fillOffsets, oldId);
    OldFillBound(reports, oldId, offset, c.order.filledQuantity, Reach(c));
  }

  lemma ShortIsBelow(c: Chain)
    requires Short(c) && c.fills[Last(c)] > 0
    ensures c.order.filledQuantity < Sum(c.fills)
  {
    hide OffsetFor;
    SumPrefix(c.fills, Last(c));
    assert c.fills[..|c.fills|] == c.fills;
  }

  /**
   A lost fill stays lost, over any honest reports, trades and further replacements: the canonical fill never
   gets further than the live generation's offset and fill, and so stays below the venue's once that has traded.
   */
  lemma {:induction false} LostFillStaysLost(c: Chain, events: seq<Event>, end: Chain)
    requires Short(c) && HonestRun(c, events, end) && KeepsLosses(c, events)
    ensures Short(end) && (end.fills[Last(end)] > 0 ==> end.order.filledQuantity < Sum(end.fills))
    decreases |events|
  {
    hide Short, Bounded, Step, KeepsLoss, Honest;
    ShortShape(c);
    if events == [] {
      if c.fills[Last(c)] > 0 {
        ShortIsBelow(c);
      }
    } else {
      StepStaysShort(c, events[0]);
      LostFillStaysLost(Step(c, events[0]), events[1..], end);
    }
  }

  lemma ShortShape(c: Chain)
    requires Short(c)
    ensures c.ids != [] && |c.fills| == |c.ids|
  {
  }

  lemma StepStaysShort(c: Chain, e: Event)
    requires Short(c) && Honest(c, e) && KeepsLoss(c, e)
    ensures Short(Step(c, e))
  {
    hide Short, Step, Enlarges;
    match e
    case VenueFills(amount) => ShortAfterTrade(c, amount);
    case Delivered(g, r) => ShortAfterReport(c, g, r);
    case Replaced(newId, reports) => ShortAfterReplacement(c, newId, reports);
  }

  // ----- a run that loses a fill -----

  const ACKNOWLEDGED := MakeOrder(OrderRequest("a", Binance, "X", Buy, Limit, Some(1), 5, Gtc), "")
                        .(exchangeOrderId := "1", status := Live, pendingAction := NoAction)
  const LOSING := [VenueFills(2), Replaced("2", []), VenueFills(1)]

  /** The venue fills two units, an accepted replacement does not say so, and the next generation fills one. */
  lemma LosingRun()
    ensures var c := Chain(ACKNOWLEDGED, ["1"], [0], 0);
            var end := Chain(Replace(ACKNOWLEDGED, "2", []), ["1", "2"], [2, 1], 0);
            && Fresh(c) && HonestRun(c, LOSING, end) && Short(end)
            && end.order.filledQuantity == 0 && Sum(end.fills) == 3
  {
    hide Replace, Bounded, Short;
    var c := Chain(ACKNOWLEDGED, ["1"], [0], 0);
    var traded := Chain(ACKNOWLEDGED, ["1"], [2], 0);
    var replaced := Chain(Replace(ACKNOWLEDGED, "2", []), ["1", "2"], [2, 0], 0);
    var end := replaced.(fills := [2, 1]);
    FreshIsExact(c);
    assert Step(c, VenueFills(2)) == traded;
    StepExact(c, VenueFills(2));
    assert Step(traded, Replaced("2", [])) == replaced;
    assert "2"[0] != "1"[0];
    SumsOfTwo();
    LossLeavesShort(traded, "2", []);
    assert Step(replaced, VenueFills(1)) == end;
    ShortAfterTrade(replaced, 1);
    ReplacedNothing();
    assert LOSING[1..] == [Replaced("2", []), VenueFills(1)] && LOSING[1..][1..] == [VenueFills(1)] && LOSING[1..][1..][1..] == [];
    assert HonestRun(end, [], end);
    assert HonestRun(replaced, [VenueFills(1)], end);
    assert HonestRun(traded, [Replaced("2", []), VenueFills(1)], end);
  }

  lemma SumsOfTwo()
    ensures Sum([2]) == 2 && Sum([2, 1]) == 3
  {
    assert [2][..0] == [] && [2, 1][..1] == [2];
  }

  lemma ReplacedNothing()
    ensures Replace(ACKNOWLEDGED, "2", []).filledQuantity == 0
  {
  }

  const FILLED_UP := ACKNOWLEDGED.(status := Filled, filledQuantity := 5)
  const LARGER := Report("", "", "1", Filled, 5, None, None, None, Some(7), None, "")

  /** An order of five units, filled; a report of the same fill that speaks of seven makes it seven. */
  lemma EnlargingRun()
    ensures var c := Chain(FILLED_UP, ["1"], [5], 5);
            && HonestFill(c, 0, LARGER) && Enlarges(c, LARGER) && Sum(c.fills) == 5
            && Step(c, Delivered(0, LARGER)).order.filledQuantity == 7
  {
    hide Merge, Sum;
    assert Sum([5]) == 5 by { SumOfOne(5); }
    ApplyCases(FILLED_UP, LARGER);
    MergeFacts(FILLED_UP, LARGER);
  }

  lemma SumOfOne(n: int)
    ensures Sum([n]) == n
  {
    assert [n][..0] == [];
  }
}
