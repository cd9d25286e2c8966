/**
 Order independence of the merge: for reports of one exchange order that carry a cumulative
 quote and no order quantity, only the set of reports matters, not their order or repetition.
 */
module MergeConfluence {
  import opened Wrappers
  import opened Orders
  import opened OrderStateMachine
  import opened Lifecycle
  import Decimals

  function Elements(reports: seq<Report>): set<Report> {
    set r | r in reports
  }

  /** The reports in play: one exchange id, quotes present, no quantities, event ids that identify. */
  ghost predicate Comparable(pool: set<Report>, exchangeOrderId: string) {
    && (forall r <- pool :: r.exchangeOrderId == exchangeOrderId && r.orderQuantity.None? && r.cumulativeQuote.Some?)
    && (forall r <- pool, r' <- pool :: r.eventId == r'.eventId && r.eventId != "" ==> r == r')
  }

  /** A report that the order accepts the first time it arrives, at any point of the run. */
  predicate Usable(o: Order, r: Report) {
    && !IsDuplicate(o, r) && Belongs(o, r)
    && 0 <= r.cumulativeFilled && Aggregate(o, r) <= o.quantity
  }

  /** What a run leaves alone. */
  predicate SameFrame(o: Order, x: Order, exchangeOrderId: string) {
    && x.quantity == o.quantity && x.fillOffsets == o.fillOffsets && x.quoteOffsets == o.quoteOffsets
    && x.clientOrderId == o.clientOrderId
    && x.exchangeClientIdAliases == o.exchangeClientIdAliases
    && x.exchangeOrderIdAliases == o.exchangeOrderIdAliases
    && (x.exchangeOrderId == o.exchangeOrderId
        || (o.exchangeOrderId == "" && x.exchangeOrderId == exchangeOrderId))
  }

  function Quote(o: Order, r: Report): int {
    OffsetFor(o.quoteOffsets, r.exchangeOrderId) + if r.cumulativeQuote.Some? then r.cumulativeQuote.value else 0
  }

  function SequenceOf(s: Option<nat>): int {
    if s.Some? then s.value else -1
  }

  function EventIds(reports: set<Report>): set<string> {
    set r | r in reports && r.eventId != "" :: r.eventId
  }

  ghost predicate IsMaximum(m: int, start: int, reports: set<Report>, f: Report -> int) {
    && (m == start || exists r <- reports :: m == f(r))
    && start <= m && forall r <- reports :: f(r) <= m
  }

  lemma MaximumIsUnique(m: int, m': int, start: int, reports: set<Report>, f: Report -> int)
    requires IsMaximum(m, start, reports, f) && IsMaximum(m', start, reports, f)
    ensures m == m'
  {
  }

  lemma MaximumGrows(m: int, start: int, reports: set<Report>, f: Report -> int, r: Report)
    requires IsMaximum(m, start, reports, f)
    ensures IsMaximum(Max(m, f(r)), start, reports + {r}, f)
  {
  }

  function Fills(o: Order): Report -> int {
    r => Aggregate(o, r)
  }

  function Quotes(o: Order): Report -> int {
    r => Quote(o, r)
  }

  function Sequences(): Report -> int {
    (r: Report) => SequenceOf(r.sequence)
  }

  predicate FilledBy(o: Order, reports: set<Report>) {
    o.status == Filled || exists r <- reports :: Aggregate(o, r) >= o.quantity
  }

  /** The order `x` is what the start order becomes from exactly these usable reports. */
  ghost predicate Summarises(o: Order, reports: set<Report>, x: Order, exchangeOrderId: string) {
    && SameFrame(o, x, exchangeOrderId)
    && IsMaximum(x.filledQuantity, o.filledQuantity, reports, Fills(o))
    && IsMaximum(x.cumulativeQuote, o.cumulativeQuote, reports, Quotes(o))
    && IsMaximum(SequenceOf(x.lastSequence), SequenceOf(o.lastSequence), reports, Sequences())
    && x.processedEventIds == o.processedEventIds + EventIds(reports)
    && (x.status == Filled <==> FilledBy(o, reports))
  }

  lemma FrameAccepts(o: Order, x: Order, r: Report)
    requires SameFrame(o, x, r.exchangeOrderId) && r.orderQuantity.None?
    ensures Aggregate(x, r) == Aggregate(o, r) && Quote(x, r) == Quote(o, r)
    ensures Historical(x, r) == Historical(o, r) && Belongs(x, r) == Belongs(o, r)
    ensures MergedQuantity(x, r) == o.quantity
    ensures Accepts(x, r) <==> !IsDuplicate(x, r) && Belongs(o, r) && 0 <= r.cumulativeFilled && Aggregate(o, r) <= o.quantity
  {
  }

  lemma MergeSummary(x: Order, r: Report)
    requires Accepts(x, r) && r.orderQuantity.None? && r.cumulativeQuote.Some?
    requires x.status == Filled ==> x.filledQuantity == x.quantity
    requires x.filledQuantity <= x.quantity
    ensures var y := Merge(x, r);
            && SameFrame(x, y, r.exchangeOrderId)
            && y.filledQuantity == Max(x.filledQuantity, Aggregate(x, r))
            && y.cumulativeQuote == Max(x.cumulativeQuote, Quote(x, r))
            && SequenceOf(y.lastSequence) == Max(SequenceOf(x.lastSequence), SequenceOf(r.sequence))
            && y.processedEventIds == x.processedEventIds + EventIds({r})
            && (y.status == Filled <==> x.status == Filled || Aggregate(x, r) >= x.quantity)
  {
    hide Merge;
    MergeFacts(x, r);
    MergeFrame(x, r);
    assert EventIds({r}) == if r.eventId != "" then {r.eventId} else {};
  }

  lemma MergeSummarises(o: Order, seen: set<Report>, x: Order, r: Report)
    requires Sound(o) && Summarises(o, seen, x, r.exchangeOrderId)
    requires forall s <- seen :: Usable(o, s)
    requires r.orderQuantity.None? && r.cumulativeQuote.Some? && Accepts(x, r)
    ensures Summarises(o, seen + {r}, Merge(x, r), r.exchangeOrderId)
  {
    hide Merge, Historical, MergedQuantity, Accepts, Usable, Belongs, IsMaximum;
    SummaryBounded(o, seen, x, r.exchangeOrderId);
    FrameAccepts(o, x, r);
    MergeSummary(x, r);
    MaximumGrows(x.filledQuantity, o.filledQuantity, seen, Fills(o), r);
    MaximumGrows(x.cumulativeQuote, o.cumulativeQuote, seen, Quotes(o), r);
    MaximumGrows(SequenceOf(x.lastSequence), SequenceOf(o.lastSequence), seen, Sequences(), r);
    assert EventIds(seen + {r}) == EventIds(seen) + EventIds({r});
  }

  lemma StepSummarises(o: Order, seen: set<Report>, x: Order, r: Report)
    requires Sound(o) && Summarises(o, seen, x, r.exchangeOrderId)
    requires forall s <- seen :: Usable(o, s)
    requires Comparable(seen + {r}, r.exchangeOrderId)
    ensures Summarises(o, if Usable(o, r) then seen + {r} else seen, ApplyReport(x, r), r.exchangeOrderId)
  {
    hide ApplyReport, Merge, Historical, MergedQuantity, IsMaximum, Belongs;
    ApplyCases(x, r);
    FrameAccepts(o, x, r);
    if Usable(o, r) && IsDuplicate(x, r) {
      assert r.eventId in EventIds(seen);
      assert r in seen;
      assert seen + {r} == seen;
    } else if Usable(o, r) {
      assert Accepts(x, r);
      MergeSummarises(o, seen, x, r);
    } else {
      assert !Accepts(x, r);
    }
  }

  lemma SummaryBounded(o: Order, seen: set<Report>, x: Order, exchangeOrderId: string)
    requires Sound(o) && Summarises(o, seen, x, exchangeOrderId) && forall s <- seen :: Usable(o, s)
    ensures x.filledQuantity <= x.quantity && (x.status == Filled ==> x.filledQuantity == x.quantity)
  {
    if x.status == Filled && o.status != Filled {
      var r :| r in seen && Aggregate(o, r) >= o.quantity;
      assert Fills(o)(r) <= x.filledQuantity;
    }
    if x.filledQuantity != o.filledQuantity {
      var r :| r in seen && x.filledQuantity == Fills(o)(r);
      assert Aggregate(o, r) <= o.quantity;
    }
  }

  function UsableOf(o: Order, reports: set<Report>): set<Report> {
    set r | r in reports && Usable(o, r)
  }

  lemma {:induction false} RunSummarises(o: Order, done: seq<Report>, rest: seq<Report>, x: Order, exchangeOrderId: string)
    requires Sound(o) && Comparable(Elements(done + rest), exchangeOrderId)
    requires Summarises(o, UsableOf(o, Elements(done)), x, exchangeOrderId)
    ensures Summarises(o, UsableOf(o, Elements(done + rest)), Run(x, rest), exchangeOrderId)
    decreases |rest|
  {
    hide ApplyReport, Summarises;
    if rest == [] {
      assert done + rest == done;
    } else {
      var r, seen := rest[0], UsableOf(o, Elements(done));
      assert r in Elements(done + rest) && seen <= Elements(done + rest);
      StepSummarises(o, seen, x, r);
      assert UsableOf(o, Elements(done + [r])) == if Usable(o, r) then seen + {r} else seen;
      assert done + [r] + rest[1..] == done + rest;
      RunSummarises(o, done + [r], rest[1..], ApplyReport(x, r), exchangeOrderId);
    }
  }

  /** The run ends at the maxima over the usable reports, whatever order they came in. */
  lemma RunEndsAtMaxima(o: Order, reports: seq<Report>, exchangeOrderId: string)
    requires Sound(o) && Comparable(Elements(reports), exchangeOrderId)
    ensures Summarises(o, UsableOf(o, Elements(reports)), Run(o, reports), exchangeOrderId)
  {
    assert [] + reports == reports;
    assert UsableOf(o, Elements([])) == {};
    RunSummarises(o, [], reports, o, exchangeOrderId);
  }

  /** Two runs over the same reports, in any order and with any repetition, agree. */
  lemma MergesCommute(o: Order, reports: seq<Report>, reports': seq<Report>, exchangeOrderId: string)
    requires Sound(o) && Comparable(Elements(reports), exchangeOrderId)
    requires Elements(reports) == Elements(reports')
    ensures var x, y := Run(o, reports), Run(o, reports');
            && x.filledQuantity == y.filledQuantity && x.cumulativeQuote == y.cumulativeQuote
            && x.lastSequence == y.lastSequence && x.processedEventIds == y.processedEventIds
            && (x.status == Filled <==> y.status == Filled)
  {
    RunEndsAtMaxima(o, reports, exchangeOrderId);
    RunEndsAtMaxima(o, reports', exchangeOrderId);
    var used := UsableOf(o, Elements(reports));
    var x, y := Run(o, reports), Run(o, reports');
    MaximumIsUnique(x.filledQuantity, y.filledQuantity, o.filledQuantity, used, Fills(o));
    MaximumIsUnique(x.cumulativeQuote, y.cumulativeQuote, o.cumulativeQuote, used, Quotes(o));
    MaximumIsUnique(SequenceOf(x.lastSequence), SequenceOf(y.lastSequence), SequenceOf(o.lastSequence), used, Sequences());
  }

  // ----- two reports that are not like that -----

  /** The second of the two is no repetition of the first. */
  predicate Distinct(r: Report, r': Report) {
    r.eventId == "" || r.eventId != r'.eventId
  }

  lemma RunOfTwo(o: Order, r: Report, r': Report)
    ensures Run(o, [r, r']) == ApplyReport(ApplyReport(o, r), r')
  {
    hide ApplyReport;
    assert [r, r'][1..] == [r'] && [r'][1..] == [];
    var first := ApplyReport(o, r);
    assert Run(o, [r, r']) == Run(first, [r']);
    assert Run(first, [r']) == Run(ApplyReport(first, r'), []);
  }

  /** An accepted report without an order quantity: the fill is the maximum, and only the quote may look at prices. */
  lemma FillSummary(x: Order, r: Report)
    requires Accepts(x, r) && r.orderQuantity.None?
    requires x.status == Filled ==> x.filledQuantity == x.quantity
    requires x.filledQuantity <= x.quantity
    ensures var y := ApplyReport(x, r);
            && SameFrame(x, y, r.exchangeOrderId) && y.filledQuantity == Max(x.filledQuantity, Aggregate(x, r))
            && y.cumulativeQuote == MergedQuote(x, r) && y.processedEventIds == x.processedEventIds + EventIds({r})
            && y.filledQuantity <= y.quantity && (y.status == Filled ==> y.filledQuantity == y.quantity)
            && (!Historical(x, r) && r.exchangeOrderId != "" ==> y.exchangeOrderId == r.exchangeOrderId)
  {
    hide Merge, ApplyReport, MergedQuote;
    ApplyCases(x, r);
    MergeFacts(x, r);
    MergeFrame(x, r);
    assert EventIds({r}) == if r.eventId != "" then {r.eventId} else {};
  }

  /** Of two reports of one exchange order the second is accepted behind the first. */
  lemma SecondIsAccepted(o: Order, r: Report, r': Report)
    requires Sound(o) && Usable(o, r) && Usable(o, r') && Distinct(r', r) && r.exchangeOrderId == r'.exchangeOrderId
    requires r.orderQuantity.None? && r'.orderQuantity.None?
    ensures Accepts(o, r) && Accepts(ApplyReport(o, r), r')
    ensures var x := ApplyReport(o, r);
            && x.filledQuantity == Max(o.filledQuantity, Aggregate(o, r)) && Aggregate(x, r') == Aggregate(o, r')
            && x.cumulativeQuote == MergedQuote(o, r) && x.filledQuantity <= x.quantity
            && (x.status == Filled ==> x.filledQuantity == x.quantity)
  {
    hide ApplyReport, MergedQuote, Belongs;
    FrameAccepts(o, o, r);
    FillSummary(o, r);
    FrameAccepts(o, ApplyReport(o, r), r');
    assert EventIds({r}) == if r.eventId != "" then {r.eventId} else {};
  }

  /** What a report without a quote adds to it for a quantity at its last fill price. */
  function Paid(quantity: int, price: Option<int>): int {
    if price.Some? then Decimals.Product(quantity, price.value) else 0
  }

  lemma QuotelessGain(x: Order, r: Report)
    requires r.cumulativeQuote.None?
    ensures MergedQuote(x, r)
            == x.cumulativeQuote + Paid(Max(x.filledQuantity, Aggregate(x, r)) - x.filledQuantity, r.lastFillPrice)
  {
    NothingPaid();
    hide Decimals.Product;
  }

  lemma NothingPaid()
    ensures forall price: int :: Decimals.Product(0, price) == 0
  {
  }

  /**
   Two reports without cumulative quotes agree in the fill in both orders, and in the quote exactly when the
   smaller one adds nothing, or its price and the other one's value the increments alike.
   */
  lemma QuotelessMergesAgreeExactly(o: Order, r: Report, r': Report)
    requires Sound(o) && Usable(o, r) && Usable(o, r') && Distinct(r, r') && r.exchangeOrderId == r'.exchangeOrderId
    requires r.orderQuantity.None? && r'.orderQuantity.None? && r.cumulativeQuote.None? && r'.cumulativeQuote.None?
    requires Aggregate(o, r) <= Aggregate(o, r')
    ensures var x, y := Run(o, [r, r']), Run(o, [r', r]);
            var f, a, b := o.filledQuantity, Aggregate(o, r), Aggregate(o, r');
            && x.filledQuantity == y.filledQuantity
            && (x.cumulativeQuote == y.cumulativeQuote
                <==> a <= f || Paid(a - f, r.lastFillPrice) + Paid(b - a, r'.lastFillPrice) == Paid(b - f, r'.lastFillPrice))
  {
    hide ApplyReport, Usable, Accepts, MergedQuote, Aggregate, Decimals.Product;
    NothingPaid();
    RunOfTwo(o, r, r');
    RunOfTwo(o, r', r);
    SecondIsAccepted(o, r, r');
    SecondIsAccepted(o, r', r);
    FillSummary(ApplyReport(o, r), r');
    FillSummary(ApplyReport(o, r'), r);
    QuotelessGain(o, r);
    QuotelessGain(o, r');
    QuotelessGain(ApplyReport(o, r), r');
    QuotelessGain(ApplyReport(o, r'), r);
  }

  /** A usable report that states its order's total quantity, for an order that knows no other generation of it. */
  predicate StatesTotal(o: Order, r: Report) {
    && !IsDuplicate(o, r) && Belongs(o, r) && !Historical(o, r)
    && 0 <= r.cumulativeFilled && r.orderQuantity.Some? && r.cumulativeFilled <= r.orderQuantity.value
  }

  function TotalOf(o: Order, r: Report): int {
    OffsetFor(o.fillOffsets, r.exchangeOrderId) + if r.orderQuantity.Some? then r.orderQuantity.value else 0
  }

  lemma TotalSummary(x: Order, r: Report)
    requires StatesTotal(x, r)
    ensures Accepts(x, r)
    ensures var y, total := ApplyReport(x, r), TotalOf(x, r);
            && y.quantity == total && (y.status == Filled <==> x.status == Filled || Aggregate(x, r) == total)
            && y.filledQuantity == (if y.status == Filled then total else Max(x.filledQuantity, Aggregate(x, r)))
            && y.fillOffsets == x.fillOffsets && y.exchangeOrderIdAliases == x.exchangeOrderIdAliases
            && y.exchangeClientIdAliases == x.exchangeClientIdAliases && y.clientOrderId == x.clientOrderId
            && y.exchangeOrderId == (if r.exchangeOrderId != "" then r.exchangeOrderId else x.exchangeOrderId)
            && y.processedEventIds == (if r.eventId != "" then x.processedEventIds + {r.eventId} else x.processedEventIds)
  {
    hide Merge, ApplyReport, MergedQuote;
    ApplyCases(x, r);
    MergeFacts(x, r);
    MergeFrame(x, r);
  }

  lemma SecondStatesTotal(o: Order, r: Report, r': Report)
    requires StatesTotal(o, r) && StatesTotal(o, r') && Distinct(r', r) && r.exchangeOrderId == r'.exchangeOrderId
    ensures var x := ApplyReport(o, r);
            StatesTotal(x, r') && TotalOf(x, r') == TotalOf(o, r') && Aggregate(x, r') == Aggregate(o, r')
  {
    hide ApplyReport, Merge;
    TotalSummary(o, r);
  }

  /**
   Two reports that state total quantities: the last one's total stays, so the quantities agree exactly when
   the totals do; the fills agree exactly then or when nothing is filled completely by either.
   */
  lemma QuantityMergesAgreeExactly(o: Order, r: Report, r': Report)
    requires StatesTotal(o, r) && StatesTotal(o, r') && Distinct(r, r') && r.exchangeOrderId == r'.exchangeOrderId
    ensures var x, y := Run(o, [r, r']), Run(o, [r', r]);
            var total, total' := TotalOf(o, r), TotalOf(o, r');
            && (x.quantity == y.quantity <==> total == total')
            && (x.filledQuantity == y.filledQuantity
                <==> total == total' || (o.status != Filled && Aggregate(o, r) < total && Aggregate(o, r') < total'))
  {
    hide ApplyReport, StatesTotal, Accepts, TotalOf, Aggregate;
    RunOfTwo(o, r, r');
    RunOfTwo(o, r', r);
    TotalSummary(o, r);
    TotalSummary(o, r');
    SecondStatesTotal(o, r, r');
    SecondStatesTotal(o, r', r);
    TotalSummary(ApplyReport(o, r), r');
    TotalSummary(ApplyReport(o, r'), r);
    AggregateWithinTotal(o, r);
    AggregateWithinTotal(o, r');
  }

  lemma AggregateWithinTotal(o: Order, r: Report)
    requires StatesTotal(o, r)
    ensures Aggregate(o, r) <= TotalOf(o, r)
  {
  }

  /** The fill a report can still reach behind another one that has given the order a different venue id. */
  function Reaches(o: Order, r: Report): int {
    if r.exchangeOrderId in o.exchangeOrderIdAliases then Max(o.filledQuantity, Aggregate(o, r)) else o.filledQuantity
  }

  /** The second report, of another venue id, merges exactly if the order knows that id by then. */
  lemma SecondVenueId(o: Order, r: Report, r': Report)
    requires Sound(o) && Usable(o, r) && Usable(o, r') && Distinct(r', r)
    requires r.exchangeOrderId != "" && r'.exchangeOrderId != "" && r.exchangeOrderId != r'.exchangeOrderId
    requires r.orderQuantity.None? && r'.orderQuantity.None?
    ensures var z := Run(o, [r, r']);
            && z.exchangeOrderId == (if o.exchangeOrderId == "" then r.exchangeOrderId else o.exchangeOrderId)
            && z.filledQuantity == Max(Max(o.filledQuantity, Aggregate(o, r)),
                                       if o.exchangeOrderId == "" then Reaches(o, r') else Aggregate(o, r'))
  {
    hide ApplyReport, MergedQuote, Merge;
    RunOfTwo(o, r, r');
    FrameAccepts(o, o, r);
    FillSummary(o, r);
    var x := ApplyReport(o, r);
    assert EventIds({r}) == if r.eventId != "" then {r.eventId} else {};
    assert MergedQuantity(x, r') == o.quantity;
    if Accepts(x, r') {
      FillSummary(x, r');
      KeepsId(x, r');
    } else {
      ApplyCases(x, r');
    }
  }

  lemma KeepsId(x: Order, r: Report)
    requires Accepts(x, r) && x.exchangeOrderId != ""
    ensures ApplyReport(x, r).exchangeOrderId == x.exchangeOrderId
  {
    hide Merge, ApplyReport;
    ApplyCases(x, r);
    MergeFacts(x, r);
  }

  /**
   Two reports of two venue ids agree in the id exactly if the order had one before; if it had none, the
   first report gives it its own, and the fills agree exactly when what merges behind it reaches the same.
   */
  lemma ExchangeIdMergesAgreeExactly(o: Order, r: Report, r': Report)
    requires Sound(o) && Usable(o, r) && Usable(o, r') && Distinct(r, r')
    requires r.exchangeOrderId != "" && r'.exchangeOrderId != "" && r.exchangeOrderId != r'.exchangeOrderId
    requires r.orderQuantity.None? && r'.orderQuantity.None?
    ensures var x, y := Run(o, [r, r']), Run(o, [r', r]);
            && (x.exchangeOrderId == y.exchangeOrderId <==> o.exchangeOrderId != "")
            && (x.filledQuantity == y.filledQuantity
                <==> o.exchangeOrderId != "" || Max(Aggregate(o, r), Reaches(o, r')) == Max(Aggregate(o, r'), Reaches(o, r)))
  {
    hide Usable, Aggregate, Run;
    SecondVenueId(o, r, r');
    SecondVenueId(o, r', r);
  }

  // ----- without cumulative quotes -----

  const FIRST_FILL := Report("e1", "", "", PartiallyFilled, 100_000_000, None, Some(100_000_000), None, None, None, "")
  const SECOND_FILL := Report("e2", "", "", PartiallyFilled, 200_000_000, None, Some(200_000_000), None, None, None, "")

  /** Reports without a cumulative quote do depend on their order: the fill agrees, the quote does not. */
  lemma QuotelessMergesDisagree(o: Order)
    requires o.filledQuantity == 0 && o.cumulativeQuote == 0 && o.quantity > 200_000_000
    requires o.processedEventIds == {} && o.exchangeOrderId == "" && o.status == Live
    ensures Run(o, [FIRST_FILL, SECOND_FILL]).filledQuantity == Run(o, [SECOND_FILL, FIRST_FILL]).filledQuantity
    ensures Run(o, [FIRST_FILL, SECOND_FILL]).cumulativeQuote == 300_000_000
    ensures Run(o, [SECOND_FILL, FIRST_FILL]).cumulativeQuote == 400_000_000
  {
    hide ApplyReport, Run, Decimals.Product;
    RoundProducts();
    QuotelessStep(o, FIRST_FILL);
    QuotelessStep(o, SECOND_FILL);
    var x := ApplyReport(o, FIRST_FILL);
    assert Aggregate(o, FIRST_FILL) == 100_000_000 && Aggregate(o, SECOND_FILL) == 200_000_000;
    assert MergedQuote(o, FIRST_FILL) == Decimals.Product(100_000_000, 100_000_000);
    assert MergedQuote(o, SECOND_FILL) == Decimals.Product(200_000_000, 200_000_000);
    assert Aggregate(x, SECOND_FILL) == 200_000_000;
    assert MergedQuote(x, SECOND_FILL) == 100_000_000 + Decimals.Product(100_000_000, 200_000_000);
    QuotelessStep(x, SECOND_FILL);
    QuotelessStep(ApplyReport(o, SECOND_FILL), FIRST_FILL);
    RunOfTwo(o, FIRST_FILL, SECOND_FILL);
    RunOfTwo(o, SECOND_FILL, FIRST_FILL);
  }

  lemma RoundProducts()
    ensures Decimals.Product(100_000_000, 100_000_000) == 100_000_000
    ensures Decimals.Product(100_000_000, 200_000_000) == 200_000_000
    ensures Decimals.Product(200_000_000, 200_000_000) == 400_000_000
  {
  }

  lemma QuotelessStep(o: Order, r: Report)
    requires o.exchangeOrderId == "" && (o.status == Live || o.status == PartiallyFilled)
    requires r == FIRST_FILL || r == SECOND_FILL
    requires o.quantity > 200_000_000 && o.filledQuantity < o.quantity && r.eventId !in o.processedEventIds
    ensures var y := ApplyReport(o, r);
            && y.filledQuantity == Max(o.filledQuantity, r.cumulativeFilled)
            && y.cumulativeQuote == MergedQuote(o, r)
            && y.quantity == o.quantity && y.exchangeOrderId == "" && y.status == PartiallyFilled
            && y.processedEventIds == o.processedEventIds + {r.eventId}
  {
    hide Merge, MergedQuote;
    ApplyCases(o, r);
    MergeFacts(o, r);
  }

  // ----- order quantities, and several exchange ids -----

  const SMALL_TOTAL := Report("e1", "", "", PartiallyFilled, 1, Some(1), None, None, Some(1), None, "")
  const LARGE_TOTAL := Report("e2", "", "", Live, 0, Some(0), None, None, Some(2), None, "")

  /** Reports that carry different order quantities do not commute, not even in the fill. */
  lemma QuantityMergesDisagree(o: Order)
    requires o.filledQuantity == 0 && o.cumulativeQuote == 0 && o.quantity == 3 && o.status == Live
    requires o.processedEventIds == {} && o.exchangeOrderId == ""
    ensures Run(o, [SMALL_TOTAL, LARGE_TOTAL]).filledQuantity == 2
    ensures Run(o, [LARGE_TOTAL, SMALL_TOTAL]).filledQuantity == 1
  {
    hide ApplyReport, Run, Merge;
    RunOfTwo(o, SMALL_TOTAL, LARGE_TOTAL);
    RunOfTwo(o, LARGE_TOTAL, SMALL_TOTAL);
    var x, y := ApplyReport(o, SMALL_TOTAL), ApplyReport(o, LARGE_TOTAL);
    ApplyCases(o, SMALL_TOTAL);
    MergeFacts(o, SMALL_TOTAL);
    ApplyCases(o, LARGE_TOTAL);
    MergeFacts(o, LARGE_TOTAL);
    assert x.status == Filled && x.filledQuantity == 1 && y.status == Live && y.filledQuantity == 0;
    ApplyCases(x, LARGE_TOTAL);
    MergeFacts(x, LARGE_TOTAL);
    ApplyCases(y, SMALL_TOTAL);
    MergeFacts(y, SMALL_TOTAL);
  }

  const ONE_VENUE_ORDER := Report("e1", "", "A", PartiallyFilled, 1, Some(1), None, None, None, None, "")
  const OTHER_VENUE_ORDER := Report("e2", "", "B", PartiallyFilled, 2, Some(2), None, None, None, None, "")

  /** Reports of two exchange orders do not commute either: the first one fixes which is merged at all. */
  lemma ExchangeIdMergesDisagree(o: Order)
    requires o.filledQuantity == 0 && o.cumulativeQuote == 0 && o.quantity == 3 && o.status == Live
    requires o.processedEventIds == {} && o.exchangeOrderId == "" && o.exchangeOrderIdAliases == {} && o.fillOffsets == map[]
    ensures Run(o, [ONE_VENUE_ORDER, OTHER_VENUE_ORDER]).filledQuantity == 1
    ensures Run(o, [OTHER_VENUE_ORDER, ONE_VENUE_ORDER]).filledQuantity == 2
  {
    hide ApplyReport, Run, Merge;
    RunOfTwo(o, ONE_VENUE_ORDER, OTHER_VENUE_ORDER);
    RunOfTwo(o, OTHER_VENUE_ORDER, ONE_VENUE_ORDER);
    var x, y := ApplyReport(o, ONE_VENUE_ORDER), ApplyReport(o, OTHER_VENUE_ORDER);
    ApplyCases(o, ONE_VENUE_ORDER);
    MergeFacts(o, ONE_VENUE_ORDER);
    MergeFrame(o, ONE_VENUE_ORDER);
    ApplyCases(o, OTHER_VENUE_ORDER);
    MergeFacts(o, OTHER_VENUE_ORDER);
    MergeFrame(o, OTHER_VENUE_ORDER);
    assert x.exchangeOrderId == "A" && y.exchangeOrderId == "B";
    ApplyCases(x, OTHER_VENUE_ORDER);
    ApplyCases(y, ONE_VENUE_ORDER);
  }
}
