/** What every run of the order state machine keeps, over any sequence of reports. */
module Lifecycle {
  import opened Wrappers
  import opened Orders
  import opened OrderStateMachine

  function Run(o: Order, reports: seq<Report>): Order
    decreases |reports|
  {
    if reports == [] then o else Run(ApplyReport(o, reports[0]), reports[1..])
  }

  /** Fills lie between zero and the quantity, and a filled order is filled completely. */
  ghost predicate Sound(o: Order) {
    && 0 <= o.filledQuantity <= o.quantity
    && (o.status == Filled ==> o.filledQuantity == o.quantity)
    && (forall id :: id in o.fillOffsets ==> o.fillOffsets[id] >= 0)
  }

  /** The venue never reports a total quantity below what is already filled. */
  ghost predicate KeepsFill(o: Order, r: Report) {
    MergedQuantity(o, r) >= o.filledQuantity
  }

  ghost predicate QuantitiesHold(o: Order, reports: seq<Report>)
    decreases |reports|
  {
    reports != [] ==>
      && (Accepts(o, reports[0]) ==> KeepsFill(o, reports[0]))
      && QuantitiesHold(ApplyReport(o, reports[0]), reports[1..])
  }

  /** Canceled and Rejected can only give way to Filled, and Filled to nothing. */
  ghost predicate StatusAdvances(before: OrderStatus, after: OrderStatus) {
    && (before == Filled ==> after == Filled)
    && (IsTerminal(before) ==> after == before || after == Filled)
  }

  /** Holds with no assumption on the reports: a terminal status survives every run. */
  lemma {:induction false} TerminalStatusIsFinal(o: Order, reports: seq<Report>)
    ensures StatusAdvances(o.status, Run(o, reports).status)
    decreases |reports|
  {
    if reports != [] {
      TerminalStatusIsFinal(ApplyReport(o, reports[0]), reports[1..]);
    }
  }

  /** One report keeps the fill bounds exactly when it does not shrink the quantity below the fill. */
  lemma FillBoundsExactly(o: Order, r: Report)
    requires Sound(o) && Accepts(o, r)
    ensures var after := ApplyReport(o, r);
            KeepsFill(o, r) <==> o.filledQuantity <= after.filledQuantity <= after.quantity
  {
  }

  /** An accepted report that fills the order fills all of it, whatever its quantity says. */
  lemma FilledMeansComplete(o: Order, r: Report)
    requires Accepts(o, r) && ApplyReport(o, r).status == Filled
    ensures ApplyReport(o, r).filledQuantity == ApplyReport(o, r).quantity
  {
  }

  lemma StepKeepsSound(o: Order, r: Report)
    requires Sound(o) && (Accepts(o, r) ==> KeepsFill(o, r))
    ensures Sound(ApplyReport(o, r)) && o.filledQuantity <= ApplyReport(o, r).filledQuantity
  {
    if Accepts(o, r) {
      FillBoundsExactly(o, r);
    }
  }

  /** Over a whole run the bounds hold and the fill never goes down. */
  lemma {:induction false} RunKeepsSound(o: Order, reports: seq<Report>)
    requires Sound(o) && QuantitiesHold(o, reports)
    ensures Sound(Run(o, reports)) && o.filledQuantity <= Run(o, reports).filledQuantity
    decreases |reports|
  {
    if reports != [] {
      StepKeepsSound(o, reports[0]);
      RunKeepsSound(ApplyReport(o, reports[0]), reports[1..]);
    }
  }

  lemma {:induction false} RunSplits(o: Order, reports: seq<Report>, k: nat)
    requires k <= |reports|
    ensures Run(Run(o, reports[..k]), reports[k..]) == Run(o, reports)
    ensures QuantitiesHold(o, reports) ==>
              QuantitiesHold(o, reports[..k]) && QuantitiesHold(Run(o, reports[..k]), reports[k..])
    decreases |reports|
  {
    if k == 0 {
      assert reports[..0] == [] && reports[0..] == reports;
    } else {
      RunSplits(ApplyReport(o, reports[0]), reports[1..], k - 1);
      assert reports[..k][0] == reports[0] && reports[..k][1..] == reports[1..][..k - 1];
      assert reports[k..] == reports[1..][k - 1..];
    }
  }

  /** Between any two points of a run: bounds, growing fills, terminal statuses that stay. */
  lemma LifecycleOverRuns(o: Order, reports: seq<Report>, i: nat, j: nat)
    requires Sound(o) && QuantitiesHold(o, reports) && i <= j <= |reports|
    ensures var early, late := Run(o, reports[..i]), Run(o, reports[..j]);
            && Sound(early) && Sound(late)
            && early.filledQuantity <= late.filledQuantity
            && StatusAdvances(early.status, late.status)
  {
    RunSplits(o, reports, j);
    RunSplits(o, reports[..j], i);
    assert reports[..j][..i] == reports[..i];
    var early := Run(o, reports[..i]);
    RunKeepsSound(o, reports[..i]);
    RunKeepsSound(early, reports[..j][i..]);
    TerminalStatusIsFinal(early, reports[..j][i..]);
  }

  function Rank(status: OrderStatus): nat {
    match status
    case Unknown => 0
    case Live => 1
    case PartiallyFilled => 2
    case Canceled => 3
    case Rejected => 3
    case Filled => 4
  }

  /**
   The status rank drops in exactly one situation: a current, in-sequence Live report with no
   fill of its own or of an earlier generation arrives while the order counts as partially filled.
   */
  lemma RankDropsExactly(o: Order, r: Report)
    requires Accepts(o, r)
    ensures Rank(ApplyReport(o, r).status) < Rank(o.status) <==>
            && o.status == PartiallyFilled && r.status == Live && Aggregate(o, r) <= 0
            && Aggregate(o, r) < MergedQuantity(o, r)
            && !Historical(o, r) && !StaleSequence(o, r)
  {
  }

  /** Stale reports and reports of replaced generations never lower the rank. */
  lemma LateReportsNeverDemote(o: Order, r: Report)
    requires Historical(o, r) || StaleSequence(o, r)
    ensures Rank(o.status) <= Rank(ApplyReport(o, r).status)
  {
    if Accepts(o, r) {
      RankDropsExactly(o, r);
    }
  }
}
