/**
 The rate limiter: a virtual-scheduling generic cell rate algorithm on one 64-bit arrival time that
 threads advance with compare-and-swap. Tokens are counted in micro-tokens, time in nanoseconds;
 sums and products saturate at the largest 64-bit value. The configuration is fixed during a run.
 */
module RateLimiter {
  const UNITS_PER_TOKEN := 1_000_000
  const INT64_MAX := 0x7fff_ffff_ffff_ffff

  type Int64 = n: nat | n <= INT64_MAX

  // ----- integer arithmetic -----

  function ScaledDuration(units: Int64, period: Int64): Int64 {
    if units <= 0 || period <= 0 then 0
    else
      var whole, remainder := units / UNITS_PER_TOKEN, units % UNITS_PER_TOKEN;
      if whole > INT64_MAX / period then INT64_MAX
      else
        WholeFits(whole, period);
        var base := whole * period;
        var periodWhole, periodRemainder := period / UNITS_PER_TOKEN, period % UNITS_PER_TOKEN;
        if periodWhole != 0 && remainder > (INT64_MAX - base) / periodWhole then INT64_MAX
        else
          var partial := remainder * periodWhole;
          var tail := remainder * periodRemainder / UNITS_PER_TOKEN;
          if tail > INT64_MAX - base - partial then INT64_MAX
          else
            PartsNotNegative(whole, period, remainder, periodWhole, periodRemainder);
            base + partial + tail
  }

  lemma PartsNotNegative(whole: nat, period: nat, remainder: nat, periodWhole: nat, periodRemainder: nat)
    ensures whole * period >= 0 && remainder * periodWhole >= 0 && remainder * periodRemainder >= 0
  {
  }

  /** A quotient bound is a product bound: the overflow tests say exactly when the products fit. */
  lemma WholeFits(a: nat, b: nat)
    requires b > 0
    ensures a <= INT64_MAX / b <==> a * b <= INT64_MAX
  {
    QuotientBound(a, b, INT64_MAX);
  }

  lemma QuotientBound(a: nat, b: nat, limit: nat)
    requires b > 0
    ensures a <= limit / b <==> a * b <= limit
  {
    var q := limit / b;
    assert limit == q * b + limit % b;
    if a <= q {
      Monotone(a, q, b);
    } else {
      Monotone(q + 1, a, b);
      assert (q + 1) * b == q * b + b;
    }
  }

  lemma Monotone(a: nat, b: nat, k: nat)
    requires a <= b
    ensures a * k <= b * k
  {
  }

  function SaturatedAdd(lhs: Int64, rhs: Int64): Int64 {
    if rhs > 0 && lhs > INT64_MAX - rhs then INT64_MAX else lhs + rhs
  }

  function Least(a: nat, b: nat): nat {
    if a < b then a else b
  }

  /** The exact duration of a number of units, rounded down. */
  function Exact(units: nat, period: nat): nat {
    units * period / UNITS_PER_TOKEN
  }

  lemma FloorOfSum(whole: nat, part: nat, k: nat)
    requires k > 0
    ensures (whole * k + part) / k == whole + part / k
  {
    var q, r := part / k, part % k;
    assert whole * k + part == (whole + q) * k + r;
    QuotientIsUnique(whole * k + part, k, whole + q, r);
  }

  lemma QuotientIsUnique(a: nat, k: nat, q: nat, r: nat)
    requires k > 0 && a == q * k + r && r < k
    ensures a / k == q
  {
    QuotientBound(q, k, a);
    QuotientBound(q + 1, k, a);
    assert (q + 1) * k == q * k + k;
  }

  lemma SplitProduct(w: nat, r: nat, period: nat, pw: nat, pr: nat)
    requires period == pw * UNITS_PER_TOKEN + pr
    ensures (w * UNITS_PER_TOKEN + r) * period == (w * period + r * pw) * UNITS_PER_TOKEN + r * pr
  {
    assert (w * UNITS_PER_TOKEN + r) * period == w * UNITS_PER_TOKEN * period + r * period;
    assert r * period == r * (pw * UNITS_PER_TOKEN + pr) == r * pw * UNITS_PER_TOKEN + r * pr;
  }

  /** The exact duration splits into the three parts the 64-bit computation adds up. */
  lemma ExactParts(units: nat, period: nat)
    ensures var w, r := units / UNITS_PER_TOKEN, units % UNITS_PER_TOKEN;
            var pw, pr := period / UNITS_PER_TOKEN, period % UNITS_PER_TOKEN;
            Exact(units, period) == w * period + r * pw + r * pr / UNITS_PER_TOKEN
  {
    var w, r := units / UNITS_PER_TOKEN, units % UNITS_PER_TOKEN;
    var pw, pr := period / UNITS_PER_TOKEN, period % UNITS_PER_TOKEN;
    SplitProduct(w, r, period, pw, pr);
    PartsNotNegative(w, period, r, pw, pr);
    FloorOfSum(w * period + r * pw, r * pr, UNITS_PER_TOKEN);
  }

  /** The 64-bit computation is the exact floor, cut off at the largest 64-bit value. */
  lemma ScaledDurationExactly(units: Int64, period: Int64)
    ensures ScaledDuration(units, period) == Least(INT64_MAX, Exact(units, period))
  {
    ExactParts(units, period);
    if units > 0 && period > 0 {
      var w, r := units / UNITS_PER_TOKEN, units % UNITS_PER_TOKEN;
      var pw, pr := period / UNITS_PER_TOKEN, period % UNITS_PER_TOKEN;
      PartsNotNegative(w, period, r, pw, pr);
      WholeFits(w, period);
      if w * period <= INT64_MAX && pw != 0 {
        QuotientBound(r, pw, INT64_MAX - w * period);
      }
    }
  }

  /** No intermediate value of the computation leaves the 64-bit range. */
  lemma NoIntermediateOverflow(units: Int64, period: Int64)
    requires units > 0 && period > 0
    ensures var w, r := units / UNITS_PER_TOKEN, units % UNITS_PER_TOKEN;
            var pw, pr := period / UNITS_PER_TOKEN, period % UNITS_PER_TOKEN;
            && 0 <= r * pr <= INT64_MAX
            && (w <= INT64_MAX / period ==>
                  && 0 <= w * period <= INT64_MAX
                  && (pw == 0 || r <= (INT64_MAX - w * period) / pw ==> 0 <= w * period + r * pw <= INT64_MAX))
  {
    var w, r := units / UNITS_PER_TOKEN, units % UNITS_PER_TOKEN;
    var pw, pr := period / UNITS_PER_TOKEN, period % UNITS_PER_TOKEN;
    PartsNotNegative(w, period, r, pw, pr);
    Monotone(r, UNITS_PER_TOKEN, pr);
    WholeFits(w, period);
    if w * period <= INT64_MAX && pw != 0 {
      QuotientBound(r, pw, INT64_MAX - w * period);
    }
  }

  // ----- the limiter -----

  datatype Config = Config(capacity: Int64, period: Int64)

  function Increment(c: Config, cost: Int64): Int64 {
    ScaledDuration(cost, c.period)
  }

  function Tolerance(c: Config, cost: Int64): Int64 {
    if cost <= c.capacity then ScaledDuration(c.capacity - cost, c.period) else 0
  }

  predicate Conforms(c: Config, arrival: Int64, now: Int64, cost: Int64) {
    arrival <= SaturatedAdd(now, Tolerance(c, cost))
  }

  function NextArrival(c: Config, arrival: Int64, now: Int64, cost: Int64): Int64 {
    SaturatedAdd(if arrival < now then now else arrival, Increment(c, cost))
  }

  /** The arrival time set by a configuration that leaves `available` units to spend at once. */
  function Configured(c: Config, available: Int64, now: Int64): Int64 {
    SaturatedAdd(now, ScaledDuration(if available < c.capacity then c.capacity - available else 0, c.period))
  }

  /** An admitted request: its own clock reading, taken before the swap, and its cost. */
  datatype Admission = Admission(now: Int64, cost: Int64)

  /** A thread inside try_acquire. */
  datatype Attempt =
    | Clocked(now: Int64, cost: Int64)
    | Loaded(now: Int64, cost: Int64, observed: Int64)
    | Swapping(now: Int64, cost: Int64, observed: Int64)

  datatype Limiter = Limiter(
    arrival: Int64,
    attempts: map<nat, Attempt>,
    admitted: seq<Admission>,        // in the order of their swaps
    refused: nat
  )

  function Begin(c: Config, s: Limiter, t: nat, now: Int64, cost: Int64): Limiter {
    if t in s.attempts then s
    else if cost == 0 || cost > c.capacity || c.period == 0 then s.(refused := s.refused + 1)
    else s.(attempts := s.attempts[t := Clocked(now, cost)])
  }

  /** One step of a thread; the weak swap may also fail without a reason. */
  function Proceed(c: Config, s: Limiter, t: nat, spurious: bool): Limiter {
    if t !in s.attempts then s
    else
      match s.attempts[t]
      case Clocked(now, cost) => s.(attempts := s.attempts[t := Loaded(now, cost, s.arrival)])
      case Loaded(now, cost, observed) =>
        if !Conforms(c, observed, now, cost) then s.(attempts := s.attempts - {t}, refused := s.refused + 1)
        else s.(attempts := s.attempts[t := Swapping(now, cost, observed)])
      case Swapping(now, cost, observed) =>
        if s.arrival != observed || spurious then s.(attempts := s.attempts[t := Loaded(now, cost, s.arrival)])
        else
          s.(arrival := NextArrival(c, observed, now, cost), attempts := s.attempts - {t},
             admitted := s.admitted + [Admission(now, cost)])
  }

  datatype Step =
    | DoBegin(t: nat, now: Int64, cost: Int64)
    | DoProceed(t: nat, spurious: bool)

  function Exec(c: Config, s: Limiter, step: Step): Limiter {
    match step
    case DoBegin(t, now, cost) => Begin(c, s, t, now, cost)
    case DoProceed(t, spurious) => Proceed(c, s, t, spurious)
  }

  function After(c: Config, start: Int64, steps: seq<Step>): Limiter {
    if steps == [] then Limiter(start, map[], [], 0)
    else Exec(c, After(c, start, steps[..|steps| - 1]), steps[|steps| - 1])
  }

  // ----- the admissions as a sequence -----

  /** The arrival time after a sequence of admissions. */
  function Arrival(c: Config, start: Int64, admitted: seq<Admission>): Int64 {
    if admitted == [] then start
    else
      var last := admitted[|admitted| - 1];
      NextArrival(c, Arrival(c, start, admitted[..|admitted| - 1]), last.now, last.cost)
  }

  ghost predicate AllConform(c: Config, start: Int64, admitted: seq<Admission>) {
    forall i :: 0 <= i < |admitted| ==>
      && 0 < admitted[i].cost <= c.capacity && c.period > 0
      && Conforms(c, Arrival(c, start, admitted[..i]), admitted[i].now, admitted[i].cost)
  }

  ghost predicate AttemptOk(c: Config, a: Attempt) {
    && 0 < a.cost <= c.capacity && c.period > 0
    && (a.Swapping? ==> Conforms(c, a.observed, a.now, a.cost))
  }

  ghost predicate Safe(c: Config, start: Int64, s: Limiter) {
    && s.arrival == Arrival(c, start, s.admitted)
    && AllConform(c, start, s.admitted)
    && forall t :: t in s.attempts ==> AttemptOk(c, s.attempts[t])
  }

  lemma OneMoreConforms(c: Config, start: Int64, admitted: seq<Admission>, a: Admission)
    requires AllConform(c, start, admitted) && 0 < a.cost <= c.capacity && c.period > 0
    requires Conforms(c, Arrival(c, start, admitted), a.now, a.cost)
    ensures AllConform(c, start, admitted + [a])
  {
    hide Conforms, Arrival;
    var longer := admitted + [a];
    forall i | 0 <= i < |longer|
      ensures 0 < longer[i].cost <= c.capacity && Conforms(c, Arrival(c, start, longer[..i]), longer[i].now, longer[i].cost)
    {
      assert longer[..i] == admitted[..i];
      assert admitted[..|admitted|] == admitted;
    }
  }

  lemma ProceedSafe(c: Config, start: Int64, s: Limiter, t: nat, spurious: bool)
    requires Safe(c, start, s)
    ensures Safe(c, start, Proceed(c, s, t, spurious))
  {
    hide Conforms, NextArrival, AllConform;
    if t in s.attempts {
      var a := s.attempts[t];
      assert AttemptOk(c, a);
      if a.Swapping? && s.arrival == a.observed && !spurious {
        OneMoreConforms(c, start, s.admitted, Admission(a.now, a.cost));
        assert (s.admitted + [Admission(a.now, a.cost)])[..|s.admitted|] == s.admitted;
      }
    }
  }

  /** Admissions follow one another as if each had been taken alone, in the order of their swaps. */
  lemma {:induction false} EveryRunIsSafe(c: Config, start: Int64, steps: seq<Step>)
    ensures Safe(c, start, After(c, start, steps))
  {
    hide Proceed;
    if steps != [] {
      var before := After(c, start, steps[..|steps| - 1]);
      EveryRunIsSafe(c, start, steps[..|steps| - 1]);
      match steps[|steps| - 1]
      case DoBegin(t, now, cost) => assert Safe(c, start, Begin(c, before, t, now, cost));
      case DoProceed(t, spurious) => ProceedSafe(c, start, before, t, spurious);
    }
  }

  // ----- the admission bound -----

  function TotalIncrement(c: Config, admitted: seq<Admission>): nat {
    if admitted == [] then 0
    else TotalIncrement(c, admitted[..|admitted| - 1]) + Increment(c, admitted[|admitted| - 1].cost)
  }

  /** The arrival time never falls and, short of saturation, gains each admission's increment. */
  lemma {:induction false} ArrivalGains(c: Config, start: Int64, admitted: seq<Admission>, i: nat)
    requires i <= |admitted| && Arrival(c, start, admitted) < INT64_MAX
    ensures Arrival(c, start, admitted) >= Arrival(c, start, admitted[..i]) + TotalIncrement(c, admitted[i..])
    decreases |admitted| - i
  {
    hide Increment;
    var n := |admitted|;
    if i == n {
      assert admitted[..i] == admitted && admitted[i..] == [];
    } else {
      var before := admitted[..n - 1];
      var last := admitted[n - 1];
      assert Arrival(c, start, before) <= Arrival(c, start, admitted);
      ArrivalGains(c, start, before, i);
      assert before[..i] == admitted[..i];
      assert admitted[i..][..n - 1 - i] == before[i..];
    }
  }

  /** Tolerance and increment of one request never exceed the whole capacity's duration. */
  lemma SplitCapacity(c: Config, cost: Int64)
    requires 0 < cost <= c.capacity
    ensures Tolerance(c, cost) + Increment(c, cost) <= Exact(c.capacity, c.period)
    ensures Increment(c, cost) < INT64_MAX && Tolerance(c, cost) < INT64_MAX ==>
              Exact(c.capacity, c.period) <= Tolerance(c, cost) + Increment(c, cost) + 1
  {
    ScaledDurationExactly(cost, c.period);
    ScaledDurationExactly(c.capacity - cost, c.period);
    FloorsAdd(cost, c.capacity - cost, c.period);
  }

  lemma FloorsAdd(a: nat, b: nat, period: nat)
    ensures Exact(a, period) + Exact(b, period) <= Exact(a + b, period) <= Exact(a, period) + Exact(b, period) + 1
  {
    assert (a + b) * period == a * period + b * period;
    FloorsAddUp(a * period, b * period, UNITS_PER_TOKEN);
  }

  lemma FloorsAddUp(x: nat, y: nat, k: nat)
    requires k > 0
    ensures x / k + y / k <= (x + y) / k <= x / k + y / k + 1
  {
    var r := x % k + y % k;
    assert x + y == (x / k + y / k) * k + r;
    if r < k {
      QuotientIsUnique(x + y, k, x / k + y / k, r);
    } else {
      assert x + y == (x / k + y / k + 1) * k + (r - k);
      QuotientIsUnique(x + y, k, x / k + y / k + 1, r - k);
    }
  }

  /** After an admission the arrival time is at most one full capacity ahead of that admission's clock. */
  lemma ArrivalStaysNear(c: Config, start: Int64, admitted: seq<Admission>)
    requires AllConform(c, start, admitted) && admitted != [] && Arrival(c, start, admitted) < INT64_MAX
    ensures Arrival(c, start, admitted) <= admitted[|admitted| - 1].now + ScaledDuration(c.capacity, c.period)
  {
    hide Increment, Tolerance, ScaledDuration;
    var n := |admitted| - 1;
    var last := admitted[n];
    assert Conforms(c, Arrival(c, start, admitted[..n]), last.now, last.cost);
    SplitCapacity(c, last.cost);
    ScaledDurationExactly(c.capacity, c.period);
  }

  /**
   Over every window of admissions, in whatever order the threads read their clocks, the increments
   add up to at most the elapsed time plus one full capacity, as long as the arrival time has not
   reached the largest 64-bit value.
   */
  lemma WindowBound(c: Config, start: Int64, steps: seq<Step>, i: nat, j: nat)
    requires i <= j < |After(c, start, steps).admitted|
    requires Arrival(c, start, After(c, start, steps).admitted[..j + 1]) < INT64_MAX
    ensures var admitted := After(c, start, steps).admitted;
            TotalIncrement(c, admitted[i..j + 1])
            <= admitted[j].now - admitted[i].now + ScaledDuration(c.capacity, c.period)
  {
    hide After, Increment, ScaledDuration, AttemptOk;
    EveryRunIsSafe(c, start, steps);
    var admitted := After(c, start, steps).admitted;
    var window := admitted[..j + 1];
    PrefixConforms(c, start, admitted, j + 1);
    ArrivalStaysNear(c, start, window);
    ArrivalGains(c, start, window, i);
    ArrivalGains(c, start, window, i + 1);
    assert window[i..] == admitted[i..j + 1];
    assert window[..i + 1][..i] == window[..i];
    FirstOfWindow(c, admitted[i..j + 1]);
    assert admitted[i..j + 1][1..] == window[i + 1..];
  }

  lemma PrefixConforms(c: Config, start: Int64, admitted: seq<Admission>, n: nat)
    requires AllConform(c, start, admitted) && n <= |admitted|
    ensures AllConform(c, start, admitted[..n])
  {
    hide Conforms, Arrival;
    var prefix := admitted[..n];
    forall i | 0 <= i < |prefix|
      ensures 0 < prefix[i].cost <= c.capacity && c.period > 0
      ensures Conforms(c, Arrival(c, start, prefix[..i]), prefix[i].now, prefix[i].cost)
    {
      assert prefix[..i] == admitted[..i] && prefix[i] == admitted[i];
    }
  }

  lemma {:induction false} FirstOfWindow(c: Config, admitted: seq<Admission>)
    requires admitted != []
    ensures TotalIncrement(c, admitted) == Increment(c, admitted[0].cost) + TotalIncrement(c, admitted[1..])
    decreases |admitted|
  {
    hide Increment;
    if |admitted| > 1 {
      FirstOfWindow(c, admitted[..|admitted| - 1]);
      assert admitted[..|admitted| - 1][1..] == admitted[1..][..|admitted| - 2];
    }
  }

  /** Counted from a configuration that left `available` units, the same bound starts from those units. */
  lemma BoundSinceConfiguration(c: Config, available: Int64, configured: Int64, steps: seq<Step>)
    requires available <= c.capacity
    requires var s := After(c, Configured(c, available, configured), steps); s.admitted != [] && s.arrival < INT64_MAX
    ensures var s := After(c, Configured(c, available, configured), steps);
            TotalIncrement(c, s.admitted)
            <= s.admitted[|s.admitted| - 1].now - configured + ScaledDuration(c.capacity, c.period)
               - ScaledDuration(c.capacity - available, c.period)
  {
    hide After, Increment, ScaledDuration, AttemptOk;
    var start := Configured(c, available, configured);
    EveryRunIsSafe(c, start, steps);
    var admitted := After(c, start, steps).admitted;
    ArrivalStaysNear(c, start, admitted);
    ArrivalGains(c, start, admitted, 0);
    assert admitted[0..] == admitted && Arrival(c, start, admitted[..0]) == start;
  }

  function TotalCost(admitted: seq<Admission>): nat {
    if admitted == [] then 0 else TotalCost(admitted[..|admitted| - 1]) + admitted[|admitted| - 1].cost
  }

  /** Rounding an increment down gives away less than one nanosecond per admission. */
  lemma {:induction false} CostBehindIncrements(c: Config, admitted: seq<Admission>)
    requires forall i :: 0 <= i < |admitted| ==> Increment(c, admitted[i].cost) < INT64_MAX
    ensures TotalCost(admitted) * c.period <= (TotalIncrement(c, admitted) + |admitted|) * UNITS_PER_TOKEN
  {
    hide Increment;
    if admitted != [] {
      var last := admitted[|admitted| - 1];
      CostBehindIncrements(c, admitted[..|admitted| - 1]);
      CostOfIncrement(c, last.cost);
      var before := TotalCost(admitted[..|admitted| - 1]);
      assert (before + last.cost) * c.period == before * c.period + last.cost * c.period;
    }
  }

  lemma CostOfIncrement(c: Config, cost: Int64)
    requires Increment(c, cost) < INT64_MAX
    ensures cost * c.period <= (Increment(c, cost) + 1) * UNITS_PER_TOKEN
  {
    ScaledDurationExactly(cost, c.period);
  }

  /** Refusals are needed: admitting would have put the arrival time past a full capacity, up to rounding. */
  lemma RefusalIsNeeded(c: Config, arrival: Int64, now: Int64, cost: Int64)
    requires 0 < cost <= c.capacity && !Conforms(c, arrival, now, cost)
    requires Increment(c, cost) < INT64_MAX && Tolerance(c, cost) < INT64_MAX
    ensures arrival + Increment(c, cost) >= now + ScaledDuration(c.capacity, c.period)
  {
    hide Increment, Tolerance, ScaledDuration;
    SplitCapacity(c, cost);
    ScaledDurationExactly(c.capacity, c.period);
  }

  // ----- where the bound ends -----

  function Repeated(a: Admission, n: nat): (r: seq<Admission>)
    ensures |r| == n
  {
    seq(n, _ => a)
  }

  /** Once the arrival time is saturated, requests pass exactly when clock plus tolerance saturate too. */
  lemma SaturatedPassesExactly(c: Config, now: Int64, cost: Int64)
    ensures Conforms(c, INT64_MAX, now, cost) <==> now + Tolerance(c, cost) >= INT64_MAX
  {
    hide Tolerance;
  }

  /**
   A burst at one clock reading can go on for ever exactly when the request's increment rounds to
   zero or clock plus tolerance reach the largest 64-bit value.
   */
  lemma BurstIsUnboundedExactly(c: Config, start: Int64, a: Admission)
    requires 0 < a.cost <= c.capacity && c.period > 0 && start <= a.now
    ensures (forall n: nat :: AllConform(c, start, Repeated(a, n)))
            <==> Increment(c, a.cost) == 0 || a.now + Tolerance(c, a.cost) >= INT64_MAX
  {
    hide Increment, Tolerance, AllConform;
    if Increment(c, a.cost) == 0 {
      forall n: nat
        ensures AllConform(c, start, Repeated(a, n))
      {
        RoundedBurst(c, start, a, n);
      }
    } else if a.now + Tolerance(c, a.cost) >= INT64_MAX {
      forall n: nat
        ensures AllConform(c, start, Repeated(a, n))
      {
        SaturatedBurst(c, start, a, n);
      }
    } else {
      var n := Tolerance(c, a.cost) + 2;
      BurstEnds(c, start, a, n);
    }
  }

  lemma {:induction false} RoundedBurst(c: Config, start: Int64, a: Admission, n: nat)
    requires 0 < a.cost <= c.capacity && c.period > 0 && start <= a.now && Increment(c, a.cost) == 0
    ensures AllConform(c, start, Repeated(a, n)) && Arrival(c, start, Repeated(a, n)) <= a.now
  {
    hide Increment, Tolerance;
    if n > 0 {
      RoundedBurst(c, start, a, n - 1);
      assert Repeated(a, n) == Repeated(a, n - 1) + [a];
      assert Repeated(a, n)[..n - 1] == Repeated(a, n - 1);
      OneMoreConforms(c, start, Repeated(a, n - 1), a);
    }
  }

  lemma {:induction false} SaturatedBurst(c: Config, start: Int64, a: Admission, n: nat)
    requires 0 < a.cost <= c.capacity && c.period > 0 && a.now + Tolerance(c, a.cost) >= INT64_MAX
    ensures AllConform(c, start, Repeated(a, n))
  {
    hide Increment, Tolerance;
    if n > 0 {
      SaturatedBurst(c, start, a, n - 1);
      assert Repeated(a, n) == Repeated(a, n - 1) + [a];
      OneMoreConforms(c, start, Repeated(a, n - 1), a);
    }
  }

  lemma BurstEnds(c: Config, start: Int64, a: Admission, n: nat)
    requires 0 < a.cost <= c.capacity && start <= a.now && Increment(c, a.cost) > 0
    requires a.now + Tolerance(c, a.cost) < INT64_MAX && n >= Tolerance(c, a.cost) + 2
    ensures !AllConform(c, start, Repeated(a, n))
  {
    hide Increment, Tolerance, AllConform;
    if AllConform(c, start, Repeated(a, n)) {
      BurstGrows(c, start, a, n - 1);
      LastConforms(c, start, a, n);
      assert false;
    }
  }

  lemma LastConforms(c: Config, start: Int64, a: Admission, n: nat)
    requires AllConform(c, start, Repeated(a, n)) && n > 0
    ensures Conforms(c, Arrival(c, start, Repeated(a, n - 1)), a.now, a.cost)
  {
    hide Conforms, Arrival;
    assert Repeated(a, n)[..n - 1] == Repeated(a, n - 1);
    assert Repeated(a, n)[n - 1] == a;
  }

  /** Each repetition moves the arrival time on by at least one nanosecond until it saturates. */
  lemma {:induction false} BurstGrows(c: Config, start: Int64, a: Admission, n: nat)
    requires Increment(c, a.cost) > 0 && n > 0
    ensures Arrival(c, start, Repeated(a, n)) == INT64_MAX || Arrival(c, start, Repeated(a, n)) >= a.now + n
  {
    hide Increment;
    assert Repeated(a, n)[..n - 1] == Repeated(a, n - 1);
    if n > 1 {
      BurstGrows(c, start, a, n - 1);
    }
  }

  /** One micro-token at one nanosecond per token costs nothing, and a period this long saturates at once. */
  const TINY_COST := Config(1_000_000, 1)
  const HUGE_PERIOD := Config(2_000_000, INT64_MAX)

  lemma BurstsCanBeUnbounded(n: nat)
    ensures Increment(TINY_COST, 1) == 0 && AllConform(TINY_COST, 0, Repeated(Admission(0, 1), n))
    ensures Increment(HUGE_PERIOD, 1_000_000) == INT64_MAX
    ensures AllConform(HUGE_PERIOD, 0, Repeated(Admission(0, 1_000_000), n))
  {
    hide AllConform;
    ScaledDurationExactly(1, 1);
    ScaledDurationExactly(1_000_000, INT64_MAX);
    RoundedBurst(TINY_COST, 0, Admission(0, 1), n);
    SaturatedBurst(HUGE_PERIOD, 0, Admission(0, 1_000_000), n);
  }
}
