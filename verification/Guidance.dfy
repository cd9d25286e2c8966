/**
 The quantity range the command line suggests for an order, against the checks the gateway makes
 before routing one: instrument rules and available balance. All amounts are raw decimals.
 */
module Guidance {
  import opened Wrappers
  import opened Orders
  import opened Decimals
  import opened Risk

  datatype Rules = Rules(
    symbol: string,
    trading: bool,
    minimumPrice: Option<int>,
    maximumPrice: Option<int>,
    priceTick: Option<int>,
    minimumQuantity: Option<int>,
    maximumQuantity: Option<int>,
    quantityStep: Option<int>,
    marketMinimumQuantity: Option<int>,
    marketMaximumQuantity: Option<int>,
    marketQuantityStep: Option<int>,
    minimumNotional: Option<int>,
    maximumNotional: Option<int>,
    marketMinimumNotional: Option<int>,
    marketMaximumNotional: Option<int>
  )

  // ----- the gateway's checks -----

  predicate Below(value: int, limit: Option<int>) {
    limit.Some? && value < limit.value
  }

  predicate Above(value: int, limit: Option<int>) {
    limit.Some? && value > limit.value
  }

  /** Steps that are absent or not positive are not enforced. */
  predicate OnStep(value: int, step: Option<int>) {
    step.Some? && step.value > 0 ==> value % step.value == 0
  }

  function QuantityRange(quantity: int, minimum: Option<int>, maximum: Option<int>, step: Option<int>): Decision {
    if Below(quantity, minimum) then Reject(MinOrderQuantity)
    else if Above(quantity, maximum) then Reject(MaxVenueOrderQuantity)
    else if !OnStep(quantity, step) then Reject(InvalidQuantityStep)
    else Accept
  }

  function PriceRules(price: int, rules: Rules): Decision {
    if Below(price, rules.minimumPrice) then Reject(PriceOutOfRange)
    else if Above(price, rules.maximumPrice) then Reject(PriceOutOfRange)
    else if !OnStep(price, rules.priceTick) then Reject(InvalidPriceTick)
    else Accept
  }

  function MinimumNotional(rules: Rules, orderType: OrderType): Option<int> {
    if orderType == Market then rules.marketMinimumNotional else rules.minimumNotional
  }

  function MaximumNotional(rules: Rules, orderType: OrderType): Option<int> {
    if orderType == Market then rules.marketMaximumNotional else rules.maximumNotional
  }

  /** None stands for the overflow exception of the decimal product. */
  function NotionalRules(quantity: int, price: int, orderType: OrderType, rules: Rules): Option<Decision> {
    match Mul(quantity, price)
    case Err(_) => None
    case Ok(notional) =>
      if Below(notional, MinimumNotional(rules, orderType)) then Some(Reject(MinOrderNotional))
      else if Above(notional, MaximumNotional(rules, orderType)) then Some(Reject(MaxVenueOrderNotional))
      else Some(Accept)
  }

  function InstrumentDecision(q: OrderRequest, executablePrice: Option<int>, rules: Rules): Option<Decision> {
    if rules.symbol != q.symbol then Some(Reject(InstrumentRulesUnavailable))
    else if !rules.trading then Some(Reject(InstrumentNotTrading))
    else
      var order := QuantityRange(q.quantity, rules.minimumQuantity, rules.maximumQuantity, rules.quantityStep);
      var market := if q.orderType == Market
                    then QuantityRange(q.quantity, rules.marketMinimumQuantity, rules.marketMaximumQuantity,
                                       rules.marketQuantityStep)
                    else Accept;
      var priced := if q.orderType == Limit && q.price.Some? then PriceRules(q.price.value, rules) else Accept;
      var price := if q.orderType == Limit then q.price else executablePrice;
      if order != Accept then Some(order)
      else if market != Accept then Some(market)
      else if priced != Accept then Some(priced)
      else if price.None? then Some(Accept)
      else NotionalRules(q.quantity, price.value, q.orderType, rules)
  }

  /** What the order locks: the base quantity of a sell, the quote amount of a buy at its price. */
  function FundingAmount(q: OrderRequest, marketPrice: Option<int>): Option<Result<int, DecimalError>> {
    var price := if q.orderType == Market then marketPrice else q.price;
    if q.side == Sell then Some(Ok(q.quantity))
    else if price.None? then None
    else Some(Mul(q.quantity, price.value))
  }

  function FundingDecision(available: int, amount: int): Decision {
    if available >= amount then Accept else Reject(InsufficientAvailableBalance)
  }

  // ----- the suggested range -----

  const RESERVE_FACTOR := 99_500_000

  function FloorToStep(value: int, step: Option<int>): int {
    if step.None? || step.value <= 0 then value else TruncDiv(value, step.value) * step.value
  }

  /** The remainder is the truncating one, so a negative value with a remainder moves up a whole step. */
  function CeilToStep(value: int, step: Option<int>): int {
    if step.None? || step.value <= 0 then value
    else
      var quotient := TruncDiv(value, step.value);
      (quotient + if value % step.value == 0 then 0 else 1) * step.value
  }

  datatype Range = Range(minimum: int, maximum: int)

  predicate Routeable(r: Range) {
    r.maximum >= r.minimum && r.maximum > 0
  }

  /** What the suggestion is asked for; a buy needs a price, a given price is positive. */
  datatype Query = Query(side: Side, orderType: OrderType, price: Option<int>, available: int, rules: Rules)

  predicate Is64Bit(value: Option<int>) {
    value.Some? ==> InRange(value.value)
  }

  /** The raw values of the rules that decide the minimum are 64-bit integers, as every decimal's is. */
  predicate ValidRules(rules: Rules) {
    && Is64Bit(rules.minimumQuantity) && Is64Bit(rules.quantityStep)
    && Is64Bit(rules.marketMinimumQuantity) && Is64Bit(rules.marketQuantityStep)
  }

  predicate ValidQuery(c: Query) {
    (c.price.Some? ==> c.price.value > 0) && (c.side == Buy ==> c.price.Some?) && ValidRules(c.rules)
  }

  function Usable(c: Query): int {
    Product(c.available, RESERVE_FACTOR)
  }

  predicate OnSteps(c: Query, quantity: int) {
    OnStep(quantity, c.rules.quantityStep) && (c.orderType == Market ==> OnStep(quantity, c.rules.marketQuantityStep))
  }

  /** A quantity that respects every upper limit, in exact arithmetic, and leaves the reserve untouched. */
  predicate WithinLimits(c: Query, quantity: int) {
    && (if c.side == Sell then quantity <= Usable(c) else c.price.Some? && quantity * c.price.value <= Usable(c) * SCALE)
    && !Above(quantity, c.rules.maximumQuantity)
    && (c.orderType == Market ==> !Above(quantity, c.rules.marketMaximumQuantity))
    && (c.price.Some? && MaximumNotional(c.rules, c.orderType).Some? ==>
          quantity * c.price.value <= MaximumNotional(c.rules, c.orderType).value * SCALE)
  }

  /** A quantity that the gateway's minimum checks accept. */
  predicate MeetsMinimums(c: Query, quantity: int) {
    && !Below(quantity, c.rules.minimumQuantity)
    && (c.orderType == Market ==> !Below(quantity, c.rules.marketMinimumQuantity))
    && (c.price.Some? ==> !Below(Product(quantity, c.price.value), MinimumNotional(c.rules, c.orderType)))
  }

  /** The range tells exactly which quantities on the steps are within the limits and above the minimums. */
  ghost predicate Guides(c: Query, r: Range) {
    forall q :: q > 0 && OnSteps(c, q) ==>
      && (q <= r.maximum <==> WithinLimits(c, q))
      && (q >= r.minimum <==> MeetsMinimums(c, q))
  }

  // ----- arithmetic -----

  lemma MultipleOfPositive(d: int, k: int)
    requires k > 0
    ensures d >= 0 ==> d * k >= 0
    ensures d >= 1 ==> d * k >= k
  {
    if d >= 1 {
      assert d * k == (d - 1) * k + k;
      assert (d - 1) * k >= 0;
    }
  }

  lemma MultipleOrder(a: int, b: int, k: int)
    requires k > 0
    ensures a <= b <==> a * k <= b * k
  {
    MultipleOfPositive(b - a, k);
    MultipleOfPositive(a - b, k);
    assert (b - a) * k == b * k - a * k && (a - b) * k == a * k - b * k;
  }

  lemma FloorBound(x: int, n: int, k: int)
    requires k > 0 && n >= 0
    ensures x <= n / k <==> x * k <= n
  {
    var d := n / k;
    assert n == d * k + n % k;
    MultipleOrder(x, d, k);
    if x > d {
      MultipleOrder(d + 1, x, k);
      assert (d + 1) * k == d * k + k;
    }
  }

  /** Dividing a limit by the price loses nothing on whole raw quantities. */
  lemma QuotientLimit(q: int, price: int, limit: int)
    requires q > 0 && price > 0
    ensures q <= Quotient(limit, price) <==> q * price <= limit * SCALE
  {
    if limit >= 0 {
      FloorBound(q, limit * SCALE, price);
    } else {
      FloorBound(0, (-limit) * SCALE, price);
      MultipleOrder(1, q, price);
    }
  }

  lemma ProductFloor(q: int, price: int)
    requires q >= 0 && price >= 0
    ensures q * price >= 0 && Product(q, price) == q * price / SCALE
  {
  }

  lemma ProductAtMost(q: int, price: int, limit: int)
    requires q > 0 && price > 0 && q * price <= limit * SCALE
    ensures 0 <= Product(q, price) <= limit
  {
    ProductFloor(q, price);
    FloorBound(Product(q, price), q * price, SCALE);
  }

  /** The smallest quantity whose truncated notional reaches a bound. */
  function LeastQuantity(bound: int, price: int): int
    requires price > 0
  {
    var quantity := Quotient(bound, price);
    if Product(quantity, price) < bound then quantity + 1 else quantity
  }

  lemma LeastQuantityExactly(q: int, price: int, bound: int)
    requires q > 0 && price > 0
    ensures q >= LeastQuantity(bound, price) <==> Product(q, price) >= bound
  {
    ProductFloor(q, price);
    if bound > 0 {
      var quantity := Quotient(bound, price);
      assert quantity == bound * SCALE / price;
      assert quantity >= 0 by { FloorBound(0, bound * SCALE, price); }
      ProductFloor(quantity, price);
      FloorBound(q, bound * SCALE, price);
      FloorBound(bound, q * price, SCALE);
      FloorBound(bound, quantity * price, SCALE);
      FloorBound(quantity, bound * SCALE, price);
      MultipleOrder(q, quantity, price);
      MultipleOrder(quantity, q, price);
      FloorBound(quantity + 1, bound * SCALE, price);
      MultipleOrder(quantity + 1, q, price);
    } else {
      NoLowerBound(price, bound);
      FloorBound(0, q * price, SCALE);
    }
  }

  lemma NoLowerBound(price: int, bound: int)
    requires price > 0 && bound <= 0
    ensures LeastQuantity(bound, price) <= 0
  {
    var quantity := Quotient(bound, price);
    var m := (-bound) * SCALE / price;
    FloorBound(0, (-bound) * SCALE, price);
    FloorBound(m, (-bound) * SCALE, price);
    assert quantity == -m;
    assert m * price <= (-bound) * SCALE;
    assert quantity * price == -(m * price);
    FloorBound(-bound + 1, m * price, SCALE);
    assert m * price >= 0 by { MultipleOrder(0, m, price); }
  }

  // ----- steps -----

  /** Rounding down to a step loses no quantity that lies on the step. */
  lemma FloorToStepExactly(q: int, value: int, step: Option<int>)
    requires q > 0 && OnStep(q, step)
    ensures q <= FloorToStep(value, step) <==> q <= value
    ensures step.Some? && step.value > 0 ==> FloorToStep(value, step) % step.value == 0
  {
    if step.Some? && step.value > 0 {
      var k := step.value;
      var m := q / k;
      assert q == m * k;
      var d := TruncDiv(value, k);
      Multiple(d, k);
      MultipleOrder(m, d, k);
      if value >= 0 {
        FloorBound(m, value, k);
      } else {
        FloorBound(0, -value, k);
        MultipleOrder(d, 0, k);
      }
    }
  }

  lemma Multiple(d: int, k: int)
    requires k > 0
    ensures (d * k) % k == 0
  {
    var r := (d * k) % k;
    var e := (d * k) / k;
    assert d * k == e * k + r;
    assert (d - e) * k == r;
    MultipleOfPositive(d - e, k);
    MultipleOfPositive(e - d, k);
    assert (e - d) * k == -r;
  }

  lemma Rounded(value: int, k: int)
    requires k > 0 && value >= 0
    ensures FloorToStep(value, Some(k)) == (value / k) * k >= 0
    ensures CeilToStep(value, Some(k)) == (value / k + if value % k == 0 then 0 else 1) * k >= 0
    ensures FloorToStep(value, Some(k)) % k == 0 && CeilToStep(value, Some(k)) % k == 0
  {
    FloorBound(0, value, k);
    MultipleOfPositive(value / k, k);
    MultipleOfPositive(value / k + 1, k);
    Multiple(value / k, k);
    Multiple(value / k + 1, k);
  }

  lemma CeilOfNegative(value: int, k: int)
    requires k > 0 && value < 0
    ensures CeilToStep(value, Some(k)) <= k && CeilToStep(value, Some(k)) % k == 0
  {
    var d := TruncDiv(value, k);
    FloorBound(0, -value, k);
    assert d <= 0;
    Multiple(d, k);
    Multiple(d + 1, k);
    MultipleOrder(d, 0, k);
    MultipleOrder(d + 1, 1, k);
  }

  lemma PositiveMultiple(q: int, k: int)
    requires q > 0 && k > 0 && q % k == 0
    ensures q >= k
  {
    BetweenMultiples(q, k);
  }

  /** A value between zero and a step is not a multiple of the step. */
  lemma BetweenMultiples(x: int, k: int)
    requires k > 0 && x > 0
    ensures x < k ==> x % k != 0
  {
  }

  lemma CeilOfWhole(q: int, value: int, k: int)
    requires q > 0 && k > 0 && value >= 0 && q % k == 0
    ensures q >= CeilToStep(value, Some(k)) <==> q >= value
  {
    var m, d := q / k, value / k;
    assert q == m * k && value == d * k + value % k;
    Rounded(value, k);
    if value % k == 0 {
      MultipleOrder(d, m, k);
    } else {
      MultipleOrder(d + 1, m, k);
      assert (d + 1) * k == d * k + k;
      MultipleOrder(m, d, k);
    }
  }

  /** Rounding up to a step admits no smaller quantity that lies on the step. */
  lemma CeilToStepExactly(q: int, value: int, step: Option<int>)
    requires q > 0 && OnStep(q, step)
    ensures q >= CeilToStep(value, step) <==> q >= value
    ensures step.Some? && step.value > 0 ==> CeilToStep(value, step) % step.value == 0
  {
    if step.Some? && step.value > 0 {
      if value >= 0 {
        CeilOfWhole(q, value, step.value);
        Rounded(value, step.value);
      } else {
        CeilOfNegative(value, step.value);
        PositiveMultiple(q, step.value);
      }
    }
  }

  // ----- narrowing the range -----

  function Lowered(maximum: int, limit: Option<int>): int {
    if Above(maximum, limit) then limit.value else maximum
  }

  function Raised(minimum: int, limit: Option<int>): int {
    if Below(minimum, limit) then limit.value else minimum
  }

  /** Rounding up passes the largest raw value: the value lies above the last multiple of the step. */
  predicate CeilOverflows(value: int, step: Option<int>) {
    step.Some? && step.value > 0 && value > INT64_MAX / step.value * step.value
  }

  /** The product of rounding up leaves the 64-bit range exactly then. */
  lemma CeilOverflowsExactly(value: int, step: Option<int>)
    requires InRange(value) && Is64Bit(step)
    ensures InRange(CeilToStep(value, step)) <==> !CeilOverflows(value, step)
  {
    if step.Some? && step.value > 0 {
      var k := step.value;
      if value >= 0 {
        Rounded(value, k);
        LastMultiple(value, k);
      } else {
        CeilOfNegative(value, k);
        CeilAtLeast(value, k);
        FloorBound(0, INT64_MAX, k);
        MultipleOfPositive(INT64_MAX / k, k);
      }
    }
  }

  lemma CeilAtLeast(value: int, k: int)
    requires k > 0 && value < 0
    ensures CeilToStep(value, Some(k)) >= value
  {
    var m := -value / k;
    FloorBound(m, -value, k);
    assert TruncDiv(value, k) == -m;
    assert (-m) * k == -(m * k);
    assert (-m + 1) * k == (-m) * k + k;
  }

  lemma LastMultiple(value: int, k: int)
    requires k > 0 && value >= 0
    ensures CeilToStep(value, Some(k)) <= INT64_MAX <==> value <= INT64_MAX / k * k
  {
    hide CeilToStep;
    var c := value / k + if value % k == 0 then 0 else 1;
    var most := INT64_MAX / k;
    Rounded(value, k);
    CeilSpan(value, k, c);
    FloorBound(c, INT64_MAX, k);
    if c <= most {
      MultipleOrder(c, most, k);
    } else {
      MultipleOrder(most, c - 1, k);
    }
  }

  /** The rounded multiple is the first one not below the value. */
  lemma CeilSpan(value: int, k: int, c: int)
    requires k > 0 && value >= 0 && c == value / k + if value % k == 0 then 0 else 1
    ensures (c - 1) * k < value <= c * k
  {
    var d := value / k;
    assert value == d * k + value % k;
    assert (d + 1) * k == d * k + k && (d - 1) * k == d * k - k;
  }

  /** Some raw operation of the computation leaves the 64-bit range. */
  predicate Overflows(c: Query)
    requires ValidQuery(c)
  {
    MaximumOverflows(c) || LeastOverflows(c) || MinimumOverflows(c)
  }

  predicate MaximumOverflows(c: Query)
    requires ValidQuery(c)
  {
    c.price.Some?
    && var price, most := c.price.value, MaximumNotional(c.rules, c.orderType);
       (c.side == Buy && !InRange(Quotient(Usable(c), price))) || (most.Some? && !InRange(Quotient(most.value, price)))
  }

  predicate LeastOverflows(c: Query)
    requires ValidQuery(c)
  {
    c.price.Some?
    && var price, least := c.price.value, MinimumNotional(c.rules, c.orderType);
       least.Some? && (!InRange(Quotient(least.value, price)) || !InRange(LeastQuantity(least.value, price)))
  }

  predicate MinimumOverflows(c: Query)
    requires ValidQuery(c)
  {
    CeilOverflows(Lower(c), c.rules.quantityStep)
    || (c.orderType == Market && CeilOverflows(CeilToStep(Lower(c), c.rules.quantityStep), c.rules.marketQuantityStep))
  }

  lemma LowerInRange(c: Query)
    requires ValidQuery(c) && !LeastOverflows(c)
    ensures InRange(Lower(c))
  {
    hide LeastQuantity, Quotient;
  }

  /** The maximum is narrowed limit by limit and rounded down. */
  method SuggestMaximum(c: Query) returns (r: Result<int, DecimalError>)
    requires ValidQuery(c)
    ensures r.Ok? ==> r.value == SuggestedRange(c).maximum && !MaximumOverflows(c)
    ensures r.Err? ==> MaximumOverflows(c) && r.error == Overflow
  {
    hide Quotient, Product, FloorToStep, CeilToStep;
    var maximum := Usable(c);
    if c.side == Buy {
      var quotient := Div(maximum, c.price.value);
      if quotient.Err? {
        return Err(quotient.error);
      }
      maximum := quotient.value;
    }
    maximum := Lowered(maximum, c.rules.maximumQuantity);
    if c.orderType == Market {
      maximum := Lowered(maximum, c.rules.marketMaximumQuantity);
    }
    var maximumNotional := MaximumNotional(c.rules, c.orderType);
    if c.price.Some? && maximumNotional.Some? {
      var quotient := Div(maximumNotional.value, c.price.value);
      if quotient.Err? {
        return Err(quotient.error);
      }
      maximum := Lowered(maximum, Some(quotient.value));
    }
    maximum := FloorToStep(maximum, c.rules.quantityStep);
    if c.orderType == Market {
      maximum := FloorToStep(maximum, c.rules.marketQuantityStep);
    }
    r := Ok(maximum);
  }

  /** The minimum is raised bound by bound and rounded up. */
  method SuggestMinimum(c: Query) returns (r: Result<int, DecimalError>)
    requires ValidQuery(c)
    ensures r.Ok? ==> r.value == SuggestedRange(c).minimum && !LeastOverflows(c) && !MinimumOverflows(c)
    ensures r.Err? ==> (LeastOverflows(c) || MinimumOverflows(c)) && r.error == Overflow
  {
    hide Quotient, Product, FloorToStep, CeilToStep, CeilOverflows;
    var minimum := if c.rules.minimumQuantity.Some? then c.rules.minimumQuantity.value else 0;
    if c.orderType == Market {
      minimum := Raised(minimum, c.rules.marketMinimumQuantity);
    }
    var minimumNotional := MinimumNotional(c.rules, c.orderType);
    if c.price.Some? && minimumNotional.Some? {
      var quotient := Div(minimumNotional.value, c.price.value);
      if quotient.Err? {
        return Err(quotient.error);
      }
      var notionalQuantity := quotient.value;
      if Product(notionalQuantity, c.price.value) < minimumNotional.value {
        var next := Add(notionalQuantity, 1);
        if next.Err? {
          return Err(next.error);
        }
        notionalQuantity := next.value;
      }
      minimum := Raised(minimum, Some(notionalQuantity));
    }
    assert minimum == Lower(c);
    LowerInRange(c);
    CeilOverflowsExactly(minimum, c.rules.quantityStep);
    var rounded := Checked(CeilToStep(minimum, c.rules.quantityStep));
    if rounded.Ok? && c.orderType == Market {
      CeilOverflowsExactly(rounded.value, c.rules.marketQuantityStep);
      rounded := Checked(CeilToStep(rounded.value, c.rules.marketQuantityStep));
    }
    r := rounded;
  }

  /**
   The computation of the suggestion. The error stands for the exception of the decimal operations and
   for the raw product of rounding up, which is undefined when it leaves the range.
   */
  method Suggest(c: Query) returns (r: Result<Range, DecimalError>)
    requires ValidQuery(c)
    ensures r.Ok? ==> Guides(c, r.value) && r.value == SuggestedRange(c)
    ensures r.Err? <==> Overflows(c)
    ensures r.Err? ==> r.error == Overflow
  {
    hide SuggestedRange, MaximumOverflows, LeastOverflows, MinimumOverflows, Guides;
    var maximum := SuggestMaximum(c);
    if maximum.Err? {
      return Err(maximum.error);
    }
    var minimum := SuggestMinimum(c);
    if minimum.Err? {
      return Err(minimum.error);
    }
    SuggestionGuides(c);
    return Ok(Range(minimum.value, maximum.value));
  }

  lemma SuggestionGuides(c: Query)
    requires ValidQuery(c)
    ensures Guides(c, SuggestedRange(c))
  {
    hide FloorToStep, CeilToStep, Upper, Lower, WithinLimits, MeetsMinimums, OnSteps;
    forall q | q > 0 && OnSteps(c, q)
      ensures q <= SuggestedRange(c).maximum <==> WithinLimits(c, q)
      ensures q >= SuggestedRange(c).minimum <==> MeetsMinimums(c, q)
    {
      UpperExactly(c, q);
      LowerExactly(c, q);
      StepsExactly(c, q, Upper(c), Lower(c));
    }
  }

  /** The bound before rounding. */
  function Upper(c: Query): int
    requires ValidQuery(c)
  {
    var affordable := if c.side == Buy then Quotient(Usable(c), c.price.value) else Usable(c);
    var ordinary := Lowered(affordable, c.rules.maximumQuantity);
    var market := if c.orderType == Market then Lowered(ordinary, c.rules.marketMaximumQuantity) else ordinary;
    var notional := MaximumNotional(c.rules, c.orderType);
    if c.price.Some? && notional.Some? then Lowered(market, Some(Quotient(notional.value, c.price.value))) else market
  }

  function Lower(c: Query): int
    requires ValidQuery(c)
  {
    var ordinary := if c.rules.minimumQuantity.Some? then c.rules.minimumQuantity.value else 0;
    var market := if c.orderType == Market then Raised(ordinary, c.rules.marketMinimumQuantity) else ordinary;
    var notional := MinimumNotional(c.rules, c.orderType);
    if c.price.Some? && notional.Some? then Raised(market, Some(LeastQuantity(notional.value, c.price.value))) else market
  }

  function SuggestedRange(c: Query): Range
    requires ValidQuery(c)
  {
    var raised, floored := CeilToStep(Lower(c), c.rules.quantityStep), FloorToStep(Upper(c), c.rules.quantityStep);
    if c.orderType == Market
    then Range(CeilToStep(raised, c.rules.marketQuantityStep), FloorToStep(floored, c.rules.marketQuantityStep))
    else Range(raised, floored)
  }

  lemma UpperExactly(c: Query, q: int)
    requires ValidQuery(c) && q > 0
    ensures q <= Upper(c) <==> WithinLimits(c, q)
  {
    hide Quotient, Product;
    if c.price.Some? {
      QuotientLimit(q, c.price.value, Usable(c));
      if MaximumNotional(c.rules, c.orderType).Some? {
        QuotientLimit(q, c.price.value, MaximumNotional(c.rules, c.orderType).value);
      }
    }
  }

  lemma LowerExactly(c: Query, q: int)
    requires ValidQuery(c) && q > 0
    ensures q >= Lower(c) <==> MeetsMinimums(c, q)
  {
    hide Quotient, Product, LeastQuantity;
    if c.price.Some? && MinimumNotional(c.rules, c.orderType).Some? {
      LeastQuantityExactly(q, c.price.value, MinimumNotional(c.rules, c.orderType).value);
    }
  }

  lemma StepsExactly(c: Query, q: int, upper: int, lower: int)
    requires q > 0 && OnSteps(c, q)
    ensures var floored := FloorToStep(upper, c.rules.quantityStep);
            q <= (if c.orderType == Market then FloorToStep(floored, c.rules.marketQuantityStep) else floored) <==> q <= upper
    ensures var raised := CeilToStep(lower, c.rules.quantityStep);
            q >= (if c.orderType == Market then CeilToStep(raised, c.rules.marketQuantityStep) else raised) <==> q >= lower
  {
    hide FloorToStep, CeilToStep;
    FloorToStepExactly(q, upper, c.rules.quantityStep);
    CeilToStepExactly(q, lower, c.rules.quantityStep);
    if c.orderType == Market {
      FloorToStepExactly(q, FloorToStep(upper, c.rules.quantityStep), c.rules.marketQuantityStep);
      CeilToStepExactly(q, CeilToStep(lower, c.rules.quantityStep), c.rules.marketQuantityStep);
    }
  }

  // ----- the suggestion against the gateway's checks -----

  /** The order the gateway checks is the one the suggestion was made for, at the same price. */
  predicate Matches(c: Query, q: OrderRequest, executablePrice: Option<int>) {
    && q.side == c.side && q.orderType == c.orderType && c.rules.trading && c.rules.symbol == q.symbol
    && (if q.orderType == Limit then q.price else executablePrice) == c.price
    && (q.orderType == Limit && q.price.Some? ==> PriceRules(q.price.value, c.rules) == Accept)
  }

  lemma ReserveIsKept(available: int)
    requires Product(available, RESERVE_FACTOR) > 0
    ensures Product(available, RESERVE_FACTOR) <= available && available > 0
  {
  }

  lemma LimitsKeepFunds(c: Query, q: OrderRequest, executablePrice: Option<int>)
    requires ValidQuery(c) && Matches(c, q, executablePrice) && InRange(c.available)
    requires q.quantity > 0 && WithinLimits(c, q.quantity)
    ensures var amount := FundingAmount(q, executablePrice);
            && amount.Some? && amount.value.Ok? && 0 <= amount.value.value <= Usable(c) <= c.available
            && FundingDecision(c.available, amount.value.value) == Accept
    ensures c.side == Buy ==> InRange(Product(q.quantity, c.price.value))
  {
    hide Product;
    if c.side == Buy {
      ProductAtMost(q.quantity, c.price.value, Usable(c));
      if Usable(c) <= 0 {
        MultipleOfPositive(q.quantity, c.price.value);
        assert false;
      }
    }
    ReserveIsKept(c.available);
  }

  /**
   Every quantity of the suggested range that lies on the steps passes the gateway's instrument
   rules and its balance check at that price and keeps the reserve; the only other outcome is the
   overflow of a sell's notional, exactly when it leaves the 64-bit range.
   */
  lemma RangePassesPreflight(c: Query, r: Range, q: OrderRequest, executablePrice: Option<int>)
    requires ValidQuery(c) && Guides(c, r) && Matches(c, q, executablePrice) && InRange(c.available)
    requires q.quantity > 0 && OnSteps(c, q.quantity) && r.minimum <= q.quantity <= r.maximum
    ensures InstrumentDecision(q, executablePrice, c.rules)
            == if c.price.None? || InRange(Product(q.quantity, c.price.value)) then Some(Accept) else None
    ensures c.side == Buy ==> InstrumentDecision(q, executablePrice, c.rules) == Some(Accept)
    ensures var amount := FundingAmount(q, executablePrice);
            && amount.Some? && amount.value.Ok? && amount.value.value <= Usable(c)
            && FundingDecision(c.available, amount.value.value) == Accept
  {
    hide Product, OnStep, PriceRules;
    assert WithinLimits(c, q.quantity) && MeetsMinimums(c, q.quantity);
    LimitsKeepFunds(c, q, executablePrice);
    if c.price.Some? && MaximumNotional(c.rules, c.orderType).Some? {
      ProductAtMost(q.quantity, c.price.value, MaximumNotional(c.rules, c.orderType).value);
    }
  }

  /** The suggested minimum is not too high: anything smaller on the steps fails a minimum check of the gateway. */
  lemma SmallerQuantitiesAreRejected(c: Query, r: Range, q: OrderRequest, executablePrice: Option<int>)
    requires ValidQuery(c) && Guides(c, r) && Matches(c, q, executablePrice)
    requires var least := MinimumNotional(c.rules, c.orderType); least.Some? ==> InRange(least.value)
    requires 0 < q.quantity < r.minimum && q.quantity <= r.maximum && OnSteps(c, q.quantity)
    ensures InstrumentDecision(q, executablePrice, c.rules) in {Some(Reject(MinOrderQuantity)), Some(Reject(MinOrderNotional))}
  {
    hide Product, OnStep, PriceRules;
    assert WithinLimits(c, q.quantity) && !MeetsMinimums(c, q.quantity);
    if c.price.Some? {
      NotNegative(q.quantity, c.price.value);
    }
  }

  lemma NotNegative(q: int, price: int)
    requires q > 0 && price > 0
    ensures Product(q, price) >= 0
  {
    ProductFloor(q, price);
    FloorBound(0, q * price, SCALE);
  }

  // ----- when the ends of the range lie on the steps -----

  predicate Commensurate(a: int, b: int)
    requires a > 0 && b > 0
  {
    a % b == 0 || b % a == 0
  }

  lemma DividesMultiple(a: int, b: int, d: int)
    requires a > 0 && b > 0 && b % a == 0
    ensures (d * b) % a == 0
  {
    assert b == (b / a) * a;
    assert d * b == (d * (b / a)) * a;
    Multiple(d * (b / a), a);
  }

  lemma RoundedAlready(value: int, k: int)
    requires k > 0 && value >= 0 && value % k == 0
    ensures FloorToStep(value, Some(k)) == value == CeilToStep(value, Some(k))
  {
    Rounded(value, k);
  }

  /** Rounding to the order step and then to the market step ends on both when one divides the other. */
  lemma CommensurateEnds(a: int, b: int, value: int)
    requires a > 0 && b > 0 && Commensurate(a, b) && value >= 0
    ensures FloorToStep(FloorToStep(value, Some(a)), Some(b)) % a == 0
    ensures CeilToStep(CeilToStep(value, Some(a)), Some(b)) % a == 0
  {
    hide FloorToStep, CeilToStep;
    var floored := FloorToStep(value, Some(a));
    var raised := CeilToStep(value, Some(a));
    Rounded(value, a);
    if b % a == 0 {
      Rounded(floored, b);
      Rounded(raised, b);
      DividesMultiple(a, b, floored / b);
      DividesMultiple(a, b, raised / b);
      DividesMultiple(a, b, raised / b + 1);
    } else {
      DividesMultiple(b, a, value / a);
      DividesMultiple(b, a, value / a + 1);
      RoundedAlready(floored, b);
      RoundedAlready(raised, b);
    }
  }

  lemma QuotientIs(x: int, k: int, d: int)
    requires k > 0 && d * k <= x < (d + 1) * k
    ensures x / k == d
  {
    assert x == (x / k) * k + x % k;
    MultipleOrder(d + 1, x / k, k);
    MultipleOrder(x / k + 1, d, k);
    assert (x / k + 1) * k == (x / k) * k + k;
  }

  /** Otherwise there is a bound whose rounded end is on the market step but off the order step, in both directions. */
  lemma IncommensurateEnd(a: int, b: int) returns (value: int)
    requires a > 0 && b > 0 && !Commensurate(a, b)
    ensures value > 0 && FloorToStep(FloorToStep(value, Some(a)), Some(b)) % a != 0
  {
    if a < b {
      var d := b / a;
      assert b == d * a + b % a;
      value := (d + 1) * a;
      assert value == d * a + a;
      Multiple(d + 1, a);
      QuotientIs(value, a, d + 1);
      QuotientIs(value, b, 1);
    } else {
      value := a;
      var d := a / b;
      assert a == d * b + a % b;
      assert d >= 1 by { FloorBound(1, a, b); }
      MultipleOfPositive(d, b);
      BetweenMultiples(d * b, a);
    }
  }

  lemma IncommensurateStart(a: int, b: int)
    requires a > 0 && b > 0 && !Commensurate(a, b)
    ensures CeilToStep(CeilToStep(a, Some(a)), Some(b)) % a != 0
  {
    RoundedAlready(a, a);
    Rounded(a, b);
    if a < b {
      QuotientIs(a, b, 0);
    } else {
      var d := a / b;
      assert a == d * b + a % b;
      assert (d + 1) * b == d * b + b;
      BetweenMultiples((d + 1) * b - a, a);
      OneLapMore((d + 1) * b - a, a);
    }
  }

  lemma OneLapMore(x: int, k: int)
    requires 0 < x < k
    ensures (x + k) % k != 0
  {
    if (x + k) % k == 0 {
      assert x + k == (x + k) / k * k;
      MultipleOrder(2, (x + k) / k, k);
      MultipleOrder((x + k) / k, 1, k);
      assert false;
    }
  }

  /** The ends of the suggestion lie on both steps for every bound exactly when one step divides the other. */
  lemma EndsOnStepsExactly(a: int, b: int)
    requires a > 0 && b > 0
    ensures (forall value: nat :: FloorToStep(FloorToStep(value, Some(a)), Some(b)) % a == 0) <==> Commensurate(a, b)
    ensures (forall value: nat :: CeilToStep(CeilToStep(value, Some(a)), Some(b)) % a == 0) <==> Commensurate(a, b)
  {
    hide FloorToStep, CeilToStep;
    if Commensurate(a, b) {
      forall value: nat
        ensures FloorToStep(FloorToStep(value, Some(a)), Some(b)) % a == 0
        ensures CeilToStep(CeilToStep(value, Some(a)), Some(b)) % a == 0
      {
        CommensurateEnds(a, b, value);
      }
    } else {
      var value := IncommensurateEnd(a, b);
      IncommensurateStart(a, b);
    }
  }

  // ----- a suggestion that no quantity satisfies -----

  const OFF_STEP_RULES := Rules("S", true, None, None, None, Some(1), None, Some(2), None, None, Some(3), None, None, None, None)
  const OFF_STEP_QUERY := Query(Sell, Market, None, 6, OFF_STEP_RULES)

  /**
   With an order step of 2 and a market step of 3 the suggestion for a balance of 6 is the range from
   3 to 3: it is reported as routeable, and the gateway rejects its only quantity.
   */
  lemma SuggestionCanBeOffTheStep(id: string, venue: Venue)
    ensures ValidQuery(OFF_STEP_QUERY) && !Overflows(OFF_STEP_QUERY)
    ensures SuggestedRange(OFF_STEP_QUERY) == Range(3, 3) && Routeable(SuggestedRange(OFF_STEP_QUERY))
    ensures InstrumentDecision(OrderRequest(id, venue, "S", Sell, Market, None, 3, Gtc), None, OFF_STEP_RULES)
            == Some(Reject(InvalidQuantityStep))
  {
    hide CeilOverflows;
    assert Usable(OFF_STEP_QUERY) == 5;
    assert Upper(OFF_STEP_QUERY) == 5 && Lower(OFF_STEP_QUERY) == 1;
    CeilOverflowsExactly(1, Some(2));
    CeilOverflowsExactly(2, Some(3));
    assert CeilToStep(1, Some(2)) == 2 && CeilToStep(2, Some(3)) == 3;
  }

  const DEAR_RULES := Rules("S", true, None, None, None, None, None, None, None, None, None, None, None, None, None)
  const DEAR_QUERY := Query(Sell, Limit, Some(1_000_000_000_000_000_000), 2_000_000_000_000_000_000, DEAR_RULES)

  /** A suggested sell of ten thousand million units at a price of as many: its notional has no 64-bit value. */
  lemma SellNotionalCanOverflow(id: string, venue: Venue)
    ensures var q := OrderRequest(id, venue, "S", Sell, Limit, DEAR_QUERY.price, 1_000_000_000_000_000_000, Gtc);
            && ValidQuery(DEAR_QUERY) && !Overflows(DEAR_QUERY) && Matches(DEAR_QUERY, q, None)
            && SuggestedRange(DEAR_QUERY).minimum <= q.quantity <= SuggestedRange(DEAR_QUERY).maximum
            && InstrumentDecision(q, None, DEAR_RULES) == None
  {
    assert Product(1_000_000_000_000_000_000, 1_000_000_000_000_000_000) == 10_000_000_000_000_000_000_000_000_000;
    assert Usable(DEAR_QUERY) == 1_990_000_000_000_000_000;
    assert Upper(DEAR_QUERY) == 1_990_000_000_000_000_000 && Lower(DEAR_QUERY) == 0;
  }

  const HUGE_RULES := Rules("S", true, None, None, None, Some(INT64_MAX), None, Some(2), None, None, None, None, None, None, None)

  /** A minimum of the largest raw value and a step of two: rounding up asks for one more than fits. */
  lemma CeilCanOverflow()
    ensures CeilToStep(INT64_MAX, Some(2)) == INT64_MAX + 1
    ensures ValidQuery(Query(Sell, Limit, None, 0, HUGE_RULES)) && Overflows(Query(Sell, Limit, None, 0, HUGE_RULES))
  {
    hide Product, Quotient;
    assert INT64_MAX / 2 * 2 == INT64_MAX - 1;
  }
}
