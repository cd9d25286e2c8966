/**
 The risk manager: decisions against an already known position, and the forms that first sum the
 position over all current orders. Reason texts are left out; a rejection carries its code.
 */
module Risk {
  import opened Wrappers
  import opened Orders
  import opened Positions
  import Decimals

  datatype Code =
    | InvalidOrder | RiskConfigMissing | MaxOrderSize | ReferencePriceMissing | MaxNotional | PositionLimit
    | InvalidAmend | OrderTerminal | OrderStateUnknown | OperationPending | MarketDataUnavailable
    | InstrumentRulesUnavailable | InstrumentNotTrading | MinOrderQuantity | MaxVenueOrderQuantity
    | InvalidQuantityStep | PriceOutOfRange | InvalidPriceTick | MinOrderNotional | MaxVenueOrderNotional
    | BalanceUnavailable | InsufficientAvailableBalance

  datatype Decision = Accept | Reject(code: Code)

  datatype Limits = Limits(maxOrderSize: int, maxNotional: int, positionLimit: int, marketReferencePrice: Option<int>)

  type LimitTable = map<string, Limits>

  function Validate(table: LimitTable, symbol: string, side: Side, orderType: OrderType, price: Option<int>,
                    quantity: int, position: int, marketPrice: Option<int>): Decision
  {
    if symbol !in table then Reject(RiskConfigMissing)
    else
      var limits := table[symbol];
      var notionalPrice := if orderType == Market then (if marketPrice.Some? then marketPrice else limits.marketReferencePrice)
                           else price;
      if quantity <= 0 then Reject(InvalidOrder)
      else if quantity > limits.maxOrderSize then Reject(MaxOrderSize)
      else if notionalPrice.None? then Reject(ReferencePriceMissing)
      else if Decimals.Product(quantity, notionalPrice.value) > limits.maxNotional then Reject(MaxNotional)
      else if Decimals.Abs(position + SignedQuantity(side, quantity)) > limits.positionLimit then Reject(PositionLimit)
      else Accept
  }

  function CheckNewWithPosition(table: LimitTable, q: OrderRequest, position: int, marketPrice: Option<int>): Decision {
    if q.clientOrderId == "" || q.symbol == "" then Reject(InvalidOrder)
    else if q.orderType == Limit && q.price.None? then Reject(InvalidOrder)
    else if q.orderType == Market && q.price.Some? then Reject(InvalidOrder)
    else if q.price.Some? && q.price.value <= 0 then Reject(InvalidOrder)
    else Validate(table, q.symbol, q.side, q.orderType, q.price, q.quantity, position, marketPrice)
  }

  function CheckAmendWithPosition(table: LimitTable, o: Order, newPrice: Option<int>, newQuantity: Option<int>,
                                  positionWithoutOrder: int): Decision
  {
    var quantity := if newQuantity.Some? then newQuantity.value else o.quantity;
    if newPrice.None? && newQuantity.None? then Reject(InvalidAmend)
    else if IsTerminal(o.status) then Reject(OrderTerminal)
    else if o.status == Unknown then Reject(OrderStateUnknown)
    else if o.orderType == Market then Reject(InvalidAmend)
    else if quantity < o.filledQuantity then Reject(InvalidAmend)
    else if newPrice.Some? && newPrice.value <= 0 then Reject(InvalidAmend)
    else if o.pendingAction != NoAction then Reject(OperationPending)
    else Validate(table, o.symbol, o.side, o.orderType, if newPrice.Some? then newPrice else o.price, quantity,
                  positionWithoutOrder, None)
  }

  /** Sums the position over the current orders, then decides. */
  method CheckNew(table: LimitTable, q: OrderRequest, currentOrders: seq<Order>, marketPrice: Option<int>)
    returns (d: Decision)
    ensures d == CheckNewWithPosition(table, q, ListExposure(currentOrders, q.symbol), marketPrice)
  {
    var position := 0;
    for i := 0 to |currentOrders|
      invariant position == ListExposure(currentOrders[..i], q.symbol)
    {
      var order := currentOrders[i];
      assert currentOrders[..i + 1][..i] == currentOrders[..i];
      if order.symbol == q.symbol {
        position := position + SignedQuantity(order.side, ConservativeExposure(order));
      }
    }
    assert currentOrders[..|currentOrders|] == currentOrders;
    d := CheckNewWithPosition(table, q, position, marketPrice);
  }

  method CheckAmend(table: LimitTable, o: Order, newPrice: Option<int>, newQuantity: Option<int>,
                    currentOrders: seq<Order>) returns (d: Decision)
    ensures d == CheckAmendWithPosition(table, o, newPrice, newQuantity,
                                        ListExposureExcept(currentOrders, o.symbol, o.clientOrderId))
  {
    var position := 0;
    for i := 0 to |currentOrders|
      invariant position == ListExposureExcept(currentOrders[..i], o.symbol, o.clientOrderId)
    {
      var current := currentOrders[i];
      assert currentOrders[..i + 1][..i] == currentOrders[..i];
      if current.symbol == o.symbol && current.clientOrderId != o.clientOrderId {
        position := position + SignedQuantity(current.side, ConservativeExposure(current));
      }
    }
    assert currentOrders[..|currentOrders|] == currentOrders;
    d := CheckAmendWithPosition(table, o, newPrice, newQuantity, position);
  }

  /** Accumulates every symbol's position in one pass. */
  method ConservativePositions(orders: seq<Order>) returns (positions: map<string, int>)
    ensures forall symbol :: ListExposure(orders, symbol) == if symbol in positions then positions[symbol] else 0
  {
    positions := map[];
    for i := 0 to |orders|
      invariant forall symbol :: ListExposure(orders[..i], symbol)
                                 == if symbol in positions then positions[symbol] else 0
    {
      var order := orders[i];
      assert orders[..i + 1][..i] == orders[..i];
      var previous := if order.symbol in positions then positions[order.symbol] else 0;
      positions := positions[order.symbol := previous + SignedQuantity(order.side, ConservativeExposure(order))];
    }
    assert orders[..|orders|] == orders;
  }

  /** An accepted new order leaves the worst-case position within the limit. */
  lemma AcceptedStaysWithinLimit(table: LimitTable, q: OrderRequest, position: int, marketPrice: Option<int>)
    requires CheckNewWithPosition(table, q, position, marketPrice) == Accept
    ensures q.symbol in table && q.quantity > 0
    ensures Decimals.Abs(position + SignedQuantity(q.side, q.quantity)) <= table[q.symbol].positionLimit
  {
  }

  /** Everything the check of a new order asks for except the position limit. */
  predicate PassesBeforePosition(table: LimitTable, q: OrderRequest, marketPrice: Option<int>) {
    && q.clientOrderId != "" && q.symbol in table
    && q.symbol != "" && (q.orderType == Limit <==> q.price.Some?) && (q.price.Some? ==> q.price.value > 0)
    && var limits := table[q.symbol];
       var price := if q.orderType == Limit then q.price else if marketPrice.Some? then marketPrice else limits.marketReferencePrice;
       && 0 < q.quantity <= limits.maxOrderSize
       && price.Some? && Decimals.Product(q.quantity, price.value) <= limits.maxNotional
  }

  /**
   Two positions lead to different decisions exactly when all else passes and only one leaves the order
   within the limit.
   */
  lemma PositionDecidesExactly(table: LimitTable, q: OrderRequest, marketPrice: Option<int>, a: int, b: int)
    ensures CheckNewWithPosition(table, q, a, marketPrice) != CheckNewWithPosition(table, q, b, marketPrice)
            <==> && PassesBeforePosition(table, q, marketPrice)
                 && var limit, signed := table[q.symbol].positionLimit, SignedQuantity(q.side, q.quantity);
                    (Decimals.Abs(a + signed) <= limit) != (Decimals.Abs(b + signed) <= limit)
  {
    hide Decimals.Product;
  }
}
