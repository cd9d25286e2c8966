/**
 Orders, requests and execution reports. Quantities, prices and quotes are raw fixed-point
 integers (see Decimals). Wall-clock timestamps are not modelled.
 */
module Orders {
  import opened Wrappers

  datatype Venue = Okx | Binance
  datatype Side = Buy | Sell
  datatype OrderType = Market | Limit
  datatype TimeInForce = Gtc | Ioc | Fok
  datatype OrderStatus = Live | PartiallyFilled | Filled | Canceled | Rejected | Unknown
  datatype PendingAction = NoAction | New | Cancel | Amend | Reconcile

  predicate IsTerminal(status: OrderStatus) {
    status.Filled? || status.Canceled? || status.Rejected?
  }

  datatype OrderRequest = OrderRequest(
    clientOrderId: string,
    venue: Venue,
    symbol: string,
    side: Side,
    orderType: OrderType,
    price: Option<int>,
    quantity: int,
    timeInForce: TimeInForce
  )

  datatype AmendRequest = AmendRequest(
    clientOrderId: string,
    requestId: string,
    newPrice: Option<int>,
    newQuantity: Option<int>
  )

  datatype CancelRequest = CancelRequest(clientOrderId: string, requestId: string)

  datatype Order = Order(
    clientOrderId: string,
    exchangeOrderId: string,
    exchangeClientIdAliases: set<string>,
    exchangeOrderIdAliases: set<string>,
    fillOffsets: map<string, int>,
    quoteOffsets: map<string, int>,
    venue: Venue,
    symbol: string,
    side: Side,
    orderType: OrderType,
    price: Option<int>,
    quantity: int,
    timeInForce: TimeInForce,
    status: OrderStatus,
    pendingAction: PendingAction,
    pendingAmendPrice: Option<int>,
    pendingAmendQuantity: Option<int>,
    filledQuantity: int,
    cumulativeQuote: int,
    averageFillPrice: Option<int>,
    rejectionReason: string,
    version: nat,
    lastSequence: Option<nat>,
    createFingerprint: string,
    processedRequests: map<string, string>,
    processedRequestOutcomes: map<string, string>,
    processedEventIds: set<string>
  )

  datatype Report = Report(
    eventId: string,
    clientOrderId: string,
    exchangeOrderId: string,
    status: OrderStatus,
    cumulativeFilled: int,
    cumulativeQuote: Option<int>,
    lastFillPrice: Option<int>,
    orderPrice: Option<int>,
    orderQuantity: Option<int>,
    sequence: Option<nat>,
    reason: string
  )

  /** A new order waits for its venue outcome: status Unknown, pending action New. */
  function MakeOrder(request: OrderRequest, createFingerprint: string): (o: Order)
    ensures o.clientOrderId == request.clientOrderId && o.symbol == request.symbol
    ensures o.quantity == request.quantity && o.filledQuantity == 0
    ensures o.processedRequests == map[] && o.processedRequestOutcomes == map[]
    ensures !IsTerminal(o.status)
  {
    Order(request.clientOrderId, "", {}, {}, map[], map[], request.venue, request.symbol, request.side,
          request.orderType, request.price, request.quantity, request.timeInForce, Unknown, New,
          None, None, 0, 0, None, "", 1, None, createFingerprint, map[], map[], {})
  }
}
