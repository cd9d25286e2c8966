/** Market quotes as the ring transports them and the quote book stores them. */
module MarketData {
  import opened Orders

  datatype Quote = Quote(
    venue: Venue,
    symbol: string,
    bid: int,
    ask: int,
    sourceTime: int,
    publishedAt: int,
    sequence: nat
  )

  predicate ValidQuote(q: Quote) {
    q.symbol != "" && q.bid > 0 && q.ask > 0 && q.bid <= q.ask
  }
}
