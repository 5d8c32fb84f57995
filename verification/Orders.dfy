/** The plain records that travel through the exchange. */
module Orders {

  datatype Side = Buy | Sell

  /** A limit order; `qty` is what is left of it. */
  datatype Order = Order(id: nat, ticker: nat, user: nat, side: Side, price: nat, qty: nat)

  /** One fill. `expected` is the buyer's own limit, `price` the price paid. */
  datatype MatchRecord = MatchRecord(
    ticker: nat, maker: nat, taker: nat, buyer: nat, seller: nat,
    expected: nat, price: nat, qty: nat)

  datatype CancelRecord = CancelRecord(
    ticker: nat, id: nat, user: nat, side: Side, price: nat, qty: nat)

  /** What the log thread and the book threads consume. */
  datatype Event =
    | NewOrder(order: Order)
    | CancelOrder(ticker: nat, id: nat, user: nat)

  datatype Option<+T> = None | Some(value: T)

  const TWO32 := 0x1_0000_0000
  const TWO64 := 0x1_0000_0000_0000_0000
}
