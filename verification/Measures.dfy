/**
 Weights of orders, fills and cancel records. Each measure assigns every record
 in flight a natural number; the invariants of the exchange say how the total of
 a measure moves from one step to the next.
 */
module Measures {
  import opened Orders
  import opened Sums

  const MAX_INT64 := 0x7FFF_FFFF_FFFF_FFFF
  const MAX_INT32 := 0x7FFF_FFFF

  datatype Kind = Money | Stock(ticker: nat)
  datatype Asset = Asset(user: nat, kind: Kind)

  datatype Measure =
    | Claim(asset: Asset)      // what has to stay frozen in one user's asset
    | Volume(id: nat)          // quantity attributed to one order id
    | Ident(id: nat)           // live orders carrying one id
    | Broken(users: set<nat>)  // records outside the range the account fields can hold

  /** What the order asks to freeze fits the type it is converted to: the cost of a buy, the amount of a sell. */
  predicate Fits(o: Order) {
    if o.side.Buy? then o.price * o.qty <= MAX_INT64 else o.qty <= MAX_INT32
  }

  predicate SoundOrder(users: set<nat>, o: Order) {
    o.user in users && Fits(o)
  }

  predicate SoundRecord(users: set<nat>, r: MatchRecord) {
    && r.buyer in users && r.seller in users
    && 0 < r.qty <= MAX_INT32
    && r.price <= r.expected && r.expected * r.qty <= MAX_INT64
  }

  predicate SoundCancel(users: set<nat>, c: CancelRecord) {
    c.user in users && if c.side.Buy? then c.price * c.qty <= MAX_INT64 else c.qty <= MAX_INT32
  }

  /** The asset an order ties up: the buyer's money or the seller's shares. */
  function Tied(user: nat, side: Side, ticker: nat): Asset {
    Asset(user, if side.Buy? then Money else Stock(ticker))
  }

  /** How much of it: the limit price per unit bought, one share per unit sold. */
  function Rate(side: Side, price: nat): nat {
    if side.Buy? then price else 1
  }

  function OrderWeight(m: Measure, o: Order): nat {
    match m
    case Claim(a) => if a == Tied(o.user, o.side, o.ticker) then Rate(o.side, o.price) * o.qty else 0
    case Volume(i) => if o.id == i then o.qty else 0
    case Ident(i) => if o.id == i then 1 else 0
    case Broken(users) => if SoundOrder(users, o) then 0 else 1
  }

  /** The seller's part of a fill stays frozen a little longer than the buyer's. */
  function SellerClaim(a: Asset, r: MatchRecord): nat {
    if a == Asset(r.seller, Stock(r.ticker)) then r.qty else 0
  }

  function BuyerClaim(a: Asset, r: MatchRecord): nat {
    if a == Asset(r.buyer, Money) then r.expected * r.qty else 0
  }

  function RecordWeight(m: Measure, r: MatchRecord): nat {
    match m
    case Claim(a) => BuyerClaim(a, r) + SellerClaim(a, r)
    case Volume(i) => (if r.maker == i then r.qty else 0) + (if r.taker == i then r.qty else 0)
    case Ident(_) => 0
    case Broken(users) => if SoundRecord(users, r) then 0 else 1
  }

  function CancelWeight(m: Measure, c: CancelRecord): nat {
    match m
    case Claim(a) => if a == Tied(c.user, c.side, c.ticker) then Rate(c.side, c.price) * c.qty else 0
    case Volume(i) => if c.id == i then c.qty else 0
    case Ident(_) => 0
    case Broken(users) => if SoundCancel(users, c) then 0 else 1
  }

  function EventWeight(m: Measure, e: Event): nat {
    if e.NewOrder? then OrderWeight(m, e.order) else 0
  }

  function OfOrder(m: Measure): Order -> int { (o: Order) => OrderWeight(m, o) }
  function OfRecord(m: Measure): MatchRecord -> int { (r: MatchRecord) => RecordWeight(m, r) }
  function OfCancel(m: Measure): CancelRecord -> int { (c: CancelRecord) => CancelWeight(m, c) }
  function OfEvent(m: Measure): Event -> int { (e: Event) => EventWeight(m, e) }

  function InOrders(m: Measure, xs: seq<Order>): (n: nat) {
    SumSeqBounds(xs, OfOrder(m));
    SumSeq(xs, OfOrder(m))
  }

  function InRecords(m: Measure, xs: seq<MatchRecord>): (n: nat) {
    SumSeqBounds(xs, OfRecord(m));
    SumSeq(xs, OfRecord(m))
  }

  function InCancels(m: Measure, xs: seq<CancelRecord>): (n: nat) {
    SumSeqBounds(xs, OfCancel(m));
    SumSeq(xs, OfCancel(m))
  }

  function InEvents(m: Measure, xs: seq<Event>): (n: nat) {
    SumSeqBounds(xs, OfEvent(m));
    SumSeq(xs, OfEvent(m))
  }
}
