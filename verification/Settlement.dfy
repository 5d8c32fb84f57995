/**
 Settling fills and cancels: six updates a fill, first four in the guarded
 database and then two in memory, in this order.
 */
module Settlement {
  import opened Orders
  import opened Measures
  import opened Accounts

  /** The stored balances and holdings. A missing entry is a missing row. */
  type Store = map<Asset, int>

  function Stored(db: Store, a: Asset): int {
    if a in db then db[a] else 0
  }

  /** The guard of a deduction: the row exists and holds enough. */
  predicate Accepts(db: Store, a: Asset, amount: int) {
    a in db && db[a] >= amount
  }

  function Deduct(db: Store, a: Asset, amount: int): Store {
    if Accepts(db, a, amount) then db[a := db[a] - amount] else db
  }

  /** Balances are updated only where a row exists. */
  function Credit(db: Store, a: Asset, amount: int): Store {
    if a in db then db[a := db[a] + amount] else db
  }

  /** Holdings are inserted when there is no row yet. */
  function Upsert(db: Store, a: Asset, amount: int): Store {
    db[a := Stored(db, a) + amount]
  }

  // The amounts are computed in 64-bit unsigned arithmetic and then converted.

  function Cost(r: MatchRecord): int {
    I64(U64(r.price * r.qty))
  }

  function Refund(r: MatchRecord): int {
    I64(U64(U64(r.expected - r.price) * r.qty))
  }

  function Shares(r: MatchRecord): int {
    I32(r.qty)
  }

  function BuyerMoney(r: MatchRecord): Asset { Asset(r.buyer, Money) }
  function BuyerStock(r: MatchRecord): Asset { Asset(r.buyer, Stock(r.ticker)) }
  function SellerMoney(r: MatchRecord): Asset { Asset(r.seller, Money) }
  function SellerStock(r: MatchRecord): Asset { Asset(r.seller, Stock(r.ticker)) }

  datatype Holdings = Holdings(ledger: Ledger, db: Store)

  /** The update with number pc of settling one fill. */
  function Update(h: Holdings, r: MatchRecord, pc: nat): Holdings
    requires pc < 6
  {
    match pc
    case 0 => h.(db := Deduct(h.db, BuyerMoney(r), Cost(r)))
    case 1 => h.(db := Upsert(h.db, BuyerStock(r), Shares(r)))
    case 2 => h.(db := Credit(h.db, SellerMoney(r), Cost(r)))
    case 3 => h.(db := Deduct(h.db, SellerStock(r), Shares(r)))
    case 4 => h.(ledger := CommitBuy(h.ledger, r.buyer, r.ticker, Cost(r), Shares(r), Refund(r)))
    case 5 => h.(ledger := CommitSell(h.ledger, r.seller, r.ticker, Cost(r), Shares(r)))
  }

  function SettleRecord(h: Holdings, r: MatchRecord): Holdings {
    Update(Update(Update(Update(Update(Update(h, r, 0), r, 1), r, 2), r, 3), r, 4), r, 5)
  }

  function SettleRecords(h: Holdings, rs: seq<MatchRecord>): Holdings {
    if rs == [] then h else SettleRecord(SettleRecords(h, rs[..|rs| - 1]), rs[|rs| - 1])
  }

  function SettleCancel(l: Ledger, c: CancelRecord): Ledger {
    if c.side.Buy? then UnfreezeBalance(l, c.user, I64(U64(c.price * c.qty)))
    else UnfreezeStock(l, c.user, c.ticker, I32(c.qty))
  }

  function SettleCancels(l: Ledger, cs: seq<CancelRecord>): Ledger {
    if cs == [] then l else SettleCancel(SettleCancels(l, cs[..|cs| - 1]), cs[|cs| - 1])
  }

  /** For a fill in range nothing wraps, and price and refund add up to what the buyer had frozen. */
  lemma AmountsExact(users: set<nat>, r: MatchRecord)
    requires SoundRecord(users, r)
    ensures Cost(r) == r.price * r.qty && Refund(r) == (r.expected - r.price) * r.qty && Shares(r) == r.qty
    ensures 0 <= Cost(r) && 0 <= Refund(r)
    ensures Cost(r) + Refund(r) == r.expected * r.qty <= MAX_INT64
  {
    assert (r.expected - r.price) * r.qty == r.expected * r.qty - r.price * r.qty;
    assert 0 <= r.price * r.qty <= r.expected * r.qty by { MulLe(r.price, r.expected, r.qty); }
    ExpectedFits(r);
  }

  lemma MulLe(a: nat, b: nat, c: nat)
    requires a <= b
    ensures a * c <= b * c
  {
  }

  lemma ExpectedFits(r: MatchRecord)
    requires 0 < r.qty && r.expected * r.qty <= MAX_INT64
    ensures r.expected <= MAX_INT64
  {
    MulLe(1, r.qty, r.expected);
    assert r.expected * r.qty == r.qty * r.expected;
  }

  lemma CancelExact(users: set<nat>, c: CancelRecord)
    requires SoundCancel(users, c)
    ensures c.side.Buy? ==> I64(U64(c.price * c.qty)) == c.price * c.qty
    ensures c.side.Sell? ==> I32(c.qty) == c.qty
  {
    if c.side.Buy? { ProductFits(c.price, c.qty); }
  }
}
