/**
 User accounts: what each account operation does to available and frozen
 assets, with the widths of the account fields made explicit.
 */
module Accounts {
  import opened Orders
  import opened Sums
  import opened Measures

  const TWO31 := 0x8000_0000
  const TWO63 := 0x8000_0000_0000_0000

  /** Conversion to a 64-bit signed integer. */
  function I64(x: int): (r: int)
    ensures -TWO63 <= x < TWO63 ==> r == x
  {
    (x + TWO63) % TWO64 - TWO63
  }

  /** Conversion to a 32-bit signed integer. */
  function I32(x: int): (r: int)
    ensures -TWO31 <= x < TWO31 ==> r == x
  {
    (x + TWO31) % TWO32 - TWO31
  }

  function U64(x: int): (r: nat)
    ensures 0 <= x < TWO64 ==> r == x
  {
    x % TWO64
  }

  /** The value after a conversion is the one of its type that differs by whole turns of the word. */
  lemma ConversionsWrap(x: int)
    ensures -0x8000_0000_0000_0000 <= I64(x) < 0x8000_0000_0000_0000 && (I64(x) - x) % 0x1_0000_0000_0000_0000 == 0
    ensures -0x8000_0000 <= I32(x) < 0x8000_0000 && (I32(x) - x) % 0x1_0000_0000 == 0
    ensures 0 <= U64(x) < 0x1_0000_0000_0000_0000 && (U64(x) - x) % 0x1_0000_0000_0000_0000 == 0
  {
  }

  /** A product of unsigned words that fits a signed one is converted unchanged. */
  lemma ProductFits(p: nat, q: nat)
    requires p * q <= MAX_INT64
    ensures I64(U64(p * q)) == p * q
  {
  }

  /** An absent key of a stock map reads as zero. */
  function Of(m: map<nat, int>, t: nat): int {
    if t in m then m[t] else 0
  }

  datatype Account = Account(avail: int, frozen: int, availStock: map<nat, int>, frozenStock: map<nat, int>) {
    function Avail(k: Kind): int {
      if k.Money? then avail else Of(availStock, k.ticker)
    }

    function Frozen(k: Kind): int {
      if k.Money? then frozen else Of(frozenStock, k.ticker)
    }

    function Held(k: Kind): int {
      Avail(k) + Frozen(k)
    }
  }

  type Ledger = map<nat, Account>

  function Avail(l: Ledger, a: Asset): int {
    if a.user in l then l[a.user].Avail(a.kind) else 0
  }

  function Frozen(l: Ledger, a: Asset): int {
    if a.user in l then l[a.user].Frozen(a.kind) else 0
  }

  function Held(l: Ledger, a: Asset): int {
    Avail(l, a) + Frozen(l, a)
  }

  // ---------------------------------------------------- the operations, on values

  datatype Attempt = Attempt(ledger: Ledger, ok: bool)

  function TryFreezeBalance(l: Ledger, u: nat, amount: int): Attempt {
    if u !in l || l[u].avail < amount then Attempt(l, false)
    else Attempt(l[u := l[u].(avail := I64(l[u].avail - amount), frozen := I64(l[u].frozen + amount))], true)
  }

  /** Reading a stock map with [] creates the entry, also when the attempt fails. */
  function TryFreezeStock(l: Ledger, u: nat, t: nat, qty: int): Attempt {
    if u !in l then Attempt(l, false)
    else
      var acc := l[u].(availStock := l[u].availStock[t := Of(l[u].availStock, t)]);
      if Of(acc.availStock, t) < qty then Attempt(l[u := acc], false)
      else
        Attempt(l[u := acc.(availStock := acc.availStock[t := I32(Of(acc.availStock, t) - qty)],
                            frozenStock := acc.frozenStock[t := I32(Of(acc.frozenStock, t) + qty)])], true)
  }

  function CommitBuy(l: Ledger, u: nat, t: nat, cost: int, qty: int, refund: int): Ledger {
    if u !in l then l
    else l[u := l[u].(frozen := I64(l[u].frozen - (cost + refund)),
                      avail := I64(l[u].avail + refund),
                      availStock := l[u].availStock[t := I32(Of(l[u].availStock, t) + qty)])]
  }

  function CommitSell(l: Ledger, u: nat, t: nat, revenue: int, qty: int): Ledger {
    if u !in l then l
    else l[u := l[u].(frozenStock := l[u].frozenStock[t := I32(Of(l[u].frozenStock, t) - qty)],
                      avail := I64(l[u].avail + revenue))]
  }

  function UnfreezeBalance(l: Ledger, u: nat, amount: int): Ledger {
    if u !in l then l
    else l[u := l[u].(frozen := I64(l[u].frozen - amount), avail := I64(l[u].avail + amount))]
  }

  function UnfreezeStock(l: Ledger, u: nat, t: nat, qty: int): Ledger {
    if u !in l then l
    else l[u := l[u].(frozenStock := l[u].frozenStock[t := I32(Of(l[u].frozenStock, t) - qty)],
                      availStock := l[u].availStock[t := I32(Of(l[u].availStock, t) + qty)])]
  }

  function AddBalance(l: Ledger, u: nat, amount: int): Ledger {
    if u !in l then l else l[u := l[u].(avail := I64(l[u].avail + amount))]
  }

  // ------------------------------------------------------- what they do to assets

  function Bound(k: Kind): nat {
    if k.Money? then MAX_INT64 else MAX_INT32
  }

  /** Both balances of an asset are non-negative values of their fields' type. */
  predicate InRange(l: Ledger, a: Asset) {
    0 <= Avail(l, a) && 0 <= Frozen(l, a) && Held(l, a) <= Bound(a.kind)
  }

  /** Only one account changed. */
  predicate OnlyUser(l: Ledger, l': Ledger, u: nat) {
    if u in l then u in l' && l' == l[u := l'[u]] else l' == l
  }

  /** Freezing moves the amount from available to frozen, and is refused only when it is not available. */
  lemma FreezeMoves(l: Ledger, a: Asset, amount: nat, b: Asset)
    requires InRange(l, a)
    ensures var r := if a.kind.Money? then TryFreezeBalance(l, a.user, amount)
                     else TryFreezeStock(l, a.user, a.kind.ticker, amount);
            && (r.ok <==> a.user in l && amount <= Avail(l, a))
            && OnlyUser(l, r.ledger, a.user)
            && Avail(r.ledger, b) == Avail(l, b) - (if r.ok && b == a then amount else 0)
            && Frozen(r.ledger, b) == Frozen(l, b) + (if r.ok && b == a then amount else 0)
  {
  }

  /** Unfreezing moves the amount back. */
  lemma UnfreezeMoves(l: Ledger, a: Asset, amount: nat, b: Asset)
    requires InRange(l, a) && a.user in l && amount <= Frozen(l, a)
    ensures var l' := if a.kind.Money? then UnfreezeBalance(l, a.user, amount)
                      else UnfreezeStock(l, a.user, a.kind.ticker, amount);
            && OnlyUser(l, l', a.user)
            && Avail(l', b) == Avail(l, b) + (if b == a then amount else 0)
            && Frozen(l', b) == Frozen(l, b) - (if b == a then amount else 0)
  {
  }

  /** The buyer pays out of frozen money, gets the difference to the limit back, and receives the shares. */
  lemma CommitBuyMoves(l: Ledger, u: nat, t: nat, cost: nat, qty: nat, refund: nat, b: Asset)
    requires u in l && InRange(l, Asset(u, Money)) && cost + refund <= Frozen(l, Asset(u, Money))
    requires 0 <= Avail(l, Asset(u, Stock(t))) <= MAX_INT32 - qty
    ensures var l' := CommitBuy(l, u, t, cost, qty, refund);
            && OnlyUser(l, l', u)
            && Frozen(l', b) == Frozen(l, b) - (if b == Asset(u, Money) then cost + refund else 0)
            && Avail(l', b) == Avail(l, b) + (if b == Asset(u, Money) then refund
                                              else if b == Asset(u, Stock(t)) then qty else 0)
  {
  }

  /** The seller gives up frozen shares for money. */
  lemma CommitSellMoves(l: Ledger, u: nat, t: nat, revenue: nat, qty: nat, b: Asset)
    requires u in l && InRange(l, Asset(u, Stock(t))) && qty <= Frozen(l, Asset(u, Stock(t)))
    requires 0 <= Avail(l, Asset(u, Money)) <= MAX_INT64 - revenue
    ensures var l' := CommitSell(l, u, t, revenue, qty);
            && OnlyUser(l, l', u)
            && Frozen(l', b) == Frozen(l, b) - (if b == Asset(u, Stock(t)) then qty else 0)
            && Avail(l', b) == Avail(l, b) + (if b == Asset(u, Money) then revenue else 0)
  {
  }

  lemma AddBalanceMoves(l: Ledger, u: nat, amount: nat, b: Asset)
    requires u in l && 0 <= Avail(l, Asset(u, Money)) <= MAX_INT64 - amount
    ensures var l' := AddBalance(l, u, amount);
            && OnlyUser(l, l', u)
            && Frozen(l', b) == Frozen(l, b)
            && Avail(l', b) == Avail(l, b) + (if b == Asset(u, Money) then amount else 0)
  {
  }
}
