/** In no step of any run does a product, a sum, a difference or a conversion leave its type. */
module PipelineRanges {
  import opened Orders
  import opened Sums
  import opened Measures
  import opened Accounts
  import opened Settlement
  import opened Pipeline
  import opened PipelineSettles
  import opened PipelineSafety

  /** A value that the program computes into, or converts to, a type of bounded range. */
  datatype Typed = Int64(x: int) | Int32(x: int) | Unsigned64(x: int)

  predicate Within(c: Typed) {
    match c
    case Int64(x) => -TWO63 <= x < TWO63
    case Int32(x) => -TWO31 <= x < TWO31
    case Unsigned64(x) => 0 <= x < TWO64
  }

  /** A product of two unsigned words that becomes an amount of money. */
  function Product(p: int, q: int): seq<Typed> {
    [Unsigned64(p * q), Int64(U64(p * q))]
  }

  /** Two balances of one asset, moved by an amount. */
  function Balances(k: Kind, a: int, b: int): seq<Typed> {
    if k.Money? then [Int64(a), Int64(b)] else [Int32(a), Int32(b)]
  }

  function AdmitValues(l: Ledger, o: Order): seq<Typed> {
    var a := Tied(o.user, o.side, o.ticker);
    var amount := if o.side.Buy? then I64(U64(o.price * o.qty)) else I32(o.qty);
    (if o.side.Buy? then Product(o.price, o.qty) else [Int32(o.qty)])
    + if Freeze(l, o).ok then Balances(a.kind, Avail(l, a) - amount, Frozen(l, a) + amount) else []
  }

  /** The amounts of a fill, as the settlement thread computes them. */
  function AmountValues(r: MatchRecord): seq<Typed> {
    Product(r.price, r.qty) + [Unsigned64(r.expected - r.price)] + Product(U64(r.expected - r.price), r.qty) + [Int32(r.qty)]
  }

  function BuyerValues(l: Ledger, r: MatchRecord): seq<Typed> {
    [Int64(Cost(r) + Refund(r)), Int64(Frozen(l, BuyerMoney(r)) - (Cost(r) + Refund(r))),
     Int64(Avail(l, BuyerMoney(r)) + Refund(r)), Int32(Avail(l, BuyerStock(r)) + Shares(r))]
  }

  function SellerValues(l: Ledger, r: MatchRecord): seq<Typed> {
    [Int32(Frozen(l, SellerStock(r)) - Shares(r)), Int64(Avail(l, SellerMoney(r)) + Cost(r))]
  }

  function CancelValues(l: Ledger, c: CancelRecord): seq<Typed> {
    var a := Tied(c.user, c.side, c.ticker);
    var amount := if c.side.Buy? then I64(U64(c.price * c.qty)) else I32(c.qty);
    (if c.side.Buy? then Product(c.price, c.qty) else [Int32(c.qty)])
    + Balances(a.kind, Frozen(l, a) - amount, Avail(l, a) + amount)
  }

  /** Everything that a step computes. */
  function Values(s: State, a: Action): seq<Typed>
    requires Enabled(s, a)
  {
    match a
    case Admit(o) => AdmitValues(s.ledger, o)
    case CreditDeposit(i) =>
      var d := s.deposits[i];
      [Int64(d.amount), Int64(Avail(s.ledger, Asset(d.user, Money)) + d.amount)]
    case SettleStep =>
      var r, pc := s.current.value.record, s.current.value.pc;
      AmountValues(r) + if pc == 4 then BuyerValues(s.ledger, r) else if pc == 5 then SellerValues(s.ledger, r) else []
    case SettleCancel(i) => CancelValues(s.ledger, s.cancelQueue[i])
    case _ => []
  }

  lemma AdmitWithin(s: State, o: Order)
    requires Balanced(s) && Fits(o)
    ensures forall c :: c in AdmitValues(s.ledger, o) ==> Within(c)
  {
    var a := Tied(o.user, o.side, o.ticker);
    AllInRange(s, a);
    FreezeIsClaim(s.ledger, o, a);
    if Freeze(s.ledger, o).ok {
      assert Rate(o.side, o.price) * o.qty <= Avail(s.ledger, a);
    }
  }

  lemma AmountsWithin(users: set<nat>, r: MatchRecord)
    requires SoundRecord(users, r)
    ensures forall c :: c in AmountValues(r) ==> Within(c)
  {
    AmountsExact(users, r);
    ExpectedFits(r);
    assert (r.expected - r.price) * r.qty == r.expected * r.qty - r.price * r.qty;
    MulLe(r.price, r.expected, r.qty);
  }

  lemma BuyerWithin(s: State)
    requires Balanced(s) && s.current.Some? && s.current.value.pc == 4
    ensures forall c :: c in BuyerValues(s.ledger, s.current.value.record) ==> Within(c)
  {
    var r := s.current.value.record;
    BuyerIsReady(s);
  }

  lemma SellerWithin(s: State)
    requires Balanced(s) && s.current.Some? && s.current.value.pc == 5
    ensures forall c :: c in SellerValues(s.ledger, s.current.value.record) ==> Within(c)
  {
    SellerIsReady(s);
  }

  lemma BalancesWithin(l: Ledger, a: Asset, amount: nat)
    requires InRange(l, a) && amount <= Frozen(l, a)
    ensures forall v :: v in Balances(a.kind, Frozen(l, a) - amount, Avail(l, a) + amount) ==> Within(v)
  {
  }

  lemma ProductWithin(p: nat, q: nat)
    requires p * q <= MAX_INT64
    ensures forall v :: v in Product(p, q) ==> Within(v)
  {
    ProductFits(p, q);
  }

  lemma UnfreezeWithin(l: Ledger, users: set<nat>, c: CancelRecord)
    requires SoundCancel(users, c) && InRange(l, Tied(c.user, c.side, c.ticker))
    requires Rate(c.side, c.price) * c.qty <= Frozen(l, Tied(c.user, c.side, c.ticker))
    ensures forall v :: v in CancelValues(l, c) ==> Within(v)
  {
    CancelExact(users, c);
    var a, amount := Tied(c.user, c.side, c.ticker), Rate(c.side, c.price) * c.qty;
    BalancesWithin(l, a, amount);
    if c.side.Buy? {
      ProductWithin(c.price, c.qty);
      assert CancelValues(l, c) == Product(c.price, c.qty) + Balances(Money, Frozen(l, a) - amount, Avail(l, a) + amount);
    } else {
      assert CancelValues(l, c) == [Int32(amount)] + Balances(a.kind, Frozen(l, a) - amount, Avail(l, a) + amount);
    }
  }

  lemma CancelWithin(s: State, i: nat)
    requires Balanced(s) && Enabled(s, SettleCancel(i))
    ensures forall c :: c in CancelValues(s.ledger, s.cancelQueue[i]) ==> Within(c)
  {
    CancelIsReady(s, i);
    UnfreezeWithin(s.ledger, s.ledger.Keys, s.cancelQueue[i]);
  }

  lemma CreditWithin(s: State, i: nat)
    requires Balanced(s) && i < |s.deposits|
    ensures var d := s.deposits[i]; d.amount <= MAX_INT64 && Avail(s.ledger, Asset(d.user, Money)) + d.amount <= MAX_INT64
    ensures 0 <= Avail(s.ledger, Asset(s.deposits[i].user, Money))
  {
    var d := s.deposits[i];
    AllInRange(s, Asset(d.user, Money));
    At(s, Asset(d.user, Money), 0);
    InTransitSigns(s, Money);
    SumSeqBounds(s.deposits, AnyDeposit());
    assert d in s.deposits && AnyDeposit()(d) <= PendingDeposits(s);
  }

  /** In every state of every run, whatever the next step of whichever thread, nothing it computes leaves its type. */
  lemma NothingLeavesItsType(states: seq<State>, actions: seq<Action>, i: nat, a: Action)
    requires IsRun(states, actions, HALF32) && i < |states|
    requires Enabled(states[i], a) && Reasonable(states[i], a)
    ensures forall c :: c in Values(states[i], a) ==> Within(c)
  {
    RunKeepsInv(states, actions, i);
    var s := states[i];
    match a
    case Admit(o) => AdmitWithin(s, o);
    case CreditDeposit(n) => CreditWithin(s, n);
    case SettleStep =>
      CurrentIsSound(s);
      AmountsWithin(s.ledger.Keys, s.current.value.record);
      if s.current.value.pc == 4 { BuyerWithin(s); }
      if s.current.value.pc == 5 { SellerWithin(s); }
    case SettleCancel(n) => CancelWithin(s, n);
    case _ =>
  }

  /** Past the bound on deposits: a credit arrives in full if and only if the balance it leads to fits its field. */
  lemma CreditArrives(l: Ledger, u: nat, amount: nat)
    requires u in l && InRange(l, Asset(u, Money)) && amount <= MAX_INT64
    ensures Avail(AddBalance(l, u, amount), Asset(u, Money)) == Avail(l, Asset(u, Money)) + amount
            <==> Avail(l, Asset(u, Money)) + amount <= MAX_INT64
  {
    assert Avail(AddBalance(l, u, amount), Asset(u, Money)) <= MAX_INT64;
  }
}
