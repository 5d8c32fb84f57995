/** Steps that change accounts or the database: each changes frozen assets exactly as it changes what is in flight. */
module PipelineSettles {
  import opened Orders
  import opened Sums
  import opened Measures
  import opened Accounts
  import opened Settlement
  import opened Pipeline

  /** The invariants that speak about accounts, totals and the database. */
  ghost predicate Balanced(s: State) {
    Accounted(s) && Unique(s) && Sound(s) && Supplied(s) && Mirrored(s)
  }

  /** The same, for one asset, one order id and one kind of asset at a time. */
  ghost predicate BalancedAt(s: State, a: Asset, i: nat) {
    AccountedAt(s, a) && UniqueAt(s, i) && SuppliedAt(s, a.kind) && MirroredAt(s, a)
  }

  lemma Assemble(s: State)
    requires Sound(s) && forall a, i :: BalancedAt(s, a, i)
    ensures Balanced(s)
  {
    forall a ensures AccountedAt(s, a) && MirroredAt(s, a) { assert BalancedAt(s, a, 0); }
    forall i ensures UniqueAt(s, i) { assert BalancedAt(s, Asset(0, Money), i); }
    forall k ensures SuppliedAt(s, k) { assert BalancedAt(s, Asset(0, k), 0); }
  }

  lemma At(s: State, a: Asset, i: nat)
    requires Balanced(s)
    ensures BalancedAt(s, a, i)
  {
    assert AccountedAt(s, a) && UniqueAt(s, i) && SuppliedAt(s, a.kind) && MirroredAt(s, a);
  }

  // ---------------------------------------------------------------- ranges

  lemma HeldIsPart(s: State, a: Asset)
    requires Accounted(s)
    ensures 0 <= Held(s.ledger, a) <= TotalHeld(s.ledger, a.kind)
  {
    forall u | u in s.ledger ensures HeldOf(a.kind)(s.ledger[u]) >= 0 {
      assert AccountedAt(s, Asset(u, a.kind));
    }
    SumMapBounds(s.ledger, HeldOf(a.kind));
    assert AccountedAt(s, a);
    assert a.user in s.ledger ==> HeldOf(a.kind)(s.ledger[a.user]) == Held(s.ledger, a);
  }

  /** The fill being settled is in range and its parties have accounts. */
  lemma CurrentIsSound(s: State)
    requires Sound(s) && s.current.Some?
    ensures var r := s.current.value.record;
            && SoundRecord(s.ledger.Keys, r)
            && Cost(r) == r.price * r.qty && Shares(r) == r.qty && 0 <= Cost(r) && 0 <= Refund(r)
            && Cost(r) + Refund(r) == r.expected * r.qty <= MAX_INT64
  {
    assert CurrentWeight(Broken(s.ledger.Keys), s.current) == 0;
    AmountsExact(s.ledger.Keys, s.current.value.record);
  }

  lemma InTransitSigns(s: State, k: Kind)
    requires Sound(s)
    ensures if k.Money? then InTransit(s.current, k) <= 0 else InTransit(s.current, k) >= 0
  {
    if s.current.Some? { CurrentIsSound(s); }
  }

  /** In every balanced state every balance fits its field; a ticker's shares even fit twice. */
  lemma AllInRange(s: State, a: Asset)
    requires Balanced(s)
    ensures InRange(s.ledger, a)
    ensures a.kind.Money? ==> Held(s.ledger, a) <= s.cashIn + InTransit(s.current, Money)
    ensures a.kind.Stock? ==> Held(s.ledger, a) <= Supply(s, a.kind) + InTransit(s.current, a.kind)
    ensures a.kind.Stock? ==> Supply(s, a.kind) <= HALF32
  {
    At(s, a, 0);
    HeldIsPart(s, a);
    InTransitSigns(s, a.kind);
    SumSeqBounds(s.deposits, AnyDeposit());
  }

  lemma TotalHeldMoves(l: Ledger, l': Ledger, u: nat, k: Kind)
    requires OnlyUser(l, l', u)
    ensures l'.Keys == l.Keys
    ensures TotalHeld(l', k) == TotalHeld(l, k) - Held(l, Asset(u, k)) + Held(l', Asset(u, k))
  {
    if u in l { SumMapUpdate(l, u, l'[u], HeldOf(k)); }
  }

  // ---------------------------------------------------------------- admission

  /** The conversions of a reasonable request change nothing. */
  lemma FreezeConverts(l: Ledger, o: Order)
    requires Fits(o)
    ensures var amount := Rate(o.side, o.price) * o.qty;
            Freeze(l, o) == if o.side.Buy? then TryFreezeBalance(l, o.user, amount)
                            else TryFreezeStock(l, o.user, o.ticker, amount)
  {
    if o.side.Buy? { ProductFits(o.price, o.qty); }
  }

  /** For a reasonable order, admission freezes exactly the claim the order carries from then on. */
  lemma FreezeIsClaim(l: Ledger, o: Order, b: Asset)
    requires InRange(l, Tied(o.user, o.side, o.ticker))
    requires Fits(o)
    ensures var r := Freeze(l, o);
            && (r.ok <==> o.user in l && Rate(o.side, o.price) * o.qty <= Avail(l, Tied(o.user, o.side, o.ticker)))
            && OnlyUser(l, r.ledger, o.user)
            && Frozen(r.ledger, b) == Frozen(l, b) + (if r.ok then OrderWeight(Claim(b), o) else 0)
            && Avail(r.ledger, b) == Avail(l, b) - (if r.ok then OrderWeight(Claim(b), o) else 0)
  {
    FreezeConverts(l, o);
    FreezeMoves(l, Tied(o.user, o.side, o.ticker), Rate(o.side, o.price) * o.qty, b);
  }

  lemma AdmitTotal(s: State, o: Order, m: Measure)
    requires Enabled(s, Admit(o))
    ensures Total(Apply(s, Admit(o)), m) == Total(s, m) + if Freeze(s.ledger, o).ok then OrderWeight(m, o) else 0
  {
    if Freeze(s.ledger, o).ok {
      SumSeqAppend(s.handed, o, OfOrder(m));
    } else {
      assert s.handed + [] == s.handed;
    }
  }

  lemma AdmitKeepsAt(s: State, o: Order, a: Asset, i: nat)
    requires BalancedAt(s, a, i) && InRange(s.ledger, Tied(o.user, o.side, o.ticker))
    requires Enabled(s, Admit(o)) && Reasonable(s, Admit(o))
    ensures BalancedAt(Apply(s, Admit(o)), a, i)
  {
    FreezeIsClaim(s.ledger, o, a);
    FreezeIsClaim(s.ledger, o, Asset(o.user, a.kind));
    AdmitTotal(s, o, Claim(a));
    AdmitTotal(s, o, Ident(i));
    TotalHeldMoves(s.ledger, Freeze(s.ledger, o).ledger, o.user, a.kind);
  }

  lemma AdmitKeeps(s: State, o: Order)
    requires Balanced(s) && Enabled(s, Admit(o)) && Reasonable(s, Admit(o))
    ensures Balanced(Apply(s, Admit(o)))
  {
    var s' := Apply(s, Admit(o));
    AllInRange(s, Tied(o.user, o.side, o.ticker));
    FreezeIsClaim(s.ledger, o, Asset(0, Money));
    TotalHeldMoves(s.ledger, s'.ledger, o.user, Money);
    AdmitTotal(s, o, Broken(s.ledger.Keys));
    forall a, i ensures BalancedAt(s', a, i) {
      At(s, a, i);
      AdmitKeepsAt(s, o, a, i);
    }
    Assemble(s');
  }

  // ---------------------------------------------------------------- deposits

  lemma StoreDepositKeepsAt(s: State, u: nat, amount: nat, a: Asset, i: nat)
    requires BalancedAt(s, a, i) && MirroredAt(s, Asset(u, Money))
    requires Enabled(s, StoreDeposit(u, amount)) && Reasonable(s, StoreDeposit(u, amount))
    ensures BalancedAt(Apply(s, StoreDeposit(u, amount)), a, i)
  {
    SumSeqAppend(s.deposits, Deposit(u, amount), AnyDeposit());
    SumSeqAppend(s.deposits, Deposit(u, amount), DepositOf(a));
  }

  lemma StoreDepositKeeps(s: State, u: nat, amount: nat)
    requires Balanced(s) && Enabled(s, StoreDeposit(u, amount)) && Reasonable(s, StoreDeposit(u, amount))
    ensures Balanced(Apply(s, StoreDeposit(u, amount)))
  {
    var s' := Apply(s, StoreDeposit(u, amount));
    At(s, Asset(u, Money), 0);
    forall a, i ensures BalancedAt(s', a, i) {
      At(s, a, i);
      StoreDepositKeepsAt(s, u, amount, a, i);
    }
    Assemble(s');
  }

  lemma CreditDepositKeepsAt(s: State, n: nat, a: Asset, i: nat)
    requires Enabled(s, CreditDeposit(n)) && s.deposits[n].user in s.ledger
    requires BalancedAt(s, a, i)
    requires 0 <= Avail(s.ledger, Asset(s.deposits[n].user, Money)) <= MAX_INT64 - s.deposits[n].amount
    ensures BalancedAt(Apply(s, CreditDeposit(n)), a, i)
  {
    var d := s.deposits[n];
    AddBalanceMoves(s.ledger, d.user, d.amount, a);
    AddBalanceMoves(s.ledger, d.user, d.amount, Asset(d.user, a.kind));
    TotalHeldMoves(s.ledger, AddBalance(s.ledger, d.user, d.amount), d.user, a.kind);
    SumSeqRemove(s.deposits, n, AnyDeposit());
    SumSeqRemove(s.deposits, n, DepositOf(a));
  }

  lemma CreditDepositKeeps(s: State, n: nat)
    requires Balanced(s) && Enabled(s, CreditDeposit(n))
    ensures Balanced(Apply(s, CreditDeposit(n)))
  {
    var s' := Apply(s, CreditDeposit(n));
    var d := s.deposits[n];
    assert d in s.deposits;
    AllInRange(s, Asset(d.user, Money));
    At(s, Asset(d.user, Money), 0);
    InTransitSigns(s, Money);
    SumSeqBounds(s.deposits, AnyDeposit());
    assert AnyDeposit()(d) <= PendingDeposits(s);
    AddBalanceMoves(s.ledger, d.user, d.amount, Asset(0, Money));
    TotalHeldMoves(s.ledger, s'.ledger, d.user, Money);
    assert forall x :: x in s'.deposits ==> x in s.deposits;
    forall a, i ensures BalancedAt(s', a, i) {
      At(s, a, i);
      CreditDepositKeepsAt(s, n, a, i);
    }
    Assemble(s');
  }

  // -------------------------------------------------------------- settlement

  /** The deduction about to be made, if any, finds enough in the database. */
  predicate NextAccepted(s: State)
    requires s.current.Some?
  {
    var r, pc := s.current.value.record, s.current.value.pc;
    (pc == 0 ==> Accepts(s.db, BuyerMoney(r), Cost(r))) && (pc == 3 ==> Accepts(s.db, SellerStock(r), Shares(r)))
  }

  /** The guarded deductions of settlement are never refused. */
  lemma DeductionsAccepted(s: State)
    requires Balanced(s) && s.current.Some?
    ensures NextAccepted(s)
  {
    var r, pc := s.current.value.record, s.current.value.pc;
    CurrentIsSound(s);
    var a := if pc == 0 then BuyerMoney(r) else SellerStock(r);
    At(s, a, 0);
    SumSeqBounds(s.deposits, DepositOf(a));
    assert Total(s, Claim(a)) >= CurrentWeight(Claim(a), s.current);
  }

  /** The first four updates touch only the database. */
  lemma StoreUpdateKeepsAt(s: State, a: Asset, i: nat)
    requires Enabled(s, SettleStep) && s.current.value.pc < 4 && NextAccepted(s)
    requires BalancedAt(s, a, i)
    requires MirroredAt(s, BuyerMoney(s.current.value.record)) && MirroredAt(s, SellerMoney(s.current.value.record))
    requires SoundRecord(s.ledger.Keys, s.current.value.record)
    ensures BalancedAt(Apply(s, SettleStep), a, i)
  {
    assert Apply(s, SettleStep).ledger == s.ledger;
    StoreUpdateMirrored(s, a);
  }

  lemma StoreUpdateMirrored(s: State, a: Asset)
    requires Enabled(s, SettleStep) && s.current.value.pc < 4 && NextAccepted(s)
    requires MirroredAt(s, a)
    requires MirroredAt(s, BuyerMoney(s.current.value.record)) && MirroredAt(s, SellerMoney(s.current.value.record))
    requires SoundRecord(s.ledger.Keys, s.current.value.record)
    ensures MirroredAt(Apply(s, SettleStep), a)
  {
    var s' := Apply(s, SettleStep);
    assert s'.ledger == s.ledger;
    assert Stored(s'.db, a) - Stored(s.db, a) == AheadOfMemory(s'.current, a) - AheadOfMemory(s.current, a);
  }

  lemma StoreUpdateKeeps(s: State)
    requires Balanced(s) && Enabled(s, SettleStep) && s.current.value.pc < 4
    ensures Balanced(Apply(s, SettleStep))
  {
    var s' := Apply(s, SettleStep);
    CurrentIsSound(s);
    DeductionsAccepted(s);
    At(s, BuyerMoney(s.current.value.record), 0);
    At(s, SellerMoney(s.current.value.record), 0);
    forall a, i ensures BalancedAt(s', a, i) {
      At(s, a, i);
      StoreUpdateKeepsAt(s, a, i);
    }
    Assemble(s');
  }

  /** What the buyer's account update relies on. */
  predicate BuyerReady(s: State) {
    && s.current.Some? && s.current.value.pc == 4
    && var r := s.current.value.record;
       && SoundRecord(s.ledger.Keys, r) && Shares(r) == r.qty
       && 0 <= Cost(r) && 0 <= Refund(r) && Cost(r) + Refund(r) == r.expected * r.qty
       && InRange(s.ledger, BuyerMoney(r)) && r.expected * r.qty <= Frozen(s.ledger, BuyerMoney(r))
       && 0 <= Avail(s.ledger, BuyerStock(r)) <= MAX_INT32 - r.qty
       && r.qty <= Supply(s, Stock(r.ticker))
  }

  lemma BuyerIsReady(s: State)
    requires Balanced(s) && s.current.Some? && s.current.value.pc == 4
    ensures BuyerReady(s)
  {
    var r := s.current.value.record;
    CurrentIsSound(s);
    At(s, BuyerMoney(r), 0);
    At(s, SellerStock(r), 0);
    AllInRange(s, BuyerMoney(r));
    AllInRange(s, SellerStock(r));
    AllInRange(s, BuyerStock(r));
  }

  lemma BuyerUpdateMoves(s: State, a: Asset)
    requires Enabled(s, SettleStep) && BuyerReady(s)
    ensures var r := s.current.value.record;
            var l' := Apply(s, SettleStep).ledger;
            && OnlyUser(s.ledger, l', r.buyer)
            && Frozen(l', a) == Frozen(s.ledger, a) - BuyerClaim(a, r)
            && Avail(l', a) == Avail(s.ledger, a) + (if a == BuyerMoney(r) then Refund(r)
                                                     else if a == BuyerStock(r) then r.qty else 0)
  {
    var r := s.current.value.record;
    CommitBuyMoves(s.ledger, r.buyer, r.ticker, Cost(r), Shares(r), Refund(r), a);
  }

  /** The buyer's update takes out of frozen money exactly what leaves flight. */
  lemma BuyerUpdateAccounted(s: State, a: Asset, i: nat)
    requires Enabled(s, SettleStep) && BuyerReady(s)
    requires AccountedAt(s, a) && UniqueAt(s, i)
    ensures AccountedAt(Apply(s, SettleStep), a) && UniqueAt(Apply(s, SettleStep), i)
  {
    BuyerUpdateMoves(s, a);
  }

  /** It puts the money and the shares of the fill in transit. */
  lemma BuyerUpdateSupplied(s: State, k: Kind)
    requires Enabled(s, SettleStep) && BuyerReady(s) && SuppliedAt(s, k)
    ensures SuppliedAt(Apply(s, SettleStep), k)
  {
    var r := s.current.value.record;
    BuyerUpdateMoves(s, Asset(r.buyer, k));
    TotalHeldMoves(s.ledger, Apply(s, SettleStep).ledger, r.buyer, k);
  }

  lemma BuyerUpdateMirrored(s: State, a: Asset)
    requires Enabled(s, SettleStep) && BuyerReady(s) && MirroredAt(s, a)
    ensures MirroredAt(Apply(s, SettleStep), a)
  {
    BuyerUpdateMoves(s, a);
  }

  lemma BuyerUpdateKeeps(s: State)
    requires Balanced(s) && Enabled(s, SettleStep) && s.current.value.pc == 4
    ensures Balanced(Apply(s, SettleStep))
  {
    var s' := Apply(s, SettleStep);
    BuyerIsReady(s);
    BuyerUpdateMoves(s, Asset(0, Money));
    TotalHeldMoves(s.ledger, s'.ledger, s.current.value.record.buyer, Money);
    forall a, i ensures BalancedAt(s', a, i) {
      At(s, a, i);
      BuyerUpdateAccounted(s, a, i);
      BuyerUpdateSupplied(s, a.kind);
      BuyerUpdateMirrored(s, a);
    }
    Assemble(s');
  }

  /** What the seller's account update relies on. */
  predicate SellerReady(s: State) {
    && s.current.Some? && s.current.value.pc == 5
    && var r := s.current.value.record;
       && SoundRecord(s.ledger.Keys, r) && Shares(r) == r.qty && 0 <= Cost(r)
       && InRange(s.ledger, SellerStock(r)) && r.qty <= Frozen(s.ledger, SellerStock(r))
       && 0 <= Avail(s.ledger, SellerMoney(r)) <= MAX_INT64 - Cost(r)
  }

  lemma SellerIsReady(s: State)
    requires Balanced(s) && s.current.Some? && s.current.value.pc == 5
    ensures SellerReady(s)
  {
    var r := s.current.value.record;
    CurrentIsSound(s);
    At(s, SellerStock(r), 0);
    At(s, SellerMoney(r), 0);
    AllInRange(s, SellerStock(r));
    AllInRange(s, SellerMoney(r));
    SumSeqBounds(s.deposits, AnyDeposit());
  }

  lemma SellerUpdateMoves(s: State, a: Asset)
    requires Enabled(s, SettleStep) && SellerReady(s)
    ensures var r := s.current.value.record;
            var l' := Apply(s, SettleStep).ledger;
            && OnlyUser(s.ledger, l', r.seller)
            && Frozen(l', a) == Frozen(s.ledger, a) - SellerClaim(a, r)
            && Avail(l', a) == Avail(s.ledger, a) + (if a == SellerMoney(r) then Cost(r) else 0)
  {
    var r := s.current.value.record;
    CommitSellMoves(s.ledger, r.seller, r.ticker, Cost(r), Shares(r), a);
  }

  lemma SellerUpdateAccounted(s: State, a: Asset, i: nat)
    requires Enabled(s, SettleStep) && SellerReady(s)
    requires AccountedAt(s, a) && UniqueAt(s, i)
    ensures AccountedAt(Apply(s, SettleStep), a) && UniqueAt(Apply(s, SettleStep), i)
  {
    SellerUpdateMoves(s, a);
  }

  /** The seller's update completes the fill. */
  lemma SellerUpdateSupplied(s: State, a: Asset)
    requires Enabled(s, SettleStep) && SellerReady(s)
    requires SuppliedAt(s, a.kind) && MirroredAt(s, a)
    ensures SuppliedAt(Apply(s, SettleStep), a.kind) && MirroredAt(Apply(s, SettleStep), a)
  {
    var r := s.current.value.record;
    SellerUpdateMoves(s, a);
    SellerUpdateMoves(s, Asset(r.seller, a.kind));
    TotalHeldMoves(s.ledger, Apply(s, SettleStep).ledger, r.seller, a.kind);
  }

  lemma SellerUpdateKeeps(s: State)
    requires Balanced(s) && Enabled(s, SettleStep) && s.current.value.pc == 5
    ensures Balanced(Apply(s, SettleStep))
  {
    var s' := Apply(s, SettleStep);
    SellerIsReady(s);
    SellerUpdateMoves(s, Asset(0, Money));
    TotalHeldMoves(s.ledger, s'.ledger, s.current.value.record.seller, Money);
    forall a, i ensures BalancedAt(s', a, i) {
      At(s, a, i);
      SellerUpdateAccounted(s, a, i);
      SellerUpdateSupplied(s, a);
    }
    Assemble(s');
  }

  // ----------------------------------------------------------------- cancels

  lemma SettleCancelTotal(s: State, n: nat, m: Measure)
    requires Enabled(s, SettleCancel(n))
    ensures Total(Apply(s, SettleCancel(n)), m) == Total(s, m) - CancelWeight(m, s.cancelQueue[n])
    ensures CancelWeight(m, s.cancelQueue[n]) <= Total(s, m)
  {
    SumSeqRemove(s.cancelQueue, n, OfCancel(m));
    assert s.cancelQueue[n] in s.cancelQueue;
    SumSeqBounds(s.cancelQueue, OfCancel(m));
    assert OfCancel(m)(s.cancelQueue[n]) <= InCancels(m, s.cancelQueue);
  }

  /** What unfreezing a cancelled order relies on. */
  predicate CancelReady(s: State, n: nat) {
    && n < |s.cancelQueue|
    && var c := s.cancelQueue[n];
       var a := Tied(c.user, c.side, c.ticker);
       SoundCancel(s.ledger.Keys, c) && InRange(s.ledger, a) && Rate(c.side, c.price) * c.qty <= Frozen(s.ledger, a)
  }

  lemma CancelIsReady(s: State, n: nat)
    requires Balanced(s) && Enabled(s, SettleCancel(n))
    ensures CancelReady(s, n)
  {
    var c := s.cancelQueue[n];
    var a := Tied(c.user, c.side, c.ticker);
    SettleCancelTotal(s, n, Broken(s.ledger.Keys));
    SettleCancelTotal(s, n, Claim(a));
    At(s, a, 0);
    AllInRange(s, a);
  }

  /** Unfreezing a cancelled order gives back exactly its claim. */
  lemma UnfreezeIsClaim(s: State, n: nat, b: Asset)
    requires CancelReady(s, n) && Enabled(s, SettleCancel(n))
    ensures var c := s.cancelQueue[n];
            var l' := Apply(s, SettleCancel(n)).ledger;
            && OnlyUser(s.ledger, l', c.user)
            && Frozen(l', b) == Frozen(s.ledger, b) - CancelWeight(Claim(b), c)
            && Avail(l', b) == Avail(s.ledger, b) + CancelWeight(Claim(b), c)
  {
    var c := s.cancelQueue[n];
    CancelExact(s.ledger.Keys, c);
    UnfreezeMoves(s.ledger, Tied(c.user, c.side, c.ticker), Rate(c.side, c.price) * c.qty, b);
  }

  lemma SettleCancelKeepsAt(s: State, n: nat, a: Asset, i: nat)
    requires CancelReady(s, n) && Enabled(s, SettleCancel(n)) && BalancedAt(s, a, i)
    ensures BalancedAt(Apply(s, SettleCancel(n)), a, i)
  {
    var c := s.cancelQueue[n];
    UnfreezeIsClaim(s, n, a);
    UnfreezeIsClaim(s, n, Asset(c.user, a.kind));
    SettleCancelTotal(s, n, Claim(a));
    SettleCancelTotal(s, n, Ident(i));
    TotalHeldMoves(s.ledger, Apply(s, SettleCancel(n)).ledger, c.user, a.kind);
  }

  lemma SettleCancelKeeps(s: State, n: nat)
    requires Balanced(s) && Enabled(s, SettleCancel(n))
    ensures Balanced(Apply(s, SettleCancel(n)))
  {
    var s' := Apply(s, SettleCancel(n));
    CancelIsReady(s, n);
    UnfreezeIsClaim(s, n, Asset(0, Money));
    TotalHeldMoves(s.ledger, s'.ledger, s.cancelQueue[n].user, Money);
    SettleCancelTotal(s, n, Broken(s.ledger.Keys));
    forall a, i ensures BalancedAt(s', a, i) {
      At(s, a, i);
      SettleCancelKeepsAt(s, n, a, i);
    }
    Assemble(s');
  }
}
