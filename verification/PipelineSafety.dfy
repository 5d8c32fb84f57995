/** Every run of the exchange keeps the invariant, and what follows for users, the database and the log. */
module PipelineSafety {
  import opened Orders
  import opened Sums
  import opened Measures
  import opened FlatBook
  import opened BookLaws
  import opened Replay
  import opened Wal
  import opened Accounts
  import opened Settlement
  import opened Pipeline
  import opened PipelineMoves
  import opened PipelineHistory
  import opened PipelineSettles

  // ------------------------------------------------------------- the book threads

  lemma HandleKeepsBook(s: State, t: nat)
    requires Unique(s) && BooksValid(s) && Enabled(s, BookHandle(t))
    ensures BookValid(Apply(s, BookHandle(t)), t)
  {
    NextIsAdmissible(s, t);
    assert BookValid(s, t);
    var th := s.threads[t];
    HandleConserves(Volume(0), th.done, th.batch[0]);
    assert forall e :: e in th.batch[1..] ==> e in th.batch;
  }

  lemma BookStaysValid(s: State, a: Action, t: nat)
    requires Unique(s) && BooksValid(s) && Enabled(s, a) && t in s.threads
    ensures t in Apply(s, a).threads && BookValid(Apply(s, a), t)
  {
    assert BookValid(s, t);
    if a == BookHandle(t) { HandleKeepsBook(s, t); }
  }

  lemma BooksStayValid(s: State, a: Action)
    requires Unique(s) && BooksValid(s) && Enabled(s, a)
    ensures BooksValid(Apply(s, a))
  {
    forall t | t in Apply(s, a).threads ensures BookValid(Apply(s, a), t) {
      BookStaysValid(s, a, t);
    }
  }

  // --------------------------------------------------------------------- the log

  lemma WriteKeepsLogged(s: State, t: nat)
    requires Enabled(s, WalWrite) && t in s.threads && LoggedAt(s, t)
    ensures LoggedAt(Apply(s, WalWrite), t)
  {
    var written := RecordAll(s.walBatch);
    DecodeConcat(s.wal, written);
    LogIsLossless(s.walBatch);
    ProjectConcat(DecodeAll(s.wal), s.walBatch, t);
  }

  lemma DispatchKeepsLogged(s: State, t: nat)
    requires Enabled(s, WalDispatch) && t in s.threads && LoggedAt(s, t)
    ensures LoggedAt(Apply(s, WalDispatch), t)
  {
    var th := s.threads[t];
    var e := s.walBatch[0];
    var rest := Project(s.walBatch[1..], t);
    if TickerOf(e) == t {
      assert th.handled + th.batch + th.queue + ([e] + rest) == th.handled + th.batch + (th.queue + [e]) + rest;
    } else {
      assert [] + rest == rest;
    }
    if s.walBatch[1..] == [] {
      assert rest == [];
    }
  }

  lemma MoveFirst<T>(xs: seq<T>, ys: seq<T>)
    requires ys != []
    ensures xs + ys == xs + [ys[0]] + ys[1..]
  {
    assert ys == [ys[0]] + ys[1..];
  }

  lemma HandleKeepsLogged(s: State, t: nat)
    requires Enabled(s, BookHandle(t)) && LoggedAt(s, t)
    ensures LoggedAt(Apply(s, BookHandle(t)), t)
  {
    var th := s.threads[t];
    HandleLast(Start(t), th.handled, th.batch[0]);
    assert Apply(s, BookHandle(t)).threads[t] == HandleNext(th);
    MoveFirst(th.handled, th.batch);
  }

  lemma TakeKeepsLogged(s: State, t: nat, n: nat)
    requires Enabled(s, BookTake(t, n)) && LoggedAt(s, t)
    ensures LoggedAt(Apply(s, BookTake(t, n)), t)
  {
    var th := s.threads[t];
    assert th.handled + [] + th.queue == th.handled + th.queue[..n] + th.queue[n..];
  }

  lemma LogStaysAheadAt(s: State, a: Action, t: nat)
    requires t in s.threads && LoggedAt(s, t) && Enabled(s, a)
    ensures t in Apply(s, a).threads && LoggedAt(Apply(s, a), t)
  {
    if a.WalWrite? {
      WriteKeepsLogged(s, t);
    } else if a.WalDispatch? {
      DispatchKeepsLogged(s, t);
    } else if a.BookTake? && a.ticker == t {
      TakeKeepsLogged(s, t, a.n);
    } else if a.BookHandle? && a.ticker == t {
      HandleKeepsLogged(s, t);
    }
  }

  lemma LogStaysAhead(s: State, a: Action)
    requires Logged(s) && Enabled(s, a)
    ensures Logged(Apply(s, a))
  {
    var s' := Apply(s, a);
    forall t | t in s'.threads ensures LoggedAt(s', t) {
      assert t in s.threads && LoggedAt(s, t);
      LogStaysAheadAt(s, a, t);
    }
  }

  // -------------------------------------------------------------------- every run

  lemma UpdateKeeps(s: State)
    requires Balanced(s) && Enabled(s, SettleStep)
    ensures Balanced(Apply(s, SettleStep))
  {
    var pc := s.current.value.pc;
    if pc < 4 { StoreUpdateKeeps(s); } else if pc == 4 { BuyerUpdateKeeps(s); } else { SellerUpdateKeeps(s); }
  }

  lemma StepKeepsBalance(s: State, a: Action)
    requires Balanced(s) && BooksValid(s) && Enabled(s, a) && Reasonable(s, a)
    ensures Balanced(Apply(s, a))
  {
    if a.Admit? {
      AdmitKeeps(s, a.order);
    } else if a.StoreDeposit? {
      StoreDepositKeeps(s, a.user, a.amount);
    } else if a.CreditDeposit? {
      CreditDepositKeeps(s, a.i);
    } else if a.SettleCancel? {
      SettleCancelKeeps(s, a.i);
    } else if a.SettleStep? {
      UpdateKeeps(s);
    } else {
      MoveKeepsBalance(s, a);
    }
  }

  lemma MoveKeepsBalance(s: State, a: Action)
    requires Balanced(s) && BooksValid(s) && Enabled(s, a)
    requires !a.Admit? && !a.StoreDeposit? && !a.CreditDeposit? && !a.SettleStep? && !a.SettleCancel?
    ensures Balanced(Apply(s, a))
  {
    match a {
      case Append(i) => AppendMoves(s, i);
      case RequestCancel(t, id, u) => RequestCancelMoves(s, t, id, u);
      case WalTake(i) => WalTakeMoves(s, i);
      case WalWrite => WalWriteMoves(s);
      case WalDispatch => WalDispatchMoves(s);
      case BookTake(t, n) => BookTakeMoves(s, t, n);
      case BookHandle(t) => BookHandleMoves(s, t);
      case BookPublish(t) => BookPublishMoves(s, t);
      case SettleTake(i) => SettleTakeMoves(s, i);
    }
    MovedKeeps(s, Apply(s, a));
  }

  lemma StepKeepsInv(s: State, a: Action)
    requires Inv(s) && Enabled(s, a) && Reasonable(s, a)
    ensures Inv(Apply(s, a))
  {
    StepKeepsBalance(s, a);
    BooksStayValid(s, a);
    LogStaysAhead(s, a);
    StepKeepsRecorded(s, a);
    StepKeepsTraced(s, a);
  }

  lemma InitTotal(s: State, m: Measure)
    requires Init(s, HALF32)
    ensures Total(s, m) == 0
  {
    forall t | t in s.threads ensures OfThread(m)(s.threads[t]) == 0 {}
    SumMapZero(s.threads, OfThread(m));
  }

  lemma InitIsBalanced(s: State)
    requires Init(s, HALF32)
    ensures Balanced(s)
  {
    forall a ensures AccountedAt(s, a) { InitTotal(s, Claim(a)); }
    forall i ensures UniqueAt(s, i) { InitTotal(s, Ident(i)); }
    InitTotal(s, Broken(s.ledger.Keys));
    forall k: Kind ensures SuppliedAt(s, k) {
      if k.Stock? { assert TotalHeld(s.ledger, Stock(k.ticker)) == SharesOf(s.origin, k.ticker) <= HALF32; }
    }
    forall a ensures MirroredAt(s, a) {
      assert Frozen(s.ledger, a) == 0;
    }
  }

  lemma InitBook(s: State, t: nat)
    requires Init(s, HALF32) && t in s.threads
    ensures BookValid(s, t) && LoggedAt(s, t) && RecordedAt(s, t)
  {
    assert s.threads[t] == Thread([], [], [], [], Start(t));
    assert DecodeAll(s.wal) == [];
  }

  lemma InitKeepsInv(s: State)
    requires Init(s, HALF32)
    ensures Inv(s)
  {
    InitIsBalanced(s);
    forall t | t in s.threads ensures BookValid(s, t) && LoggedAt(s, t) && RecordedAt(s, t) { InitBook(s, t); }
    forall o ensures TracedAt(s, o) {}
  }

  /** The invariant holds in every state of every run, whatever the interleaving. */
  lemma {:induction false} RunKeepsInv(states: seq<State>, actions: seq<Action>, i: nat)
    requires IsRun(states, actions, HALF32) && i < |states|
    ensures Inv(states[i])
  {
    if i == 0 {
      InitKeepsInv(states[0]);
    } else {
      RunKeepsInv(states, actions, i - 1);
      assert Enabled(states[i - 1], actions[i - 1]) && Reasonable(states[i - 1], actions[i - 1]);
      StepKeepsInv(states[i - 1], actions[i - 1]);
    }
  }

  // --------------------------------------------------------- what it means for users

  /** Nothing of this asset is waiting anywhere between a handler and settlement. */
  ghost predicate Quiet(s: State, a: Asset) {
    && InOrders(Claim(a), s.handed) == 0 && InEvents(Claim(a), s.walQueue) == 0 && InEvents(Claim(a), s.walBatch) == 0
    && InThreads(Claim(a), s.threads) == 0 && InRecords(Claim(a), s.matchQueue) == 0
    && InCancels(Claim(a), s.cancelQueue) == 0 && CurrentWeight(Claim(a), s.current) == 0
  }

  /**
   In every state of every run an asset's frozen balance is exactly what is in
   flight; both balances are non-negative and fit their fields; and once nothing
   is in flight the balance is zero if and only if every admitted order that claims
   any of it is for a ticker with a book.
   */
  lemma FrozenIsInFlight(states: seq<State>, actions: seq<Action>, i: nat, a: Asset)
    requires IsRun(states, actions, HALF32) && i < |states|
    ensures var s := states[i];
            && Frozen(s.ledger, a) == Total(s, Claim(a)) && InRange(s.ledger, a)
            && (Quiet(s, a) ==>
                  (Frozen(s.ledger, a) == 0 <==>
                   forall o :: o in s.history.admitted && OrderWeight(Claim(a), o) > 0 ==> o.ticker in s.threads))
  {
    RunKeepsInv(states, actions, i);
    assert AccountedAt(states[i], a);
    AllInRange(states[i], a);
    if Quiet(states[i], a) { DroppedIsUnrouted(states[i], a); }
  }

  /** At record boundaries money has changed by the credited deposits only, and shares not at all. */
  lemma NothingIsCreated(states: seq<State>, actions: seq<Action>, i: nat)
    requires IsRun(states, actions, HALF32) && i < |states| && states[i].current == None
    ensures TotalHeld(states[i].ledger, Money) == states[i].cashIn
    ensures forall t: nat :: TotalHeld(states[i].ledger, Stock(t)) == TotalHeld(states[0].ledger, Stock(t))
  {
    RunKeepsInv(states, actions, i);
    assert SuppliedAt(states[i], Money);
    forall t: nat ensures TotalHeld(states[i].ledger, Stock(t)) == TotalHeld(states[0].ledger, Stock(t)) {
      assert SuppliedAt(states[i], Stock(t));
      OriginFixed(states, actions, HALF32, i);
      assert TotalHeld(states[0].ledger, Stock(t)) == SharesOf(states[0].origin, t);
    }
  }

  lemma {:induction false} OriginFixed(states: seq<State>, actions: seq<Action>, limit: nat, i: nat)
    requires IsRun(states, actions, limit) && i < |states|
    ensures states[i].origin == states[0].origin && states[i].threads.Keys == states[0].threads.Keys
  {
    if i > 0 {
      OriginFixed(states, actions, limit, i - 1);
      var s, a := states[i - 1], actions[i - 1];
      assert Enabled(s, a) && states[i] == Apply(s, a);
      StepKeepsOrigin(s, a);
    }
  }

  lemma StepKeepsOrigin(s: State, a: Action)
    requires Enabled(s, a)
    ensures Apply(s, a).origin == s.origin && Apply(s, a).threads.Keys == s.threads.Keys
  {
    if a.BookHandle? { assert s.threads[a.ticker := HandleNext(s.threads[a.ticker])].Keys == s.threads.Keys; }
  }

  /** No guarded deduction of settlement is ever refused by the database. */
  lemma DeductionsNeverRefused(states: seq<State>, actions: seq<Action>, i: nat)
    requires IsRun(states, actions, HALF32) && i < |states| && states[i].current.Some?
    ensures NextAccepted(states[i])
  {
    RunKeepsInv(states, actions, i);
    DeductionsAccepted(states[i]);
  }

  lemma ReplayedSoFar(s: State, t: nat) returns (n: nat)
    requires t in s.threads && LoggedAt(s, t) && RecordedAt(s, t)
    ensures n <= |Project(DecodeAll(s.wal), t)|
    ensures var p := HandleAll(Start(t), Project(DecodeAll(s.wal), t)[..n]);
            && s.threads[t].done.book == p.book
            && FillsOf(s.history.published, t) + s.threads[t].results == p.records
            && CancelsOf(s.history.cancelled, t) == p.cancels
  {
    n := |s.threads[t].handled|;
    assert Project(DecodeAll(s.wal), t)[..n] == s.threads[t].handled;
  }

  /**
   Replaying some prefix of a ticker's events in the written log, one after another,
   gives the ticker's book; its fills are those published for settlement, in the same
   order, and then those of the current batch; its cancel records are those queued.
   */
  lemma BookIsReplayOfLog(states: seq<State>, actions: seq<Action>, i: nat, t: nat)
    requires IsRun(states, actions, HALF32) && i < |states| && t in states[i].threads
    ensures var s := states[i];
            exists n: nat :: n <= |Project(DecodeAll(s.wal), t)|
              && var p := HandleAll(Start(t), Project(DecodeAll(s.wal), t)[..n]);
                 && s.threads[t].done.book == p.book
                 && FillsOf(s.history.published, t) + s.threads[t].results == p.records
                 && CancelsOf(s.history.cancelled, t) == p.cancels
  {
    RunKeepsInv(states, actions, i);
    assert LoggedAt(states[i], t) && RecordedAt(states[i], t);
    var n := ReplayedSoFar(states[i], t);
  }

  /** Every published fill and queued cancel record waits for settlement or was taken for it, exactly once. */
  lemma NothingIsSettledTwice(states: seq<State>, actions: seq<Action>, i: nat)
    requires IsRun(states, actions, HALF32) && i < |states|
    ensures var s := states[i];
            && multiset(s.history.published) == multiset(s.matchQueue) + multiset(s.history.settled)
            && multiset(s.history.cancelled) == multiset(s.cancelQueue) + multiset(s.history.unfrozen)
  {
    RunKeepsInv(states, actions, i);
  }

  /** Without a single share in the accounts none is claimed by anything in flight. */
  lemma NothingClaimed(s: State, a: Asset)
    requires Accounted(s) && Sound(s) && SuppliedAt(s, a.kind) && a.kind.Stock? && Supply(s, a.kind) == 0
    ensures Total(s, Claim(a)) == 0
  {
    assert AccountedAt(s, a);
    HeldIsPart(s, a);
  }

  lemma SellClaims(s: State, o: Order)
    requires o in s.handed && o.side.Sell?
    ensures o.qty <= Total(s, Claim(Asset(o.user, Stock(o.ticker))))
  {
    PositivePart(Claim(Asset(o.user, Stock(o.ticker))), s.handed, o);
  }

  lemma FillClaims(s: State, r: MatchRecord)
    requires r in s.matchQueue && Sound(s)
    ensures 0 < Total(s, Claim(SellerStock(r)))
  {
    var m, b := Claim(SellerStock(r)), Broken(s.ledger.Keys);
    SumSeqBounds(s.matchQueue, OfRecord(m));
    SumSeqBounds(s.matchQueue, OfRecord(b));
    assert OfRecord(m)(r) <= InRecords(m, s.matchQueue) <= Total(s, m);
    assert OfRecord(b)(r) <= InRecords(b, s.matchQueue) <= Total(s, b);
  }

  /**
   With no shares in memory at the start, no ticker ever has a positive sell order
   or a fill anywhere in the pipeline, as long as requests fit their types.
   */
  lemma NoLoadedSharesNoTrades(states: seq<State>, actions: seq<Action>, i: nat, t: nat)
    requires IsRun(states, actions, HALF32) && i < |states|
    requires TotalHeld(states[0].ledger, Stock(t)) == 0
    ensures forall o :: o in states[i].handed && o.side.Sell? && o.ticker == t ==> o.qty == 0
    ensures forall r :: r in states[i].matchQueue ==> r.ticker != t
    ensures states[i].current.Some? ==> states[i].current.value.record.ticker != t
  {
    RunKeepsInv(states, actions, i);
    OriginFixed(states, actions, HALF32, i);
    assert TotalHeld(states[0].ledger, Stock(t)) == SharesOf(states[0].origin, t);
    var s := states[i];
    assert SuppliedAt(s, Stock(t)) && Supply(s, Stock(t)) == 0;
    forall u: nat ensures Total(s, Claim(Asset(u, Stock(t)))) == 0 {
      NothingClaimed(s, Asset(u, Stock(t)));
    }
    forall o | o in s.handed && o.side.Sell? && o.ticker == t ensures o.qty == 0 { SellClaims(s, o); }
    forall r | r in s.matchQueue ensures r.ticker != t { FillClaims(s, r); }
    if s.current.Some? {
      CurrentIsSound(s);
      var m := Claim(SellerStock(s.current.value.record));
      assert CurrentWeight(m, s.current) <= Total(s, m);
    }
  }

  /** Only admitted orders for tickers without a book are dropped; their assets stay frozen from then on. */
  lemma DroppedStaysFrozen(states: seq<State>, actions: seq<Action>, i: nat, j: nat, a: Asset)
    requires IsRun(states, actions, HALF32) && i <= j < |states|
    ensures InOrders(Claim(a), states[i].dropped) <= Frozen(states[j].ledger, a)
    ensures forall o :: o in states[i].dropped ==> o in states[i].history.admitted && o.ticker !in states[0].threads
  {
    RunKeepsInv(states, actions, j);
    assert AccountedAt(states[j], a);
    DroppedGrows(states, actions, HALF32, i, j);
    DroppedWeigh(Claim(a), states[i].dropped, states[j].dropped);
    DroppedHaveNoBook(states, actions, i);
  }

  lemma DroppedWeigh(m: Measure, xs: seq<Order>, ys: seq<Order>)
    requires xs <= ys
    ensures InOrders(m, xs) <= InOrders(m, ys)
  {
    var more := ys[|xs|..];
    assert ys == xs + more;
    SumSeqConcat(xs, more, OfOrder(m));
    SumSeqBounds(more, OfOrder(m));
  }

  lemma DroppedHaveNoBook(states: seq<State>, actions: seq<Action>, i: nat)
    requires IsRun(states, actions, HALF32) && i < |states|
    ensures forall o :: o in states[i].dropped ==> o in states[i].history.admitted && o.ticker !in states[0].threads
  {
    RunKeepsInv(states, actions, i);
    OriginFixed(states, actions, HALF32, i);
    forall o | o in states[i].dropped ensures o in states[i].history.admitted && o.ticker !in states[0].threads {
      assert TracedAt(states[i], o);
    }
  }

  lemma {:induction false} DroppedGrows(states: seq<State>, actions: seq<Action>, limit: nat, i: nat, j: nat)
    requires IsRun(states, actions, limit) && i <= j < |states|
    ensures states[i].dropped <= states[j].dropped
  {
    if i < j {
      DroppedGrows(states, actions, limit, i, j - 1);
      RunStep(states, actions, limit, j - 1);
      StepKeepsDropped(states[j - 1], actions[j - 1]);
    }
  }

  lemma RunStep(states: seq<State>, actions: seq<Action>, limit: nat, i: nat)
    requires IsRun(states, actions, limit) && i < |actions|
    ensures Enabled(states[i], actions[i]) && states[i + 1] == Apply(states[i], actions[i])
  {
  }

  lemma StepKeepsDropped(s: State, a: Action)
    requires Enabled(s, a)
    ensures s.dropped <= Apply(s, a).dropped
  {
  }

  // ------------------------------------------- what goes wrong with unreasonable requests

  /** An admitted buy order freezes its cost if and only if the cost fits a 64-bit signed integer. */
  lemma AdmissionFreezesCost(l: Ledger, o: Order)
    requires o.side.Buy? && Freeze(l, o).ok && InRange(l, Asset(o.user, Money))
    ensures Frozen(Freeze(l, o).ledger, Asset(o.user, Money)) == Frozen(l, Asset(o.user, Money)) + o.price * o.qty
            <==> o.price * o.qty <= MAX_INT64
  {
    var a := Asset(o.user, Money);
    if o.price * o.qty <= MAX_INT64 {
      FreezeMoves(l, a, o.price * o.qty, a);
    } else {
      assert Frozen(Freeze(l, o).ledger, a) < TWO63;
    }
  }

  /** An admitted sell order freezes its shares if and only if their number fits a 32-bit signed integer. */
  lemma AdmissionFreezesShares(l: Ledger, o: Order)
    requires o.side.Sell? && Freeze(l, o).ok && InRange(l, Asset(o.user, Stock(o.ticker)))
    ensures Frozen(Freeze(l, o).ledger, Asset(o.user, Stock(o.ticker))) == Frozen(l, Asset(o.user, Stock(o.ticker))) + o.qty
            <==> o.qty <= MAX_INT32
  {
    var a := Asset(o.user, Stock(o.ticker));
    if o.qty <= MAX_INT32 {
      FreezeMoves(l, a, o.qty, a);
    } else {
      assert Frozen(Freeze(l, o).ledger, a) < TWO31;
    }
  }

  /** An attempt that is refused changes no balance. */
  lemma RefusedFreezesNothing(l: Ledger, o: Order, b: Asset)
    requires !Freeze(l, o).ok
    ensures Frozen(Freeze(l, o).ledger, b) == Frozen(l, b) && Avail(Freeze(l, o).ledger, b) == Avail(l, b)
  {
  }

  /**
   Whatever order is handled next, frozen assets go on matching what is in flight if
   and only if the order is refused or what it asks to freeze fits its type.
   */
  lemma AdmissionKeepsAccounts(s: State, o: Order)
    requires Balanced(s) && Enabled(s, Admit(o))
    ensures Accounted(Apply(s, Admit(o))) <==> (Freeze(s.ledger, o).ok ==> Fits(o))
  {
    var s' := Apply(s, Admit(o));
    var a := Tied(o.user, o.side, o.ticker);
    AllInRange(s, a);
    if !Freeze(s.ledger, o).ok {
      forall b ensures AccountedAt(s', b) {
        assert AccountedAt(s, b);
        RefusedFreezesNothing(s.ledger, o, b);
        AdmitTotal(s, o, Claim(b));
      }
    } else if Fits(o) {
      AdmitKeeps(s, o);
    } else {
      assert AccountedAt(s, a);
      AdmitTotal(s, o, Claim(a));
      if o.side.Buy? { AdmissionFreezesCost(s.ledger, o); } else { AdmissionFreezesShares(s.ledger, o); }
      assert !AccountedAt(s', a);
    }
  }

  /** A buy order whose cost wraps to -1: it is always admitted and adds to the available money. */
  lemma WrappedCostIsAdmitted(l: Ledger, id: nat, u: nat, t: nat)
    requires u in l && InRange(l, Asset(u, Money)) && Avail(l, Asset(u, Money)) < MAX_INT64
    ensures var r := Freeze(l, Order(id, t, u, Buy, TWO32 + 1, TWO32 - 1));
            && r.ok && Avail(r.ledger, Asset(u, Money)) == Avail(l, Asset(u, Money)) + 1
            && Frozen(r.ledger, Asset(u, Money)) == Frozen(l, Asset(u, Money)) - 1
  {
    assert (TWO32 + 1) * (TWO32 - 1) == TWO64 - 1;
  }

  /** A sell order whose amount narrows to -1: it needs no holding and adds to the available shares. */
  lemma NarrowedAmountIsAdmitted(l: Ledger, id: nat, u: nat, t: nat, price: nat)
    requires u in l && InRange(l, Asset(u, Stock(t))) && Avail(l, Asset(u, Stock(t))) < MAX_INT32
    ensures var r := Freeze(l, Order(id, t, u, Sell, price, TWO32 - 1));
            && r.ok && Avail(r.ledger, Asset(u, Stock(t))) == Avail(l, Asset(u, Stock(t))) + 1
            && Frozen(r.ledger, Asset(u, Stock(t))) == Frozen(l, Asset(u, Stock(t))) - 1
  {
  }
}
