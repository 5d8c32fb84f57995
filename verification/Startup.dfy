/** How the server loads accounts, and what its loading order means for every run. */
module Startup {
  import opened Orders
  import opened Sums
  import opened Measures
  import opened Replay
  import opened Accounts
  import opened Settlement
  import opened Pipeline
  import opened PipelineRuns
  import opened PipelineSettles
  import opened PipelineSafety

  /** A holding is loaded only if its ticker is already known; all else starts empty. */
  function LoadAccount(db: Store, u: nat, known: set<nat>): Account {
    Account(Stored(db, Asset(u, Money)), 0, map t | t in known && Asset(u, Stock(t)) in db :: db[Asset(u, Stock(t))], map[])
  }

  function LoadAll(db: Store, users: set<nat>, known: set<nat>): Ledger {
    map u | u in users :: LoadAccount(db, u, known)
  }

  /** The server after loading: `known` tickers when users were loaded, one book for each of `tickers`. */
  ghost function Boot(db: Store, users: set<nat>, known: set<nat>, tickers: set<nat>): State
    requires GoodStore(db, users)
  {
    var l := LoadAll(db, users, known);
    State(l, db, [], [], {}, [], [], false, [], [], map t | t in tickers :: Thread([], [], [], [], Start(t)),
          [], [], None, LoadedCash(db, users, known),
          Origin(map t | t in known :: LoadedShares(db, users, known, t),
                 map a: Asset | a in db && a.kind.Stock? && a.kind.ticker !in known :: db[a]),
          NO_HISTORY)
  }

  /** Every user has a balance row, and nothing stored is negative. */
  predicate GoodStore(db: Store, users: set<nat>) {
    && (forall u :: u in users ==> Asset(u, Money) in db)
    && (forall a :: a in db ==> db[a] >= 0)
  }

  ghost function LoadedCash(db: Store, users: set<nat>, known: set<nat>): (n: nat)
    requires GoodStore(db, users)
    ensures n == TotalHeld(LoadAll(db, users, known), Money)
  {
    SumMapBounds(LoadAll(db, users, known), HeldOf(Money));
    TotalHeld(LoadAll(db, users, known), Money)
  }

  ghost function LoadedShares(db: Store, users: set<nat>, known: set<nat>, t: nat): (n: nat)
    requires GoodStore(db, users)
    ensures n == TotalHeld(LoadAll(db, users, known), Stock(t))
  {
    SumMapBounds(LoadAll(db, users, known), HeldOf(Stock(t)));
    TotalHeld(LoadAll(db, users, known), Stock(t))
  }

  lemma UnknownIsNotLoaded(db: Store, users: set<nat>, known: set<nat>, t: nat)
    requires t !in known
    ensures TotalHeld(LoadAll(db, users, known), Stock(t)) == 0
  {
    var l := LoadAll(db, users, known);
    forall u | u in l ensures HeldOf(Stock(t))(l[u]) == 0 {}
    SumMapZero(l, HeldOf(Stock(t)));
  }

  /** The loaded server is a proper start of a run. */
  lemma BootIsInit(db: Store, users: set<nat>, known: set<nat>, tickers: set<nat>, limit: nat)
    requires GoodStore(db, users)
    requires LoadedCash(db, users, known) <= MAX_INT64
    requires forall t :: t in known ==> LoadedShares(db, users, known, t) <= limit
    ensures Init(Boot(db, users, known, tickers), limit)
  {
    var s := Boot(db, users, known, tickers);
    forall t: nat ensures TotalHeld(s.ledger, Stock(t)) == SharesOf(s.origin, t) <= limit {
      if t !in known { UnknownIsNotLoaded(db, users, known, t); }
    }
    forall a: Asset
      ensures Frozen(s.ledger, a) == 0 && Avail(s.ledger, a) >= 0
      ensures a.user in s.ledger ==> Stored(s.db, a) == Avail(s.ledger, a) + Gap(s.origin, a) && (a.kind.Money? ==> a in s.db)
    {
    }
  }

  /**
   The server loads users before it knows any ticker, so no holding is loaded; as long
   as requests fit their types, no fill is ever queued or settled.
   */
  lemma ServerNeverTrades(db: Store, users: set<nat>, tickers: set<nat>, states: seq<State>, actions: seq<Action>, i: nat)
    requires GoodStore(db, users)
    requires IsRun(states, actions, HALF32) && states[0] == Boot(db, users, {}, tickers) && i < |states|
    ensures states[i].matchQueue == [] && states[i].current == None
    ensures forall o :: o in states[i].handed && o.side.Sell? ==> o.qty == 0
  {
    var s := states[i];
    if s.matchQueue != [] {
      var r := s.matchQueue[0];
      assert r in s.matchQueue;
      UnknownIsNotLoaded(db, users, {}, r.ticker);
      NoLoadedSharesNoTrades(states, actions, i, r.ticker);
      assert false;
    }
    if s.current.Some? {
      var t := s.current.value.record.ticker;
      UnknownIsNotLoaded(db, users, {}, t);
      NoLoadedSharesNoTrades(states, actions, i, t);
      assert false;
    }
    forall o | o in s.handed && o.side.Sell? ensures o.qty == 0 {
      UnknownIsNotLoaded(db, users, {}, o.ticker);
      NoLoadedSharesNoTrades(states, actions, i, o.ticker);
    }
  }

  // ---------------------------------------------------- when a ticker trades at all

  predicate FillQueued(s: State, t: nat) {
    exists r :: r in s.matchQueue && r.ticker == t
  }

  lemma Holder(l: Ledger, k: Kind) returns (u: nat)
    requires TotalHeld(l, k) > 0 && forall v :: v in l ==> HeldOf(k)(l[v]) >= 0
    ensures u in l && HeldOf(k)(l[u]) > 0
  {
    if forall v :: v in l ==> HeldOf(k)(l[v]) == 0 {
      SumMapZero(l, HeldOf(k));
      assert false;
    }
    u :| u in l && HeldOf(k)(l[u]) != 0;
  }

  lemma StartIsUntouched(s0: State, t: nat, limit: nat)
    requires Init(s0, limit) && t in s0.threads
    ensures Untouched(s0, t)
  {
  }

  /** A user that can sell can also buy at price zero, and so trade with itself. */
  lemma SellThenBuy(l: Ledger, u: nat, t: nat, m: nat)
    requires u in l && Avail(l, Asset(u, Money)) >= 0 && I32(m) <= Avail(l, Asset(u, Stock(t)))
    ensures var r := Freeze(l, SellOne(t, u, m)); r.ok && Freeze(r.ledger, BuyOne(t, u, 1)).ok
  {
    assert BuyOne(t, u, 1).price * BuyOne(t, u, 1).qty == 0;
  }

  lemma HoldersTrade(s0: State, t: nat) returns (s: State)
    requires Init(s0, HALF32) && t in s0.threads && TotalHeld(s0.ledger, Stock(t)) > 0
    ensures Leads(s0, s, true) && FillQueued(s, t)
  {
    var k := Stock(t);
    forall v | v in s0.ledger ensures HeldOf(k)(s0.ledger[v]) == Avail(s0.ledger, Asset(v, k)) >= 0 {
      assert Frozen(s0.ledger, Asset(v, k)) == 0;
    }
    var u := Holder(s0.ledger, k);
    SellThenBuy(s0.ledger, u, t, 1);
    StartIsUntouched(s0, t, HALF32);
    s := SelfTrade(s0, t, u, 1, 1, true);
    assert OwnFill(t, u, 1) in s.matchQueue;
  }

  /**
   For requests that fit their types: a ticker with a book can see a fill in some run
   if and only if some of its shares were loaded.
   */
  lemma TradesIffSharesLoaded(s0: State, t: nat)
    requires Init(s0, HALF32) && t in s0.threads
    ensures (exists s :: Leads(s0, s, true) && FillQueued(s, t)) <==> TotalHeld(s0.ledger, Stock(t)) > 0
  {
    assert TotalHeld(s0.ledger, Stock(t)) == SharesOf(s0.origin, t);
    if TotalHeld(s0.ledger, Stock(t)) > 0 {
      var s := HoldersTrade(s0, t);
    } else if s :| Leads(s0, s, true) && FillQueued(s, t) {
      var states, actions := PathIsRun(s0, s, HALF32);
      NoLoadedSharesNoTrades(states, actions, |actions|, t);
    }
  }

  /**
   A sell order for 2^32 - 1 shares asks to freeze -1 and so needs no holding: with
   such requests the server trades every ticker, although it loaded no share.
   */
  lemma OversizedSellTrades(db: Store, users: set<nat>, tickers: set<nat>, u: nat, t: nat)
    requires GoodStore(db, users) && u in users && t in tickers
    ensures exists s :: Leads(Boot(db, users, {}, tickers), s, false) && FillQueued(s, t)
  {
    var s0 := Boot(db, users, {}, tickers);
    SellThenBuy(s0.ledger, u, t, TWO32 - 1);
    var s := SelfTrade(s0, t, u, TWO32 - 1, 1, false);
    assert OwnFill(t, u, 1) in s.matchQueue;
  }

  // --------------------------------------------------- an order for an unknown ticker

  lemma EmptyThreadsWeighNothing(s0: State, m: Measure, limit: nat)
    requires Init(s0, limit)
    ensures InThreads(m, s0.threads) == 0
  {
    forall t | t in s0.threads ensures OfThread(m)(s0.threads[t]) == 0 {}
    SumMapZero(s0.threads, OfThread(m));
  }

  lemma FreezesOneCoin(l: Ledger, u: nat, o: Order)
    requires u in l && 1 <= l[u].avail <= MAX_INT64 && l[u].frozen == 0
    requires o.user == u && o.side.Buy? && o.price == 1 && o.qty == 1
    ensures Freeze(l, o).ok && Frozen(Freeze(l, o).ledger, Asset(u, Money)) == 1
  {
  }

  lemma LogsOrder(s0: State, o: Order, limit: nat) returns (s: State)
    requires Init(s0, limit) && Fits(o) && Freeze(s0.ledger, o).ok
    ensures Leads(s0, s, true)
    ensures s == s0.(ledger := Freeze(s0.ledger, o).ledger, usedIds := {o.id}, walBatch := [NewOrder(o)], history := s.history)
  {
    Stay(s0, true);
    Admits(s0, o);
    s := Next(s0, s0, true, Admit(o));
    assert s.handed == [o] && RemoveAt([o], 0) == [];
    s := Next(s0, s, true, Append(0));
    assert s.walQueue == [NewOrder(o)] && RemoveAt([NewOrder(o)], 0) == [];
    s := Next(s0, s, true, WalTake(0));
    assert s.walBatch == [NewOrder(o)];
  }

  /** The order is admitted, logged, and dropped by the engine. */
  lemma DropsOrder(s0: State, o: Order, limit: nat) returns (s: State)
    requires Init(s0, limit) && Fits(o) && Freeze(s0.ledger, o).ok && o.ticker !in s0.threads
    ensures Leads(s0, s, true)
    ensures s == s0.(ledger := Freeze(s0.ledger, o).ledger, usedIds := {o.id}, wal := s.wal, dropped := [o], history := s.history)
  {
    s := LogsOrder(s0, o, limit);
    s := Next(s0, s, true, WalWrite);
    s := Next(s0, s, true, WalDispatch);
    assert s.dropped == [o];
  }

  /** Any user with a coin can order an unknown ticker; then nothing is in flight, and the coin is still frozen. */
  lemma UnknownTickerKeepsMoney(s0: State, u: nat, t: nat)
    requires Init(s0, HALF32) && u in s0.ledger && Avail(s0.ledger, Asset(u, Money)) > 0 && t !in s0.threads
    ensures exists s :: Leads(s0, s, true) && Quiet(s, Asset(u, Money)) && Frozen(s.ledger, Asset(u, Money)) == 1
  {
    var a := Asset(u, Money);
    var o := Order(1, t, u, Buy, 1, 1);
    assert Frozen(s0.ledger, a) == 0;
    HoldsAtMost(s0, a);
    FreezesOneCoin(s0.ledger, u, o);
    var s := DropsOrder(s0, o, HALF32);
    EmptyThreadsWeighNothing(s0, Claim(a), HALF32);
    assert Quiet(s, a);
  }

  lemma HoldsAtMost(s0: State, a: Asset)
    requires Init(s0, HALF32) && a.kind.Money?
    ensures Avail(s0.ledger, a) <= MAX_INT64
  {
    InitKeepsInv(s0);
    AllInRange(s0, a);
  }
}
