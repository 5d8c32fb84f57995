/**
 Why a ticker's supply must stay below half of what a share count can hold: while
 a user's trade with itself is being settled, its shares are counted twice, and
 a sell order admitted at that moment freezes them all.
 */
module Overflow {
  import opened Orders
  import opened Sums
  import opened Measures
  import opened FlatBook
  import opened BookLaws
  import opened Replay
  import opened Wal
  import opened Accounts
  import opened Settlement
  import opened Pipeline
  import opened PipelineRuns
  import opened PipelineSafety

  // One user, one ticker, all of its n shares, and orders at price zero.

  function Only(acc: Account): Ledger { map[1 := acc] }
  function Rows(n: int): Store { map[Asset(1, Money) := 0, Asset(1, Stock(1)) := n] }

  ghost function Loaded(n: nat): State {
    State(Only(Account(0, 0, map[1 := n], map[])), Rows(n), [], [], {}, [], [], false, [], [],
          map[1 := Thread([], [], [], [], Start(1))], [], [], None, 0, Origin(map[1 := n], map[]), NO_HISTORY)
  }

  lemma LoadedTotals(n: nat, k: Kind)
    ensures TotalHeld(Loaded(n).ledger, k) == if k == Stock(1) then n else 0
  {
    var l := Loaded(n).ledger;
    SumMapPick(l, 1, HeldOf(k));
    assert l - {1} == map[];
  }

  lemma LoadedAssets(n: nat, a: Asset)
    ensures Frozen(Loaded(n).ledger, a) == 0 && Avail(Loaded(n).ledger, a) == if a == Asset(1, Stock(1)) then n else 0
    ensures a.user in Loaded(n).ledger ==>
              && Stored(Loaded(n).db, a) == Avail(Loaded(n).ledger, a) + Gap(Loaded(n).origin, a)
              && (a.kind.Money? ==> a in Loaded(n).db)
  {
  }

  lemma LoadedIsInit(n: nat)
    ensures Init(Loaded(n), n) && Untouched(Loaded(n), 1)
  {
    var s := Loaded(n);
    LoadedTotals(n, Money);
    forall t ensures TotalHeld(s.ledger, Stock(t)) == SharesOf(s.origin, t) <= n { LoadedTotals(n, Stock(t)); }
    forall a: Asset
      ensures Frozen(s.ledger, a) == 0 && Avail(s.ledger, a) >= 0
      ensures a.user in s.ledger ==> Stored(s.db, a) == Avail(s.ledger, a) + Gap(s.origin, a) && (a.kind.Money? ==> a in s.db)
    {
      LoadedAssets(n, a);
    }
  }

  /** All shares are sold and bought at price zero by their one owner. */
  lemma FreezesAll(n: nat, l: Ledger, id: nat)
    requires n <= MAX_INT32 && l == Only(Account(0, 0, map[1 := n], map[]))
    ensures Freeze(l, Order(id, 1, 1, Sell, 0, n)) == Attempt(Only(Account(0, 0, map[1 := 0], map[1 := n])), true)
  {
    var f := TryFreezeStock(l, 1, 1, n).ledger;
    assert f[1].availStock == map[1 := 0] && f[1].frozenStock == map[1 := n];
    assert f == Only(Account(0, 0, map[1 := 0], map[1 := n]));
  }

  lemma FreezesNothing(l: Ledger, o: Order)
    requires o.side.Buy? && o.price == 0 && o.user in l && l[o.user].avail == 0 && l[o.user].frozen == 0
    ensures Freeze(l, o) == Attempt(l, true)
  {
    assert o.price * o.qty == 0;
    assert l[o.user := l[o.user].(avail := 0, frozen := 0)] == l;
  }

  /** The fill reaches settlement. */
  lemma Filled(n: nat) returns (s: State)
    requires 0 < n <= MAX_INT32
    ensures Leads(Loaded(n), s, true)
    ensures s.ledger == Only(Account(0, 0, map[1 := 0], map[1 := n])) && s.usedIds == {1, 2}
    ensures s.current == Some(Settling(OwnFill(1, 1, n), 0)) && s.handed == []
  {
    LoadedIsInit(n);
    FreezesAll(n, Loaded(n).ledger, 1);
    FreezesNothing(Only(Account(0, 0, map[1 := 0], map[1 := n])), BuyOne(1, 1, n));
    s := SelfTrade(Loaded(n), 1, 1, n, n, true);
    s := Next(Loaded(n), s, true, SettleTake(0));
  }

  lemma StoreStep(s: State, c: Settling)
    requires s.current == Some(c) && c.pc < 4
    ensures var s' := SettleNext(s);
            s'.ledger == s.ledger && s'.usedIds == s.usedIds && s'.handed == s.handed && s'.current == Some(c.(pc := c.pc + 1))
  {
  }

  lemma AccountStep(s: State, n: nat)
    requires n <= MAX_INT32 && s.current == Some(Settling(OwnFill(1, 1, n), 4))
    requires s.ledger == Only(Account(0, 0, map[1 := 0], map[1 := n]))
    ensures SettleNext(s).ledger == Only(Account(0, 0, map[1 := n], map[1 := n])) && SettleNext(s).usedIds == s.usedIds
    ensures SettleNext(s).handed == s.handed
  {
    var r := OwnFill(1, 1, n);
    assert r.price * r.qty == 0 && Shares(r) == n && Cost(r) == 0 && Refund(r) == 0;
    var l := CommitBuy(s.ledger, 1, 1, 0, n, 0);
    assert l[1].availStock == map[1 := n];
  }

  /** Up to the buyer's update: the shares are now both available and frozen. */
  lemma HalfSettled(n: nat) returns (s: State)
    requires 0 < n <= MAX_INT32
    ensures Leads(Loaded(n), s, true)
    ensures s.ledger == Only(Account(0, 0, map[1 := n], map[1 := n])) && s.usedIds == {1, 2} && s.handed == []
  {
    s := Filled(n);
    var r := OwnFill(1, 1, n);
    for pc := 0 to 4
      invariant Leads(Loaded(n), s, true) && s.current == Some(Settling(r, pc))
      invariant s.ledger == Only(Account(0, 0, map[1 := 0], map[1 := n])) && s.usedIds == {1, 2} && s.handed == []
    {
      StoreStep(s, Settling(r, pc));
      s := Next(Loaded(n), s, true, SettleStep);
    }
    AccountStep(s, n);
    s := Next(Loaded(n), s, true, SettleStep);
  }

  lemma FreezesTwice(n: nat, l: Ledger)
    requires HALF32 < n <= MAX_INT32 && l == Only(Account(0, 0, map[1 := n], map[1 := n]))
    ensures Frozen(Freeze(l, Order(3, 1, 1, Sell, 0, n)).ledger, Asset(1, Stock(1))) < 0
  {
    assert I32(n + n) == n + n - TWO32;
  }

  /** From more than half of the range on, a sell order admitted at that moment makes a frozen share count negative. */
  lemma TooManyShares(n: nat) returns (s: State)
    requires HALF32 < n <= MAX_INT32
    ensures Reachable(s, n) && Frozen(s.ledger, Asset(1, Stock(1))) < 0
  {
    s := HalfSettled(n);
    FreezesTwice(n, s.ledger);
    s := Next(Loaded(n), s, true, Admit(Order(3, 1, 1, Sell, 0, n)));
    LoadedIsInit(n);
  }

  /**
   Every balance of every reachable state fits its field if and only if no
   ticker's supply exceeds half of the range of a share count.
   */
  lemma SupplyLimitIsExact(limit: nat)
    requires limit <= MAX_INT32
    ensures (forall s, a :: Reachable(s, limit) ==> InRange(s.ledger, a)) <==> limit <= HALF32
  {
    if limit <= HALF32 {
      forall s, a | Reachable(s, limit) ensures InRange(s.ledger, a) {
        var s0 :| Init(s0, limit) && Leads(s0, s, true);
        var states, actions := PathIsRun(s0, s, limit);
        assert IsRun(states, actions, HALF32);
        FrozenIsInFlight(states, actions, |actions|, a);
      }
    } else {
      var s := TooManyShares(limit);
      assert !InRange(s.ledger, Asset(1, Stock(1)));
    }
  }
}
