/** The account manager, operation by operation, in place. */
module UserManagers {
  import opened Orders
  import opened Measures
  import opened Accounts

  class UserAccount {
    var availableBalance: int
    var frozenBalance: int
    var availableStock: map<nat, int>
    var frozenStock: map<nat, int>

    constructor (balance: int)
      ensures Value() == Account(balance, 0, map[], map[])
    {
      availableBalance, frozenBalance, availableStock, frozenStock := balance, 0, map[], map[];
    }

    function Value(): Account
      reads this
    {
      Account(availableBalance, frozenBalance, availableStock, frozenStock)
    }
  }

  class UserManager {
    var accounts: map<nat, UserAccount>

    /** No two users share an account object. */
    ghost predicate Valid()
      reads this
    {
      forall u, v :: u in accounts && v in accounts && u != v ==> accounts[u] != accounts[v]
    }

    /** The accounts as values. */
    function Ledger(): Ledger
      reads this, accounts.Values
    {
      map u | u in accounts :: accounts[u].Value()
    }

    constructor ()
      ensures Valid() && Ledger() == map[]
    {
      accounts := map[];
    }

    /** A new account starts empty; an existing one is left alone. */
    method CreateUserAccount(uid: nat)
      requires Valid()
      modifies this
      ensures Valid()
      ensures Ledger() == if uid in old(Ledger()) then old(Ledger()) else old(Ledger())[uid := Account(0, 0, map[], map[])]
    {
      if uid !in accounts {
        var acc := new UserAccount(0);
        accounts := accounts[uid := acc];
      }
    }

    method TryFreezeBalance(uid: nat, amount: int) returns (ok: bool)
      requires Valid()
      modifies if uid in accounts then {accounts[uid]} else {}
      ensures Attempt(Ledger(), ok) == Accounts.TryFreezeBalance(old(Ledger()), uid, amount)
    {
      if uid !in accounts { return false; }
      var acc := accounts[uid];
      if acc.availableBalance >= amount {
        acc.availableBalance := I64(acc.availableBalance - amount);
        acc.frozenBalance := I64(acc.frozenBalance + amount);
        return true;
      }
      return false;
    }

    method TryFreezeStock(uid: nat, ticker: nat, qty: int) returns (ok: bool)
      requires Valid()
      modifies if uid in accounts then {accounts[uid]} else {}
      ensures Attempt(Ledger(), ok) == Accounts.TryFreezeStock(old(Ledger()), uid, ticker, qty)
    {
      if uid !in accounts { return false; }
      var acc := accounts[uid];
      var held := Of(acc.availableStock, ticker);
      acc.availableStock := acc.availableStock[ticker := held];
      ok := held >= qty;
      if ok {
        acc.availableStock := acc.availableStock[ticker := I32(held - qty)];
        acc.frozenStock := acc.frozenStock[ticker := I32(Of(acc.frozenStock, ticker) + qty)];
      }
      ghost var want := Accounts.TryFreezeStock(old(Ledger()), uid, ticker, qty);
      assert want == Attempt(old(Ledger())[uid := acc.Value()], ok);
    }

    method CommitBuy(uid: nat, ticker: nat, cost: int, qty: int, refund: int)
      requires Valid()
      modifies if uid in accounts then {accounts[uid]} else {}
      ensures Ledger() == Accounts.CommitBuy(old(Ledger()), uid, ticker, cost, qty, refund)
    {
      if uid !in accounts { return; }
      var acc := accounts[uid];
      acc.frozenBalance := I64(acc.frozenBalance - (cost + refund));
      acc.availableBalance := I64(acc.availableBalance + refund);
      acc.availableStock := acc.availableStock[ticker := I32(Of(acc.availableStock, ticker) + qty)];
      assert Ledger() == old(Ledger())[uid := acc.Value()];
    }

    method CommitSell(uid: nat, ticker: nat, revenue: int, qty: int)
      requires Valid()
      modifies if uid in accounts then {accounts[uid]} else {}
      ensures Ledger() == Accounts.CommitSell(old(Ledger()), uid, ticker, revenue, qty)
    {
      if uid !in accounts { return; }
      var acc := accounts[uid];
      acc.frozenStock := acc.frozenStock[ticker := I32(Of(acc.frozenStock, ticker) - qty)];
      acc.availableBalance := I64(acc.availableBalance + revenue);
    }

    method UnfreezeBalance(uid: nat, amount: int)
      requires Valid()
      modifies if uid in accounts then {accounts[uid]} else {}
      ensures Ledger() == Accounts.UnfreezeBalance(old(Ledger()), uid, amount)
    {
      if uid !in accounts { return; }
      var acc := accounts[uid];
      acc.frozenBalance := I64(acc.frozenBalance - amount);
      acc.availableBalance := I64(acc.availableBalance + amount);
    }

    method UnfreezeStock(uid: nat, ticker: nat, qty: int)
      requires Valid()
      modifies if uid in accounts then {accounts[uid]} else {}
      ensures Ledger() == Accounts.UnfreezeStock(old(Ledger()), uid, ticker, qty)
    {
      if uid !in accounts { return; }
      var acc := accounts[uid];
      acc.frozenStock := acc.frozenStock[ticker := I32(Of(acc.frozenStock, ticker) - qty)];
      acc.availableStock := acc.availableStock[ticker := I32(Of(acc.availableStock, ticker) + qty)];
    }

    method AddBalance(uid: nat, amount: int)
      requires Valid()
      modifies if uid in accounts then {accounts[uid]} else {}
      ensures Ledger() == Accounts.AddBalance(old(Ledger()), uid, amount)
    {
      if uid !in accounts { return; }
      var acc := accounts[uid];
      acc.availableBalance := I64(acc.availableBalance + amount);
    }
  }
}
