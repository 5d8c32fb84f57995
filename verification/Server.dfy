/**
 The threads and handlers of the exchange as the program has them: classes that
 drain queues batch by batch. PipelineLoops proves that a round of the step machine
 has the very effect that the contracts here state for a round of each loop.
 */
module Server {
  import opened Orders
  import opened Sums
  import opened Measures
  import opened FlatBook
  import opened BookLaws
  import opened Replay
  import opened Wal
  import opened Settlement
  import A = Accounts
  import opened UserManagers
  import opened OrderBooks

  /** A queue as its one consumer sees it. */
  class Fifo<T> {
    var items: seq<T>

    constructor ()
      ensures items == []
    {
      items := [];
    }

    method Enqueue(x: T)
      modifies this
      ensures items == old(items) + [x]
    {
      items := items + [x];
    }

    method EnqueueBulk(xs: seq<T>)
      modifies this
      ensures items == old(items) + xs
    {
      items := items + xs;
    }

    /** At most `max` elements, in order. */
    method TryDequeueBulk(max: nat) returns (batch: seq<T>)
      modifies this
      ensures batch + items == old(items)
      ensures |batch| == if |old(items)| <= max then |old(items)| else max
    {
      var n := if |items| <= max then |items| else max;
      batch, items := items[..n], items[n..];
    }
  }

  /** The two repositories, as one store of balances and holdings. */
  class Repository {
    var store: Store

    constructor (db: Store)
      ensures store == db
    {
      store := db;
    }

    /** Deducts if enough is stored, and reports whether a row was changed by it. */
    method DeductBalance(user: nat, amount: int) returns (ok: bool)
      modifies this
      ensures ok == (store != old(store))
      ensures store == Deduct(old(store), Asset(user, Money), amount)
      ensures Accepts(old(store), Asset(user, Money), amount) && amount != 0 <==> ok
    {
      ok := DeductRow(Asset(user, Money), amount);
    }

    /** The guarded update of one row. */
    method DeductRow(a: Asset, amount: int) returns (ok: bool)
      modifies this
      ensures ok == (store != old(store))
      ensures store == Deduct(old(store), a, amount)
      ensures Accepts(old(store), a, amount) && amount != 0 <==> ok
    {
      ok := a in store && store[a] >= amount && amount != 0;
      if ok {
        var rest := store[a] - amount;
        assert rest != store[a];
        store := store[a := rest];
        assert store[a] == rest;
      } else {
        assert a in store && amount == 0 ==> store[a := store[a] - amount] == store;
      }
    }

    /** Succeeds if the statement could be executed, whether or not the user has a row. */
    method UpdateBalance(user: nat, amount: int, reachable: bool) returns (ok: bool)
      modifies this
      ensures ok == reachable
      ensures store == if reachable then Credit(old(store), Asset(user, Money), amount) else old(store)
    {
      var a := Asset(user, Money);
      if reachable && a in store { store := store[a := store[a] + amount]; }
      ok := reachable;
    }

    method UpdateStockHolding(user: nat, ticker: nat, delta: int)
      modifies this
      ensures store == Upsert(old(store), Asset(user, Stock(ticker)), delta)
    {
      var a := Asset(user, Stock(ticker));
      store := store[a := Stored(store, a) + delta];
    }

    method DeductStockHolding(user: nat, ticker: nat, amount: int) returns (ok: bool)
      modifies this
      ensures ok == (store != old(store))
      ensures store == Deduct(old(store), Asset(user, Stock(ticker)), amount)
      ensures Accepts(old(store), Asset(user, Stock(ticker)), amount) && amount != 0 <==> ok
    {
      ok := DeductRow(Asset(user, Stock(ticker)), amount);
    }
  }

  class SettlementProcessor {
    const users: UserManager
    const repo: Repository
    const queue: Fifo<MatchRecord>
    const cancelQueue: Fifo<CancelRecord>

    constructor (users: UserManager, repo: Repository)
      ensures this.users == users && this.repo == repo
      ensures queue.items == [] && cancelQueue.items == []
    {
      this.users, this.repo := users, repo;
      queue := new Fifo();
      cancelQueue := new Fifo();
    }

    function State(): Holdings
      reads users, users.accounts.Values, repo
    {
      Holdings(users.Ledger(), repo.store)
    }

    /** The four database updates of one fill. */
    method StoreFill(rec: MatchRecord, ghost l: A.Ledger)
      modifies repo
      ensures Holdings(l, repo.store)
           == Update(Update(Update(Update(Holdings(l, old(repo.store)), rec, 0), rec, 1), rec, 2), rec, 3)
    {
      var sellMoney := A.I64(A.U64(rec.price * rec.qty));
      var paid := repo.DeductBalance(rec.buyer, sellMoney);
      repo.UpdateStockHolding(rec.buyer, rec.ticker, A.I32(rec.qty));
      var credited := repo.UpdateBalance(rec.seller, sellMoney, true);
      var delivered := repo.DeductStockHolding(rec.seller, rec.ticker, A.I32(rec.qty));
    }

    /** The two account updates of one fill. */
    method CommitFill(rec: MatchRecord, ghost db: Store)
      requires users.Valid()
      modifies users.accounts.Values
      ensures Holdings(users.Ledger(), db) == Update(Update(Holdings(old(users.Ledger()), db), rec, 4), rec, 5)
    {
      var sellMoney := A.I64(A.U64(rec.price * rec.qty));
      var refundMoney := A.I64(A.U64(A.U64(rec.expected - rec.price) * rec.qty));
      users.CommitBuy(rec.buyer, rec.ticker, sellMoney, A.I32(rec.qty), refundMoney);
      assert users.Ledger() == A.CommitBuy(old(users.Ledger()), rec.buyer, rec.ticker, Cost(rec), Shares(rec), Refund(rec));
      users.CommitSell(rec.seller, rec.ticker, sellMoney, A.I32(rec.qty));
    }

    /** One fill: first the database, then the accounts. */
    method SettleOne(rec: MatchRecord)
      requires users.Valid()
      modifies users.accounts.Values, repo
      ensures State() == SettleRecord(old(State()), rec)
    {
      StoreFill(rec, users.Ledger());
      CommitFill(rec, repo.store);
    }

    method SettleMatches(buffer: seq<MatchRecord>)
      requires users.Valid()
      modifies users.accounts.Values, repo
      ensures State() == SettleRecords(old(State()), buffer)
    {
      for i := 0 to |buffer|
        invariant State() == SettleRecords(old(State()), buffer[..i])
      {
        assert buffer[..i + 1][..i] == buffer[..i];
        SettleOne(buffer[i]);
      }
      assert buffer[..|buffer|] == buffer;
    }

    method SettleOneCancel(rec: CancelRecord)
      requires users.Valid()
      modifies users.accounts.Values
      ensures users.Ledger() == SettleCancel(old(users.Ledger()), rec)
    {
      if rec.side == Buy {
        users.UnfreezeBalance(rec.user, A.I64(A.U64(rec.price * rec.qty)));
      } else {
        users.UnfreezeStock(rec.user, rec.ticker, A.I32(rec.qty));
      }
    }

    method SettleCancelBatch(buffer: seq<CancelRecord>)
      requires users.Valid()
      modifies users.accounts.Values
      ensures users.Ledger() == SettleCancels(old(users.Ledger()), buffer)
    {
      for i := 0 to |buffer|
        invariant users.Ledger() == SettleCancels(old(users.Ledger()), buffer[..i])
      {
        assert buffer[..i + 1][..i] == buffer[..i];
        SettleOneCancel(buffer[i]);
      }
      assert buffer[..|buffer|] == buffer;
    }

    method DrainFills() returns (fills: seq<MatchRecord>)
      requires users.Valid()
      modifies users.accounts.Values, repo, queue
      ensures fills + queue.items == old(queue.items)
      ensures |fills| == if |old(queue.items)| < 1000 then |old(queue.items)| else 1000
      ensures State() == SettleRecords(old(State()), fills)
    {
      fills := queue.TryDequeueBulk(1000);
      SettleMatches(fills);
    }

    method DrainCancels() returns (cancels: seq<CancelRecord>)
      requires users.Valid()
      modifies users.accounts.Values, cancelQueue
      ensures cancels + cancelQueue.items == old(cancelQueue.items)
      ensures |cancels| == if |old(cancelQueue.items)| < 1000 then |old(cancelQueue.items)| else 1000
      ensures users.Ledger() == SettleCancels(old(users.Ledger()), cancels)
    {
      cancels := cancelQueue.TryDequeueBulk(1000);
      SettleCancelBatch(cancels);
    }

    /** One round of the settlement loop: a batch of fills, then a batch of cancels. */
    method ProcessRound() returns (fills: seq<MatchRecord>, cancels: seq<CancelRecord>)
      requires users.Valid()
      modifies users.accounts.Values, repo, queue, cancelQueue
      ensures fills + queue.items == old(queue.items) && cancels + cancelQueue.items == old(cancelQueue.items)
      ensures |fills| == if |old(queue.items)| < 1000 then |old(queue.items)| else 1000
      ensures |cancels| == if |old(cancelQueue.items)| < 1000 then |old(cancelQueue.items)| else 1000
      ensures users.Ledger() == SettleCancels(SettleRecords(old(State()), fills).ledger, cancels)
      ensures repo.store == SettleRecords(old(State()), fills).db
    {
      fills := DrainFills();
      assert State() == SettleRecords(old(State()), fills);
      cancels := DrainCancels();
    }

    method PushRecords(records: seq<MatchRecord>)
      modifies queue
      ensures queue.items == old(queue.items) + records
    {
      if records != [] { queue.EnqueueBulk(records); }
    }

    method PushCancelRecord(record: CancelRecord)
      modifies cancelQueue
      ensures cancelQueue.items == old(cancelQueue.items) + [record]
    {
      cancelQueue.Enqueue(record);
    }
  }

  /** Every event of a batch can be handled when its turn comes. */
  ghost predicate AllAdmissible(p: Progress, events: seq<Event>) {
    forall i :: 0 <= i < |events| ==> Admissible(HandleAll(p, events[..i]).book, events[i])
  }

  /** The next event of a batch can be handled, and handling it is one more step of the batch. */
  lemma NextIsHandled(start: Progress, events: seq<Event>, i: nat, p: Progress)
    requires i < |events| && AllAdmissible(start, events) && p == HandleAll(start, events[..i])
    ensures Admissible(p.book, events[i]) && HandleAll(start, events[..i + 1]) == Handle(p, events[i])
  {
    assert events[..i + 1] == events[..i] + [events[i]];
    HandleLast(start, events[..i], events[i]);
  }

  lemma WholePrefix<T>(xs: seq<T>)
    ensures xs[..|xs|] == xs
  {
  }

  class OrderBookProcessor {
    const book: OrderBook
    const settlement: SettlementProcessor

    constructor (ticker: nat, sp: SettlementProcessor)
      ensures settlement == sp && book.Valid() && book.View() == Empty(ticker)
    {
      book := new OrderBook(ticker);
      settlement := sp;
    }

    method NewNode(o: Order) returns (order: OrderNode)
      requires book.Valid()
      ensures fresh(order) && order.Value() == o
      ensures o.ticker == book.View().ticker && !HasId(book.View(), o.id) ==> book.Acceptable(order)
      ensures book.Valid() && book.View() == old(book.View()) && book.Nodes() == old(book.Nodes())
    {
      order := new OrderNode(o);
      book.Stays();
    }

    /** An order object is made and matched. */
    method Submit(o: Order) returns (fills: seq<MatchRecord>)
      requires book.Valid() && o.ticker == book.View().ticker && !HasId(book.View(), o.id)
      modifies book, book.Nodes()
      ensures book.Valid() && Process(old(book.View()), o) == Processed(book.View(), fills)
      ensures fresh(Set(book.Nodes()) - old(Set(book.Nodes())))
    {
      var order := NewNode(o);
      book.NodesOfSides();
      fills := book.ProcessOrder(order);
      assert Set(book.Nodes()) - old(Set(book.Nodes())) <= {order};
    }

    method HandleNew(o: Order, ghost p: Progress) returns (fills: seq<MatchRecord>)
      requires book.Valid() && book.View() == p.book && Admissible(p.book, NewOrder(o))
      modifies book, book.Nodes()
      ensures book.Valid() && book.View() == Handle(p, NewOrder(o)).book
      ensures fresh(Set(book.Nodes()) - old(Set(book.Nodes())))
      ensures Handle(p, NewOrder(o)).records == p.records + fills
      ensures unchanged(settlement.cancelQueue)
    {
      fills := Submit(o);
    }

    /** Takes an order out of the book and describes what was left of it. */
    method CancelInBook(ticker: nat, id: nat, user: nat, ghost p: Progress) returns (records: seq<CancelRecord>)
      requires book.Valid() && book.View() == p.book
      modifies book
      ensures book.Valid() && book.View() == Handle(p, CancelOrder(ticker, id, user)).book
      ensures Set(book.Nodes()) <= old(Set(book.Nodes()))
      ensures Handle(p, CancelOrder(ticker, id, user)).cancels == p.cancels + records
      ensures |records| <= 1
    {
      records := [];
      var c := book.CancelOrder(id, user);
      if c != null {
        records := [CancelRecord(c.ticker, c.id, c.user, c.side, c.price, c.quantity)];
      }
    }

    /** What one event yields: fills of an order, or the record of a cancel. */
    method HandleEvent(event: Event, ghost p: Progress) returns (fills: seq<MatchRecord>, cancels: seq<CancelRecord>)
      requires book.Valid() && book.View() == p.book && Admissible(p.book, event)
      modifies book, book.Nodes()
      ensures book.Valid() && book.View() == Handle(p, event).book
      ensures fresh(Set(book.Nodes()) - old(Set(book.Nodes())))
      ensures Handle(p, event).records == p.records + fills
      ensures Handle(p, event).cancels == p.cancels + cancels && |cancels| <= 1
      ensures unchanged(settlement.cancelQueue)
    {
      fills, cancels := [], [];
      match event {
        case NewOrder(o) => fills := HandleNew(o, p);
        case CancelOrder(ticker, id, user) => cancels := CancelInBook(ticker, id, user, p);
      }
    }

    /** The record of a cancel goes to the settlement queue at once. */
    method PassOn(cancels: seq<CancelRecord>)
      requires book.Valid() && |cancels| <= 1
      modifies settlement.cancelQueue
      ensures settlement.cancelQueue.items == old(settlement.cancelQueue.items) + cancels
      ensures book.Valid() && book.View() == old(book.View()) && book.Nodes() == old(book.Nodes())
    {
      if cancels != [] {
        settlement.PushCancelRecord(cancels[0]);
        assert cancels == [cancels[0]];
      }
      book.Stays();
    }

    /** The events of a batch, one after another: a cancel is passed on at once, fills are collected. */
    method HandleBatch(buffer: seq<Event>) returns (results: seq<MatchRecord>)
      requires book.Valid() && AllAdmissible(Progress(book.View(), [], []), buffer)
      modifies book, book.Nodes(), settlement.cancelQueue
      ensures var p := HandleAll(Progress(old(book.View()), [], []), buffer);
              && book.Valid() && book.View() == p.book && results == p.records
              && settlement.cancelQueue.items == old(settlement.cancelQueue.items) + p.cancels
    {
      ghost var start, nodes := Progress(book.View(), [], []), Set(book.Nodes());
      ghost var base, sent: seq<CancelRecord> := settlement.cancelQueue.items, [];
      results := [];
      for i := 0 to |buffer|
        invariant book.Valid() && fresh(Set(book.Nodes()) - nodes)
        invariant HandleAll(start, buffer[..i]) == Progress(book.View(), results, sent)
        invariant settlement.cancelQueue.items == base + sent
      {
        ghost var p := Progress(book.View(), results, sent);
        NextIsHandled(start, buffer, i, p);
        var fills, cancels := HandleEvent(buffer[i], p);
        results := results + fills;
        PassOn(cancels);
        ConcatAssoc(base, sent, cancels);
        sent := sent + cancels;
      }
      WholePrefix(buffer);
    }

    method Publish(results: seq<MatchRecord>)
      requires book.Valid()
      modifies settlement.queue
      ensures settlement.queue.items == old(settlement.queue.items) + results
      ensures book.Valid() && book.View() == old(book.View())
    {
      if results != [] {
        settlement.PushRecords(results);
      }
      book.Stays();
    }

    /** A batch of events, then one publication of all its fills. */
    method ProcessBatch(buffer: seq<Event>)
      requires book.Valid() && AllAdmissible(Progress(book.View(), [], []), buffer)
      modifies book, book.Nodes(), settlement.queue, settlement.cancelQueue
      ensures var p := HandleAll(Progress(old(book.View()), [], []), buffer);
              && book.Valid() && book.View() == p.book
              && settlement.queue.items == old(settlement.queue.items) + p.records
              && settlement.cancelQueue.items == old(settlement.cancelQueue.items) + p.cancels
    {
      var results := HandleBatch(buffer);
      Publish(results);
    }
  }

  /** The engine finds the queue of a ticker's book thread. */
  class MatchingEngine {
    var orderBooks: map<nat, Fifo<Event>>

    /** No two tickers share a queue. */
    ghost predicate Valid()
      reads this
    {
      forall t, u :: t in orderBooks && u in orderBooks && t != u ==> orderBooks[t] != orderBooks[u]
    }

    constructor ()
      ensures Valid() && orderBooks == map[]
    {
      orderBooks := map[];
    }

    method Init(ticker: nat)
      requires Valid()
      modifies this
      ensures Valid() && orderBooks.Keys == old(orderBooks.Keys) + {ticker}
      ensures ticker !in old(orderBooks) ==> fresh(orderBooks[ticker]) && orderBooks[ticker].items == []
      ensures forall t :: t in old(orderBooks) ==> orderBooks[t] == old(orderBooks)[t]
    {
      if ticker !in orderBooks {
        var q := new Fifo<Event>();
        orderBooks := orderBooks[ticker := q];
      }
    }

    /** An event for a known ticker joins that ticker's queue; any other event is dropped. */
    method Route(e: Event) returns (ok: bool)
      requires Valid()
      modifies orderBooks.Values
      ensures forall o :: e == NewOrder(o) ==> ok == (o.ticker in orderBooks)
      ensures forall t, id, u :: e == CancelOrder(t, id, u) ==> ok == (t in orderBooks)
      ensures forall t :: t in orderBooks ==> orderBooks[t].items == old(orderBooks[t].items) + Project([e], t)
    {
      var t := TickerOf(e);
      ok := t in orderBooks;
      if ok {
        orderBooks[t].Enqueue(e);
      }
    }
  }

  class WALManager {
    const engine: MatchingEngine
    var log: seq<WalRecord>

    constructor (engine: MatchingEngine)
      ensures this.engine == engine && log == []
    {
      this.engine := engine;
      log := [];
    }

    /** One record an event, in the order of the batch. */
    method BuildRecords(buffer: seq<Event>) returns (records: seq<WalRecord>)
      ensures records == RecordAll(buffer)
      ensures forall i, o :: 0 <= i < |buffer| && buffer[i] == NewOrder(o) ==>
                records[i] == WalRecord(0, o.id, o.ticker, o.user, if o.side == Sell then 1 else 0, o.price, o.qty)
      ensures forall i, t, id, u :: 0 <= i < |buffer| && buffer[i] == CancelOrder(t, id, u) ==>
                records[i] == WalRecord(1, id, t, u, 0, 0, 0)
    {
      records := [];
      for i := 0 to |buffer|
        invariant records == RecordAll(buffer[..i])
      {
        var rec;
        match buffer[i] {
          case NewOrder(o) =>
            rec := WalRecord(0, o.id, o.ticker, o.user, if o.side == Buy then 0 else 1, o.price, o.qty);
          case CancelOrder(ticker, id, user) =>
            rec := WalRecord(1, id, ticker, user, 0, 0, 0);
        }
        records := records + [rec];
        assert buffer[..i + 1] == buffer[..i] + [buffer[i]];
      }
      assert buffer[..|buffer|] == buffer;
    }

    /** The whole batch is written before any of its events is routed. */
    method ProcessBatch(buffer: seq<Event>)
      requires engine.Valid()
      modifies this, engine.orderBooks.Values
      ensures log == old(log) + RecordAll(buffer)
      ensures forall t :: t in engine.orderBooks ==>
                engine.orderBooks[t].items == old(engine.orderBooks[t].items) + Project(buffer, t)
    {
      var records := BuildRecords(buffer);
      log := log + records;
      for i := 0 to |buffer|
        invariant log == old(log) + RecordAll(buffer)
        invariant forall t :: t in engine.orderBooks ==>
                    engine.orderBooks[t].items == old(engine.orderBooks[t].items) + Project(buffer[..i], t)
      {
        assert buffer[..i + 1] == buffer[..i] + [buffer[i]];
        forall t ensures Project(buffer[..i + 1], t) == Project(buffer[..i], t) + Project([buffer[i]], t) {
          ProjectConcat(buffer[..i], [buffer[i]], t);
        }
        var routed := engine.Route(buffer[i]);
      }
      assert buffer[..|buffer|] == buffer;
    }
  }

  /** The handlers that enter the pipeline, for a session that is logged in. */
  class Handlers {
    const users: UserManager
    const repo: Repository
    const wal: Fifo<Event>

    constructor (users: UserManager, repo: Repository, wal: Fifo<Event>)
      ensures this.users == users && this.repo == repo && this.wal == wal
    {
      this.users, this.repo, this.wal := users, repo, wal;
    }

    /** An order is handed to the log exactly when its assets could be frozen. */
    method Trade(id: nat, user: nat, ticker: nat, side: nat, price: nat, amount: nat) returns (status: nat)
      requires users.Valid()
      modifies users.accounts.Values, wal
      ensures var o := Order(id, ticker, user, if side == 0 then Buy else Sell, price, amount);
              var r := if o.side.Buy? then A.TryFreezeBalance(old(users.Ledger()), user, A.I64(A.U64(price * amount)))
                       else A.TryFreezeStock(old(users.Ledger()), user, ticker, A.I32(amount));
              && users.Ledger() == r.ledger
              && status == (if r.ok then 1 else 0)
              && wal.items == old(wal.items) + if r.ok then [NewOrder(o)] else []
    {
      var order := Order(id, ticker, user, if side == 0 then Buy else Sell, price, amount);
      var ok;
      if order.side == Buy {
        var totalCost := A.I64(A.U64(price * amount));
        ok := users.TryFreezeBalance(user, totalCost);
      } else {
        ok := users.TryFreezeStock(user, ticker, A.I32(amount));
      }
      status := 0;
      if ok {
        wal.Enqueue(NewOrder(order));
        status := 1;
      }
    }

    /**
     A positive amount is stored first and then credited. Anything else is refused, and
     so is a deposit that the database cannot store.
     */
    method Deposit(user: nat, request: nat, reachable: bool) returns (status: nat)
      requires users.Valid() && request < TWO64
      modifies users.accounts.Values, repo
      ensures status == if A.I64(request) > 0 && reachable then 1 else 0
      ensures status == 0 ==> users.Ledger() == old(users.Ledger()) && repo.store == old(repo.store)
      ensures status == 1 ==>
                && request < A.TWO63
                && users.Ledger() == A.AddBalance(old(users.Ledger()), user, request)
                && repo.store == Credit(old(repo.store), Asset(user, Money), request)
    {
      var amount := A.I64(request);
      if amount <= 0 { return 0; }
      var stored := repo.UpdateBalance(user, amount, reachable);
      if !stored { return 0; }
      users.AddBalance(user, amount);
      status := 1;
    }

    /** A cancel request is always accepted and only queued. */
    method Cancel(ticker: nat, id: nat, user: nat) returns (status: nat)
      modifies wal
      ensures status == 1 && wal.items == old(wal.items) + [CancelOrder(ticker, id, user)]
    {
      wal.Enqueue(CancelOrder(ticker, id, user));
      status := 1;
    }
  }
}
