/** Every fill is between two orders that were given, on the terms of both. */
module Fills {
  import opened Orders
  import opened Measures
  import opened FlatBook
  import opened BookLaws
  import opened Replay

  /** A resting order is what is left of one that was given. */
  predicate LeftOf(x: Order, o: Order) {
    x == o.(qty := x.qty) && x.qty <= o.qty
  }

  predicate Given(x: Order, orders: seq<Order>) {
    exists o :: o in orders && LeftOf(x, o)
  }

  predicate AllGiven(xs: seq<Order>, orders: seq<Order>) {
    forall x :: x in xs ==> Given(x, orders)
  }

  predicate AgreedBySome(r: MatchRecord, orders: seq<Order>) {
    exists maker, taker :: maker in orders && taker in orders && Agreed(r, maker, taker)
  }

  predicate AllAgreed(rs: seq<MatchRecord>, orders: seq<Order>) {
    forall r :: r in rs ==> AgreedBySome(r, orders)
  }

  lemma GivenMore(xs: seq<Order>, rs: seq<MatchRecord>, orders: seq<Order>, more: seq<Order>)
    requires AllGiven(xs, orders) && AllAgreed(rs, orders) && forall o :: o in orders ==> o in more
    ensures AllGiven(xs, more) && AllAgreed(rs, more)
  {
    forall x | x in xs ensures Given(x, more) { assert Given(x, orders); }
    forall r | r in rs ensures AgreedBySome(r, more) { assert AgreedBySome(r, orders); }
  }

  /** Each fill of one incoming order is what it and a resting order agreed to. */
  lemma ProcessFillsAgree(b: Book, o: Order, r: MatchRecord)
    requires Valid(b) && r in Process(b, o).records
    ensures exists x :: x in b.bids + b.asks && Agreed(r, x, o)
  {
    var makers := if o.side.Buy? then b.asks else b.bids;
    MatchIsPriorityAllocation(b.ticker, makers, o);
    var j :| 0 <= j < |Process(b, o).records| && Process(b, o).records[j] == r;
    assert makers[j] in makers;
    assert Agreed(r, makers[j], o);
  }

  lemma ProcessAgrees(b: Book, o: Order, orders: seq<Order>)
    requires Valid(b) && o in orders && AllGiven(b.bids + b.asks, orders)
    ensures AllAgreed(Process(b, o).records, orders)
  {
    forall r | r in Process(b, o).records ensures AgreedBySome(r, orders) {
      ProcessFillsAgree(b, o, r);
      var x :| x in b.bids + b.asks && Agreed(r, x, o);
      assert Given(x, orders);
      var maker :| maker in orders && LeftOf(x, maker);
      assert Agreed(r, maker, o);
    }
  }

  lemma RestIsGiven(ticker: nat, makers: seq<Order>, taker: Order, orders: seq<Order>)
    requires GoodSide(ticker, Opposite(taker.side), makers) && AllGiven(makers, orders)
    ensures AllGiven(Match(ticker, makers, taker).rest, orders)
  {
    var rest := Match(ticker, makers, taker).rest;
    RestIsLeft(ticker, makers, taker);
    forall x | x in rest ensures Given(x, orders) {
      var y :| y in makers && LeftOf(x, y);
      assert Given(y, orders);
      var o :| o in orders && LeftOf(y, o);
      assert LeftOf(x, o);
    }
  }

  lemma {:induction false} RestIsLeft(ticker: nat, makers: seq<Order>, taker: Order)
    ensures forall x :: x in Match(ticker, makers, taker).rest ==> exists y :: y in makers && LeftOf(x, y)
  {
    var rest := Match(ticker, makers, taker).rest;
    forall x | x in rest ensures exists y :: y in makers && LeftOf(x, y) {
      if x in makers {
        assert LeftOf(x, x);
      } else {
        var q := Min(taker.qty, makers[0].qty);
        if makers[0].qty == q {
          RestIsLeft(ticker, makers[1..], taker.(qty := taker.qty - q));
        } else {
          assert LeftOf(makers[0].(qty := makers[0].qty - q), makers[0]);
        }
      }
    }
  }

  lemma ProcessKeepsGiven(b: Book, o: Order, orders: seq<Order>)
    requires Valid(b) && o in orders && AllGiven(b.bids + b.asks, orders)
    ensures var b' := Process(b, o).book; AllGiven(b'.bids + b'.asks, orders)
  {
    var makers, own := if o.side.Buy? then b.asks else b.bids, if o.side.Buy? then b.bids else b.asks;
    assert AllGiven(makers, orders) && AllGiven(own, orders);
    RestIsGiven(b.ticker, makers, o, orders);
    var left := Match(b.ticker, makers, o).taker;
    TakerKeepsIdentity(b.ticker, makers, o);
    InsertElements(own, left);
    assert LeftOf(left, o);
  }

  lemma CancelKeepsGiven(b: Book, id: nat, user: nat, orders: seq<Order>)
    requires AllGiven(b.bids + b.asks, orders)
    ensures var b' := Cancel(b, id, user).book; AllGiven(b'.bids + b'.asks, orders)
  {
    var b' := Cancel(b, id, user).book;
    assert forall x :: x in b'.bids + b'.asks ==> x in b.bids + b.asks;
  }

  /** One event: what rests was given, and what is filled was agreed to, if the event's order is among `orders`. */
  lemma HandleAgrees(p: Progress, e: Event, orders: seq<Order>)
    requires Valid(p.book) && AllGiven(p.book.bids + p.book.asks, orders) && AllAgreed(p.records, orders)
    requires e.NewOrder? ==> e.order in orders
    ensures var q := Handle(p, e); AllGiven(q.book.bids + q.book.asks, orders) && AllAgreed(q.records, orders)
  {
    match e
    case NewOrder(o) =>
      ProcessKeepsGiven(p.book, o, orders);
      ProcessAgrees(p.book, o, orders);
    case CancelOrder(_, id, user) =>
      CancelKeepsGiven(p.book, id, user, orders);
  }

  /** The orders of a stream of events. */
  function OrdersOf(events: seq<Event>): seq<Order> {
    if events == [] then []
    else OrdersOf(events[..|events| - 1]) + if events[|events| - 1].NewOrder? then [events[|events| - 1].order] else []
  }

  lemma {:induction false} OrdersAreGiven(events: seq<Event>)
    ensures forall o :: o in OrdersOf(events) <==> NewOrder(o) in events
  {
    if events != [] { OrdersAreGiven(events[..|events| - 1]); }
  }

  lemma {:induction false} StreamAgrees(ticker: nat, events: seq<Event>)
    requires Stream(ticker, events)
    ensures var p := HandleAll(Start(ticker), events);
            AllGiven(p.book.bids + p.book.asks, OrdersOf(events)) && AllAgreed(p.records, OrdersOf(events))
  {
    if events != [] {
      var front, e := events[..|events| - 1], events[|events| - 1];
      assert events == front + [e];
      StreamAgrees(ticker, front);
      StreamConserves(Volume(0), ticker, front);
      HandleLast(Start(ticker), front, e);
      var p := HandleAll(Start(ticker), front);
      GivenMore(p.book.bids + p.book.asks, p.records, OrdersOf(front), OrdersOf(events));
      HandleAgrees(p, e, OrdersOf(events));
    }
  }

  /** Over any stream with fresh ids, every fill is what two of its orders agreed to, so it respects both limits. */
  lemma StreamFillsAgree(ticker: nat, events: seq<Event>, r: MatchRecord)
    requires Stream(ticker, events) && r in HandleAll(Start(ticker), events).records
    ensures exists maker, taker :: NewOrder(maker) in events && NewOrder(taker) in events && Agreed(r, maker, taker)
  {
    StreamAgrees(ticker, events);
    OrdersAreGiven(events);
    assert AgreedBySome(r, OrdersOf(events));
  }
}
