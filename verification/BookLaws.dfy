/** What processing and cancelling keep, conserve and count. */
module BookLaws {
  import opened Orders
  import opened Sums
  import opened Measures
  import opened FlatBook

  function InBook(m: Measure, b: Book): nat {
    InOrders(m, b.bids) + InOrders(m, b.asks)
  }

  /** Measures that a trade moves from the two orders to the fill without loss. */
  predicate Conserved(m: Measure) {
    m.Claim? || m.Volume?
  }

  lemma MulSplit(p: nat, a: nat, q: nat)
    requires q <= a
    ensures p * (a - q) == p * a - p * q
  {
  }

  lemma TradeConserves(m: Measure, ticker: nat, maker: Order, taker: Order, q: nat)
    requires Conserved(m)
    requires maker.side == Opposite(taker.side) && maker.ticker == ticker == taker.ticker
    requires q <= maker.qty && q <= taker.qty
    ensures OrderWeight(m, maker) + OrderWeight(m, taker)
         == OrderWeight(m, maker.(qty := maker.qty - q)) + OrderWeight(m, taker.(qty := taker.qty - q))
          + RecordWeight(m, Trade(ticker, maker, taker, q))
  {
    MulSplit(Rate(maker.side, maker.price), maker.qty, q);
    MulSplit(Rate(taker.side, taker.price), taker.qty, q);
  }

  /** Matching only moves weight: from the two sides of each trade to its record. */
  lemma {:induction false} MatchConserves(m: Measure, ticker: nat, makers: seq<Order>, taker: Order)
    requires Conserved(m)
    requires GoodSide(ticker, Opposite(taker.side), makers) && taker.ticker == ticker
    ensures var out := Match(ticker, makers, taker);
            InOrders(m, makers) + OrderWeight(m, taker)
            == InOrders(m, out.rest) + OrderWeight(m, out.taker) + InRecords(m, out.records)
  {
    if makers != [] && taker.qty > 0 && Crosses(taker, makers[0].price) {
      GoodTail(ticker, Opposite(taker.side), makers);
      var q := Min(taker.qty, makers[0].qty);
      TradeConserves(m, ticker, makers[0], taker, q);
      var out := Match(ticker, makers, taker);
      if makers[0].qty == q {
        var left := taker.(qty := taker.qty - q);
        MatchConserves(m, ticker, makers[1..], left);
        assert out.records[1..] == Match(ticker, makers[1..], left).records;
      } else {
        SumSeqOne(Trade(ticker, makers[0], taker, q), OfRecord(m));
        assert out.rest[1..] == makers[1..];
      }
    }
  }

  lemma InsertWeight(m: Measure, orders: seq<Order>, o: Order)
    ensures InOrders(m, Insert(orders, o)) == InOrders(m, orders) + OrderWeight(m, o)
  {
    var k := Slot(o.side, Prices(orders), o.price);
    var s := Insert(orders, o);
    SumSeqRemove(s, k, OfOrder(m));
    assert RemoveAt(s, k) == orders;
  }

  /** The incoming order's claim ends up in the book or in the fills, never elsewhere. */
  lemma ProcessConserves(m: Measure, b: Book, o: Order)
    requires Conserved(m)
    requires Valid(b) && o.ticker == b.ticker
    ensures var p := Process(b, o);
            InBook(m, b) + OrderWeight(m, o) == InBook(m, p.book) + InRecords(m, p.records)
  {
    var makers := if o.side.Buy? then b.asks else b.bids;
    MatchConserves(m, b.ticker, makers, o);
    var left := Match(b.ticker, makers, o).taker;
    TakerKeepsIdentity(b.ticker, makers, o);
    InsertWeight(m, if o.side.Buy? then b.bids else b.asks, left);
  }

  lemma {:induction false} TakerKeepsIdentity(ticker: nat, makers: seq<Order>, taker: Order)
    ensures var t := Match(ticker, makers, taker).taker;
            t == taker.(qty := t.qty) && t.qty <= taker.qty
  {
    if makers != [] && taker.qty > 0 && Crosses(taker, makers[0].price) {
      TakerKeepsIdentity(ticker, makers[1..], taker.(qty := taker.qty - Min(taker.qty, makers[0].qty)));
    }
  }

  /** A match never creates an order id. */
  lemma {:induction false} MatchKeepsIds(id: nat, ticker: nat, makers: seq<Order>, taker: Order)
    ensures InOrders(Ident(id), Match(ticker, makers, taker).rest) <= InOrders(Ident(id), makers)
  {
    if makers != [] && taker.qty > 0 && Crosses(taker, makers[0].price) {
      var q := Min(taker.qty, makers[0].qty);
      var out := Match(ticker, makers, taker);
      if makers[0].qty == q {
        MatchKeepsIds(id, ticker, makers[1..], taker.(qty := taker.qty - q));
      } else {
        assert out.rest[1..] == makers[1..];
      }
    }
  }

  lemma ProcessKeepsIds(id: nat, b: Book, o: Order)
    ensures InBook(Ident(id), Process(b, o).book) <= InBook(Ident(id), b) + OrderWeight(Ident(id), o)
  {
    var makers := if o.side.Buy? then b.asks else b.bids;
    MatchKeepsIds(id, b.ticker, makers, o);
    TakerKeepsIdentity(b.ticker, makers, o);
    InsertWeight(Ident(id), if o.side.Buy? then b.bids else b.asks, Match(b.ticker, makers, o).taker);
  }

  // ------------------------------------------------------------- distinct ids

  lemma DistinctIsCount(orders: seq<Order>)
    ensures DistinctIds(orders) <==> forall id :: InOrders(Ident(id), orders) <= 1
  {
    if DistinctIds(orders) {
      forall id ensures InOrders(Ident(id), orders) <= 1 { DistinctCounts(orders, id); }
    }
    if forall id :: InOrders(Ident(id), orders) <= 1 {
      forall i, j | 0 <= i < j < |orders| ensures orders[i].id != orders[j].id {
        var m := Ident(orders[i].id);
        assert InOrders(m, orders) <= 1;
        SumSeqTwo(orders, i, j, OfOrder(m));
      }
    }
  }

  lemma {:induction false} DistinctCounts(orders: seq<Order>, id: nat)
    requires DistinctIds(orders)
    ensures InOrders(Ident(id), orders) <= 1
    ensures (forall o :: o in orders ==> o.id != id) ==> InOrders(Ident(id), orders) == 0
  {
    if orders != [] {
      DistinctCounts(orders[1..], id);
      assert orders[0] in orders && forall o :: o in orders[1..] ==> o in orders;
    }
  }

  lemma BookCount(b: Book, id: nat)
    ensures InOrders(Ident(id), b.bids + b.asks) == InBook(Ident(id), b)
  {
    SumSeqConcat(b.bids, b.asks, OfOrder(Ident(id)));
  }

  /** A book keeps its invariant under every incoming order with a fresh id. */
  lemma ProcessKeepsValid(b: Book, o: Order)
    requires Valid(b) && o.ticker == b.ticker && !HasId(b, o.id)
    ensures Valid(Process(b, o).book)
  {
    var makers := if o.side.Buy? then b.asks else b.bids;
    var m := Match(b.ticker, makers, o);
    MatchKeepsSide(b.ticker, makers, o);
    RestDoesNotCross(b.ticker, makers, o);
    TakerKeepsIdentity(b.ticker, makers, o);
    if m.taker.qty > 0 {
      InsertKeepsSide(b.ticker, if o.side.Buy? then b.bids else b.asks, m.taker);
    }
    ProcessKeepsUncrossed(b, o);
    ProcessKeepsDistinct(b, o);
  }

  lemma ProcessKeepsSingle(b: Book, o: Order, id: nat)
    requires Valid(b) && o.ticker == b.ticker && !HasId(b, o.id)
    ensures var b' := Process(b, o).book; InOrders(Ident(id), b'.bids + b'.asks) <= 1
  {
    ProcessKeepsIds(id, b, o);
    BookCount(b, id);
    BookCount(Process(b, o).book, id);
    DistinctCounts(b.bids + b.asks, id);
  }

  lemma ProcessKeepsDistinct(b: Book, o: Order)
    requires Valid(b) && o.ticker == b.ticker && !HasId(b, o.id)
    ensures var b' := Process(b, o).book; DistinctIds(b'.bids + b'.asks)
  {
    var b' := Process(b, o).book;
    forall id ensures InOrders(Ident(id), b'.bids + b'.asks) <= 1 { ProcessKeepsSingle(b, o, id); }
    DistinctIsCount(b'.bids + b'.asks);
  }

  lemma ProcessKeepsUncrossed(b: Book, o: Order)
    requires Valid(b)
    ensures Uncrossed(Process(b, o).book)
  {
    var makers := if o.side.Buy? then b.asks else b.bids;
    var m := Match(b.ticker, makers, o);
    RestDoesNotCross(b.ticker, makers, o);
    RestIsSuffix(b.ticker, makers, o);
    TakerKeepsIdentity(b.ticker, makers, o);
    InsertElements(if o.side.Buy? then b.bids else b.asks, m.taker);
    RestPrices(b.ticker, makers, o);
  }

  lemma RestPrices(ticker: nat, makers: seq<Order>, taker: Order)
    requires GoodSide(ticker, Opposite(taker.side), makers)
    ensures forall r :: r in Match(ticker, makers, taker).rest ==> exists x :: x in makers && x.price == r.price
  {
    var rest := Match(ticker, makers, taker).rest;
    RestIsSuffix(ticker, makers, taker);
    forall r | r in rest ensures exists x :: x in makers && x.price == r.price {
      var i :| 0 <= i < |rest| && rest[i] == r;
      assert makers[|makers| - |rest| + i] in makers;
    }
  }

  /** ... and under every cancel request. */
  lemma CancelKeepsValid(b: Book, id: nat, user: nat)
    requires Valid(b)
    ensures Valid(Cancel(b, id, user).book)
  {
    var i := Find(b.bids, CancelKey(id), user);
    var j := Find(b.asks, CancelKey(id), user);
    if i < |b.bids| {
      RemoveBidKeepsValid(b, i);
    } else if j < |b.asks| {
      RemoveAskKeepsValid(b, j);
    }
  }

  lemma RemoveBidKeepsValid(b: Book, i: nat)
    requires Valid(b) && i < |b.bids|
    ensures Valid(b.(bids := RemoveAt(b.bids, i)))
  {
    RemoveKeepsSide(b.ticker, Buy, b.bids, i);
    assert RemoveAt(b.bids, i) + b.asks == RemoveAt(b.bids + b.asks, i);
    RemoveKeepsDistinct(b.bids + b.asks, i);
  }

  lemma RemoveAskKeepsValid(b: Book, j: nat)
    requires Valid(b) && j < |b.asks|
    ensures Valid(b.(asks := RemoveAt(b.asks, j)))
  {
    RemoveKeepsSide(b.ticker, Sell, b.asks, j);
    assert b.bids + RemoveAt(b.asks, j) == RemoveAt(b.bids + b.asks, |b.bids| + j);
    RemoveKeepsDistinct(b.bids + b.asks, |b.bids| + j);
  }

  lemma RemoveKeepsSide(ticker: nat, side: Side, orders: seq<Order>, i: nat)
    requires GoodSide(ticker, side, orders) && i < |orders|
    ensures GoodSide(ticker, side, RemoveAt(orders, i))
    ensures forall o :: o in RemoveAt(orders, i) ==> o in orders
  {
    assert forall o :: o in RemoveAt(orders, i) ==> o in orders;
    var s := RemoveAt(orders, i);
    assert forall k :: 0 <= k < |s| ==> s[k] == orders[if k < i then k else k + 1];
  }

  lemma RemoveKeepsDistinct(orders: seq<Order>, i: nat)
    requires DistinctIds(orders) && i < |orders|
    ensures DistinctIds(RemoveAt(orders, i))
  {
    var s := RemoveAt(orders, i);
    assert forall k :: 0 <= k < |s| ==> s[k] == orders[if k < i then k else k + 1];
  }

  // ------------------------------------------------------------------ cancel

  function ToCancelRecord(o: Order): CancelRecord {
    CancelRecord(o.ticker, o.id, o.user, o.side, o.price, o.qty)
  }

  /** Whatever a cancel takes out of the book, its record carries away. */
  lemma CancelConserves(m: Measure, b: Book, id: nat, user: nat)
    ensures var c := Cancel(b, id, user);
            && (c.order.None? ==> c.book == b)
            && (c.order.Some? ==>
                  && c.order.value in b.bids + b.asks
                  && InBook(m, b) == InBook(m, c.book) + OrderWeight(m, c.order.value))
  {
    var i := Find(b.bids, CancelKey(id), user);
    var j := Find(b.asks, CancelKey(id), user);
    if i < |b.bids| { SumSeqRemove(b.bids, i, OfOrder(m)); }
    else if j < |b.asks| { SumSeqRemove(b.asks, j, OfOrder(m)); }
  }

  /** A cancel succeeds exactly when the user rests an order under the narrowed id. */
  lemma CancelFinds(b: Book, id: nat, user: nat)
    ensures Cancel(b, id, user).order.Some? <==>
            exists o :: o in b.bids + b.asks && o.id == id % TWO32 && o.user == user
    ensures Cancel(b, id, user).order.Some? ==>
            var o := Cancel(b, id, user).order.value;
            o in b.bids + b.asks && o.id == id % TWO32 && o.user == user
  {
  }

  /** A user can cancel a resting order by its own id if and only if that id fits 32 bits. */
  lemma CancelReaches(b: Book, o: Order)
    requires Valid(b) && o in b.bids + b.asks
    ensures Cancel(b, o.id, o.user).order == Some(o) <==> o.id < TWO32
  {
    CancelFinds(b, o.id, o.user);
    if o.id < TWO32 {
      SameIdSameOrder(b.bids + b.asks, o, Cancel(b, o.id, o.user).order.value);
    }
  }

  lemma SameIdSameOrder(orders: seq<Order>, a: Order, b: Order)
    requires DistinctIds(orders) && a in orders && b in orders && a.id == b.id
    ensures a == b
  {
  }

  // --------------------------------------------------------- number of fills

  function Size(b: Book): nat {
    |b.bids| + |b.asks|
  }

  /** Each fill uses up an order: at most one fill more than orders that left the book. */
  lemma ProcessCountsFills(b: Book, o: Order)
    requires Valid(b)
    ensures var p := Process(b, o); |p.records| + Size(p.book) <= Size(b) + 1
  {
    var makers := if o.side.Buy? then b.asks else b.bids;
    RestIsSurvivors(b.ticker, makers, o);
    PartialFillExhausts(b.ticker, makers, o);
  }

  /** A resting order left partially filled means that the incoming order is used up. */
  lemma {:induction false} PartialFillExhausts(ticker: nat, makers: seq<Order>, taker: Order)
    ensures var m := Match(ticker, makers, taker);
            |m.records| + |m.rest| > |makers| ==> m.taker.qty == 0 && |m.records| + |m.rest| == |makers| + 1
  {
    if makers != [] && taker.qty > 0 && Crosses(taker, makers[0].price) {
      PartialFillExhausts(ticker, makers[1..], taker.(qty := taker.qty - Min(taker.qty, makers[0].qty)));
    }
  }

  // -------------------------------------------------------- range of records

  lemma MulMono(p: nat, a: nat, b: nat)
    requires a <= b
    ensures p * a <= p * b
  {
  }

  /** Sound orders only ever produce sound fills: in range, and no worse than the buyer's limit. */
  lemma {:induction false} MatchKeepsSound(users: set<nat>, ticker: nat, makers: seq<Order>, taker: Order)
    requires GoodSide(ticker, Opposite(taker.side), makers)
    requires InOrders(Broken(users), makers) == 0 && SoundOrder(users, taker)
    ensures var m := Match(ticker, makers, taker);
            && InOrders(Broken(users), m.rest) == 0
            && InRecords(Broken(users), m.records) == 0
            && SoundOrder(users, m.taker)
  {
    if makers != [] && taker.qty > 0 && Crosses(taker, makers[0].price) {
      GoodTail(ticker, Opposite(taker.side), makers);
      var q := Min(taker.qty, makers[0].qty);
      var left := taker.(qty := taker.qty - q);
      var out := Match(ticker, makers, taker);
      SumSeqBounds(makers[1..], OfOrder(Broken(users)));
      assert SoundOrder(users, makers[0]);
      MulMono(taker.price, q, taker.qty);
      MulMono(taker.price, taker.qty - q, taker.qty);
      MulMono(makers[0].price, q, makers[0].qty);
      MulMono(makers[0].price, makers[0].qty - q, makers[0].qty);
      assert SoundRecord(users, Trade(ticker, makers[0], taker, q));
      if makers[0].qty == q {
        MatchKeepsSound(users, ticker, makers[1..], left);
        assert out.records[1..] == Match(ticker, makers[1..], left).records;
      } else {
        SumSeqOne(Trade(ticker, makers[0], taker, q), OfRecord(Broken(users)));
        assert out.rest[1..] == makers[1..];
      }
    }
  }

  lemma ProcessKeepsSound(users: set<nat>, b: Book, o: Order)
    requires Valid(b) && InBook(Broken(users), b) == 0 && SoundOrder(users, o)
    ensures InBook(Broken(users), Process(b, o).book) == 0
    ensures InRecords(Broken(users), Process(b, o).records) == 0
  {
    var makers := if o.side.Buy? then b.asks else b.bids;
    MatchKeepsSound(users, b.ticker, makers, o);
    InsertWeight(Broken(users), if o.side.Buy? then b.bids else b.asks, Match(b.ticker, makers, o).taker);
  }
}
