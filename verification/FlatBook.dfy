/**
 The reference matcher: one priority-ordered sequence of resting orders a side,
 best price first and oldest first within a price.
 */
module FlatBook {
  import opened Orders
  import opened Sums

  datatype Book = Book(ticker: nat, bids: seq<Order>, asks: seq<Order>)

  function Empty(ticker: nat): Book {
    Book(ticker, [], [])
  }

  function Opposite(side: Side): Side {
    if side.Buy? then Sell else Buy
  }

  /** Price p has strict priority over price q among resting orders of a side. */
  predicate Better(side: Side, p: nat, q: nat) {
    if side.Buy? then p > q else p < q
  }

  /** An incoming order may trade at the price of a resting order. */
  predicate Crosses(taker: Order, price: nat) {
    if taker.side.Buy? then price <= taker.price else taker.price <= price
  }

  function Min(a: nat, b: nat): nat {
    if a <= b then a else b
  }

  function Trade(ticker: nat, maker: Order, taker: Order, qty: nat): MatchRecord {
    if taker.side.Buy? then
      MatchRecord(ticker, maker.id, taker.id, taker.user, maker.user, taker.price, maker.price, qty)
    else
      MatchRecord(ticker, maker.id, taker.id, maker.user, taker.user, maker.price, maker.price, qty)
  }

  datatype Outcome = Outcome(records: seq<MatchRecord>, rest: seq<Order>, taker: Order)

  function Match(ticker: nat, makers: seq<Order>, taker: Order): Outcome {
    if makers == [] || taker.qty == 0 || !Crosses(taker, makers[0].price) then
      Outcome([], makers, taker)
    else
      var q := Min(taker.qty, makers[0].qty);
      var record := Trade(ticker, makers[0], taker, q);
      var left := taker.(qty := taker.qty - q);
      if makers[0].qty == q then
        var m := Match(ticker, makers[1..], left);
        Outcome([record] + m.records, m.rest, m.taker)
      else
        Outcome([record], [makers[0].(qty := makers[0].qty - q)] + makers[1..], left)
  }

  /** How many resting prices keep priority over a newcomer at price p. */
  function Slot(side: Side, prices: seq<nat>, p: nat): (k: nat)
    ensures k <= |prices|
  {
    if prices == [] || Better(side, p, prices[0]) then 0 else 1 + Slot(side, prices[1..], p)
  }

  function Prices(orders: seq<Order>): (ps: seq<nat>)
    ensures |ps| == |orders|
    ensures forall i :: 0 <= i < |orders| ==> ps[i] == orders[i].price
  {
    seq(|orders|, i requires 0 <= i < |orders| => orders[i].price)
  }

  function Insert(orders: seq<Order>, o: Order): seq<Order> {
    var k := Slot(o.side, Prices(orders), o.price);
    orders[..k] + [o] + orders[k..]
  }

  datatype Processed = Processed(book: Book, records: seq<MatchRecord>)

  function Process(b: Book, o: Order): Processed {
    if o.side.Buy? then
      var m := Match(b.ticker, b.asks, o);
      Processed(Book(b.ticker, if m.taker.qty > 0 then Insert(b.bids, m.taker) else b.bids, m.rest), m.records)
    else
      var m := Match(b.ticker, b.bids, o);
      Processed(Book(b.ticker, m.rest, if m.taker.qty > 0 then Insert(b.asks, m.taker) else b.asks), m.records)
  }

  /** The engine looks orders up by the low 32 bits of the requested id. */
  function CancelKey(id: nat): nat {
    id % TWO32
  }

  /** The position of the order of `user` with this id, or the length if there is none. */
  function Find(orders: seq<Order>, id: nat, user: nat): (k: nat)
    ensures k <= |orders|
    ensures k < |orders| ==> orders[k].id == id && orders[k].user == user
    ensures k == |orders| ==> forall o :: o in orders ==> !(o.id == id && o.user == user)
  {
    if orders == [] then 0
    else if orders[0].id == id && orders[0].user == user then 0
    else
      var k := Find(orders[1..], id, user);
      1 + k
  }

  datatype Cancelled = Cancelled(book: Book, order: Option<Order>)

  function Cancel(b: Book, id: nat, user: nat): Cancelled {
    var key := CancelKey(id);
    var i := Find(b.bids, key, user);
    var j := Find(b.asks, key, user);
    if i < |b.bids| then Cancelled(b.(bids := RemoveAt(b.bids, i)), Some(b.bids[i]))
    else if j < |b.asks| then Cancelled(b.(asks := RemoveAt(b.asks, j)), Some(b.asks[j]))
    else Cancelled(b, None)
  }

  // ---------------------------------------------------------------- validity

  predicate Sorted(side: Side, orders: seq<Order>) {
    forall i, j :: 0 <= i < j < |orders| ==> !Better(side, orders[j].price, orders[i].price)
  }

  predicate GoodSide(ticker: nat, side: Side, orders: seq<Order>) {
    && Sorted(side, orders)
    && forall o :: o in orders ==> o.side == side && o.ticker == ticker && o.qty > 0
  }

  predicate DistinctIds(orders: seq<Order>) {
    forall i, j :: 0 <= i < j < |orders| ==> orders[i].id != orders[j].id
  }

  /** The best bid, hence every bid, is strictly below every ask. */
  predicate Uncrossed(b: Book) {
    forall x, y :: x in b.bids && y in b.asks ==> x.price < y.price
  }

  predicate Valid(b: Book) {
    && GoodSide(b.ticker, Buy, b.bids)
    && GoodSide(b.ticker, Sell, b.asks)
    && Uncrossed(b)
    && DistinctIds(b.bids + b.asks)
  }

  predicate HasId(b: Book, id: nat) {
    exists o :: o in b.bids + b.asks && o.id == id
  }

  /**
   A fill is what its two orders agreed to: at the price of the resting order, which the
   incoming order accepts, between the users of the two, and for no more than either offers.
   */
  predicate Agreed(r: MatchRecord, maker: Order, taker: Order) {
    && r.ticker == maker.ticker && r.maker == maker.id && r.taker == taker.id
    && r.price == maker.price && 0 < r.qty <= maker.qty && r.qty <= taker.qty
    && (taker.side == Buy ==>
          && maker.side == Sell && maker.price <= taker.price
          && r.buyer == taker.user && r.seller == maker.user && r.expected == taker.price)
    && (taker.side == Sell ==>
          && maker.side == Buy && taker.price <= maker.price
          && r.buyer == maker.user && r.seller == taker.user && r.expected == maker.price)
  }

  // --------------------------------------------- what a match does, in closed form

  /** The quantity resting ahead of position j. */
  function Ahead(makers: seq<Order>, j: nat): nat
    requires j <= |makers|
  {
    if j == 0 then 0 else Ahead(makers, j - 1) + makers[j - 1].qty
  }

  /** Priority allocation: what position j gets once everyone ahead of it is served. */
  function Share(makers: seq<Order>, taker: Order, j: nat): nat
    requires j < |makers|
  {
    if if taker.side == Buy then taker.price < makers[j].price else makers[j].price < taker.price then 0
    else if taker.qty <= Ahead(makers, j) then 0
    else if makers[j].qty <= taker.qty - Ahead(makers, j) then makers[j].qty
    else taker.qty - Ahead(makers, j)
  }

  lemma {:induction false} AheadTail(makers: seq<Order>, j: nat)
    requires 0 < j <= |makers|
    ensures Ahead(makers, j) == makers[0].qty + Ahead(makers[1..], j - 1)
  {
    if j > 1 {
      AheadTail(makers, j - 1);
      assert makers[1..][j - 2] == makers[j - 1];
    }
  }

  lemma {:induction false} AheadGrows(makers: seq<Order>, i: nat, j: nat)
    requires i <= j <= |makers|
    ensures Ahead(makers, i) <= Ahead(makers, j)
  {
    if i < j { AheadGrows(makers, i, j - 1); }
  }

  lemma ShareTail(makers: seq<Order>, taker: Order, j: nat)
    requires 0 < j < |makers|
    requires makers[0].qty <= taker.qty
    ensures Share(makers, taker, j) == Share(makers[1..], taker.(qty := taker.qty - makers[0].qty), j - 1)
  {
    AheadTail(makers, j);
    assert makers[1..][j - 1] == makers[j];
  }

  lemma SharesTail(makers: seq<Order>, taker: Order)
    requires makers != [] && makers[0].qty <= taker.qty
    ensures var left := taker.(qty := taker.qty - makers[0].qty);
            forall j :: 0 < j < |makers| ==> Share(makers, taker, j) == Share(makers[1..], left, j - 1)
  {
    forall j | 0 < j < |makers|
      ensures Share(makers, taker, j) == Share(makers[1..], taker.(qty := taker.qty - makers[0].qty), j - 1)
    {
      ShareTail(makers, taker, j);
    }
  }

  lemma GoodTail(ticker: nat, side: Side, orders: seq<Order>)
    requires GoodSide(ticker, side, orders) && orders != []
    ensures GoodSide(ticker, side, orders[1..])
    ensures orders[0].side == side && orders[0].ticker == ticker && orders[0].qty > 0
    ensures forall o :: o in orders ==> !Better(side, o.price, orders[0].price)
  {
    assert orders[0] in orders;
    assert forall o :: o in orders[1..] ==> o in orders;
  }

  /** Nothing behind an order that does not cross can cross. */
  lemma NoCrossBehind(ticker: nat, makers: seq<Order>, taker: Order)
    requires GoodSide(ticker, Opposite(taker.side), makers)
    requires makers != [] && !Crosses(taker, makers[0].price)
    ensures forall o :: o in makers ==> !Crosses(taker, o.price)
  {
    GoodTail(ticker, Opposite(taker.side), makers);
  }

  /** The j-th fill goes to the j-th resting order and is its non-zero share. */
  lemma {:induction false} RecordsAreShares(ticker: nat, makers: seq<Order>, taker: Order)
    requires GoodSide(ticker, Opposite(taker.side), makers)
    ensures var m := Match(ticker, makers, taker);
            && |m.records| <= |makers|
            && forall j :: 0 <= j < |m.records| ==>
                 Agreed(m.records[j], makers[j], taker) && m.records[j].qty == Share(makers, taker, j)
  {
    if makers != [] && taker.qty > 0 && Crosses(taker, makers[0].price) {
      GoodTail(ticker, Opposite(taker.side), makers);
      FirstShare(ticker, makers, taker);
      if makers[0].qty <= taker.qty {
        RecordsAreShares(ticker, makers[1..], taker.(qty := taker.qty - makers[0].qty));
        RecordsTail(ticker, makers, taker);
      }
    }
  }

  /** The first order hit gets what both offer, on the terms of both. */
  lemma FirstShare(ticker: nat, makers: seq<Order>, taker: Order)
    requires makers != [] && makers[0].side == Opposite(taker.side) && makers[0].ticker == ticker && makers[0].qty > 0
    requires taker.qty > 0 && Crosses(taker, makers[0].price)
    ensures var q := Min(taker.qty, makers[0].qty);
            Share(makers, taker, 0) == q && Agreed(Trade(ticker, makers[0], taker, q), makers[0], taker)
  {
    assert Ahead(makers, 0) == 0;
  }

  /** Behind an order that is used up, the fills are those of what is left of the incoming order. */
  lemma RecordsTail(ticker: nat, makers: seq<Order>, taker: Order)
    requires makers != [] && 0 < makers[0].qty <= taker.qty && Crosses(taker, makers[0].price)
    requires var left := taker.(qty := taker.qty - makers[0].qty);
             var m := Match(ticker, makers[1..], left);
             && |m.records| <= |makers| - 1
             && forall j :: 0 <= j < |m.records| ==>
                  Agreed(m.records[j], makers[1..][j], left) && m.records[j].qty == Share(makers[1..], left, j)
    ensures var m := Match(ticker, makers, taker);
            forall j :: 0 < j < |m.records| ==>
              Agreed(m.records[j], makers[j], taker) && m.records[j].qty == Share(makers, taker, j)
  {
    var left := taker.(qty := taker.qty - makers[0].qty);
    var m, m' := Match(ticker, makers, taker), Match(ticker, makers[1..], left);
    assert m.records == [m.records[0]] + m'.records;
    SharesTail(makers, taker);
    forall j | 0 < j < |m.records|
      ensures Agreed(m.records[j], makers[j], taker) && m.records[j].qty == Share(makers, taker, j)
    {
      assert m.records[j] == m'.records[j - 1] && makers[j] == makers[1..][j - 1];
      AgreedMore(m.records[j], makers[j], left, taker);
    }
  }

  /** What an order agrees to, it agrees to with more to trade. */
  lemma AgreedMore(r: MatchRecord, maker: Order, left: Order, taker: Order)
    requires Agreed(r, maker, left) && left == taker.(qty := left.qty) && left.qty <= taker.qty
    ensures Agreed(r, maker, taker)
  {
  }

  /** All but the last of the first `n` resting orders are filled completely, and no order behind them gets anything. */
  predicate Served(makers: seq<Order>, taker: Order, n: nat) {
    && (forall j :: n <= j < |makers| ==> Share(makers, taker, j) == 0)
    && (forall j :: 0 <= j < n - 1 && j < |makers| ==> Share(makers, taker, j) == makers[j].qty)
  }

  lemma ServedTail(makers: seq<Order>, taker: Order, n: nat)
    requires makers != [] && makers[0].qty <= taker.qty && Crosses(taker, makers[0].price)
    requires Served(makers[1..], taker.(qty := taker.qty - makers[0].qty), n)
    ensures Served(makers, taker, n + 1)
  {
    var left := taker.(qty := taker.qty - makers[0].qty);
    SharesTail(makers, taker);
    assert Ahead(makers, 0) == 0;
    forall j | 0 < j < |makers|
      ensures n + 1 <= j ==> Share(makers, taker, j) == 0
      ensures j < n ==> Share(makers, taker, j) == makers[j].qty
    {
      assert Share(makers, taker, j) == Share(makers[1..], left, j - 1);
    }
  }

  lemma NothingShared(ticker: nat, makers: seq<Order>, taker: Order)
    requires GoodSide(ticker, Opposite(taker.side), makers) && makers != [] && !Crosses(taker, makers[0].price)
    ensures Served(makers, taker, 0)
  {
    NoCrossBehind(ticker, makers, taker);
    forall j | 0 <= j < |makers| ensures Share(makers, taker, j) == 0 {
      assert makers[j] in makers;
    }
  }

  /** Every order hit except the last is filled completely, and nobody behind the last is served. */
  lemma {:induction false} OthersGetNothing(ticker: nat, makers: seq<Order>, taker: Order)
    requires GoodSide(ticker, Opposite(taker.side), makers)
    ensures Served(makers, taker, |Match(ticker, makers, taker).records|)
  {
    if makers == [] || taker.qty == 0 {
    } else if !Crosses(taker, makers[0].price) {
      NothingShared(ticker, makers, taker);
    } else {
      GoodTail(ticker, Opposite(taker.side), makers);
      if makers[0].qty <= taker.qty {
        var left := taker.(qty := taker.qty - makers[0].qty);
        var n := |Match(ticker, makers[1..], left).records|;
        OthersGetNothing(ticker, makers[1..], left);
        ServedTail(makers, taker, n);
        assert |Match(ticker, makers, taker).records| == n + 1;
      } else {
        FirstTakesAll(makers, taker);
        assert Match(ticker, makers, taker).records[1..] == [];
      }
    }
  }

  lemma FirstTakesAll(makers: seq<Order>, taker: Order)
    requires makers != [] && taker.qty <= makers[0].qty
    ensures forall j :: 0 < j < |makers| ==> Share(makers, taker, j) == 0
  {
    forall j | 0 < j < |makers| ensures Share(makers, taker, j) == 0 {
      AheadGrows(makers, 1, j);
      assert Ahead(makers, 1) == makers[0].qty;
    }
  }

  /** What is left: the last order hit keeps its remainder in front, and the rest keep their place. */
  function Survivors(makers: seq<Order>, taker: Order, n: nat): seq<Order>
    requires n <= |makers|
  {
    if n > 0 && Share(makers, taker, n - 1) < makers[n - 1].qty then
      [makers[n - 1].(qty := makers[n - 1].qty - Share(makers, taker, n - 1))] + makers[n..]
    else
      makers[n..]
  }

  /** A maker that is used up takes no part in what survives. */
  lemma SurvivorsTail(makers: seq<Order>, taker: Order, n: nat)
    requires 1 <= n <= |makers| && Crosses(taker, makers[0].price) && 0 < taker.qty && makers[0].qty <= taker.qty
    ensures Survivors(makers, taker, n) == Survivors(makers[1..], taker.(qty := taker.qty - makers[0].qty), n - 1)
  {
    assert Ahead(makers, 0) == 0;
    SharesTail(makers, taker);
    assert makers[1..][n - 1..] == makers[n..];
    if n > 1 { assert makers[1..][n - 2] == makers[n - 1]; }
  }

  lemma {:induction false} RestIsSurvivors(ticker: nat, makers: seq<Order>, taker: Order)
    requires GoodSide(ticker, Opposite(taker.side), makers)
    ensures var m := Match(ticker, makers, taker);
            |m.records| <= |makers| && m.rest == Survivors(makers, taker, |m.records|)
  {
    if makers != [] && taker.qty > 0 && Crosses(taker, makers[0].price) {
      GoodTail(ticker, Opposite(taker.side), makers);
      if makers[0].qty <= taker.qty {
        var left := taker.(qty := taker.qty - makers[0].qty);
        var n := |Match(ticker, makers[1..], left).records|;
        RestIsSurvivors(ticker, makers[1..], left);
        assert |Match(ticker, makers, taker).records| == n + 1;
        SurvivorsTail(makers, taker, n + 1);
      } else {
        FirstShare(ticker, makers, taker);
        assert Match(ticker, makers, taker).records[1..] == [];
      }
    }
  }

  /**
   The fills are exactly the non-zero shares of the priority allocation, in
   priority order, each as its two orders agreed; makers hit form a prefix, all but the last are filled
   completely, and everyone behind keeps place and quantity.
   */
  lemma MatchIsPriorityAllocation(ticker: nat, makers: seq<Order>, taker: Order)
    requires GoodSide(ticker, Opposite(taker.side), makers)
    ensures var m := Match(ticker, makers, taker);
            var n := |m.records|;
            && n <= |makers|
            && (forall j :: 0 <= j < |makers| ==> (j < n <==> Share(makers, taker, j) > 0))
            && (forall j :: 0 <= j < n ==>
                  Agreed(m.records[j], makers[j], taker) && m.records[j].qty == Share(makers, taker, j))
            && (forall j :: 0 <= j < n - 1 ==> Share(makers, taker, j) == makers[j].qty)
            && m.rest == Survivors(makers, taker, n)
  {
    RecordsAreShares(ticker, makers, taker);
    OthersGetNothing(ticker, makers, taker);
    RestIsSurvivors(ticker, makers, taker);
  }

  function TradedOf(): MatchRecord -> int { (r: MatchRecord) => r.qty }

  /** Everything on the other side that the incoming order could trade with. */
  function Crossable(taker: Order): Order -> int {
    (o: Order) =>
      if taker.side == Buy && o.price <= taker.price then o.qty
      else if taker.side == Sell && taker.price <= o.price then o.qty
      else 0
  }

  lemma {:induction false} NothingCrosses(ticker: nat, makers: seq<Order>, taker: Order)
    requires forall o :: o in makers ==> !Crosses(taker, o.price)
    ensures SumSeq(makers, Crossable(taker)) == 0
  {
    if makers != [] {
      assert makers[0] in makers;
      NothingCrosses(ticker, makers[1..], taker);
    }
  }

  /** Matching is maximal: it trades the smaller of what is asked and what crosses. */
  lemma {:induction false} MatchIsMaximal(ticker: nat, makers: seq<Order>, taker: Order)
    requires GoodSide(ticker, Opposite(taker.side), makers)
    ensures var m := Match(ticker, makers, taker);
            var traded := SumSeq(m.records, TradedOf());
            var crossable := SumSeq(makers, Crossable(taker));
            && 0 <= traded <= taker.qty && traded <= crossable
            && (traded == taker.qty || traded == crossable)
            && m.taker == taker.(qty := taker.qty - traded)
  {
    SumSeqBounds(makers, Crossable(taker));
    if makers == [] || taker.qty == 0 {
    } else if !Crosses(taker, makers[0].price) {
      NoCrossBehind(ticker, makers, taker);
      NothingCrosses(ticker, makers, taker);
    } else {
      GoodTail(ticker, Opposite(taker.side), makers);
      var m := Match(ticker, makers, taker);
      SumSeqBounds(makers[1..], Crossable(taker));
      if makers[0].qty <= taker.qty {
        var left := taker.(qty := taker.qty - makers[0].qty);
        MatchIsMaximal(ticker, makers[1..], left);
        SameCrossable(makers[1..], taker, left);
        assert m.records[1..] == Match(ticker, makers[1..], left).records;
        assert m.records[0].qty == makers[0].qty == Crossable(taker)(makers[0]);
      } else {
        assert m.records[1..] == [];
      }
    }
  }

  lemma {:induction false} SameCrossable(makers: seq<Order>, a: Order, b: Order)
    requires a.side == b.side && a.price == b.price
    ensures SumSeq(makers, Crossable(a)) == SumSeq(makers, Crossable(b))
  {
    if makers != [] { SameCrossable(makers[1..], a, b); }
  }

  // ------------------------------------------------------- validity is preserved

  /** The same orders as the last of `makers`, up to quantities, which are positive. */
  predicate SuffixOf(makers: seq<Order>, rest: seq<Order>) {
    && |rest| <= |makers|
    && forall i :: 0 <= i < |rest| ==>
         rest[i].qty > 0 && rest[i] == makers[|makers| - |rest| + i].(qty := rest[i].qty)
  }

  lemma SurvivorsAreSuffix(makers: seq<Order>, taker: Order, n: nat)
    requires n <= |makers| && forall o :: o in makers ==> o.qty > 0
    ensures SuffixOf(makers, Survivors(makers, taker, n))
  {
    var rest := Survivors(makers, taker, n);
    forall i | 0 <= i < |rest|
      ensures rest[i].qty > 0 && rest[i] == makers[|makers| - |rest| + i].(qty := rest[i].qty)
    {
      var j := |makers| - |rest| + i;
      if |rest| == |makers| - n {
        assert rest[i] == makers[n..][i] == makers[j];
      } else if i > 0 {
        assert rest[i] == makers[n..][i - 1] == makers[j];
      }
      assert makers[j] in makers;
    }
  }

  /** What rests after a match is a suffix of what rested before, up to quantities. */
  lemma RestIsSuffix(ticker: nat, makers: seq<Order>, taker: Order)
    requires GoodSide(ticker, Opposite(taker.side), makers)
    ensures SuffixOf(makers, Match(ticker, makers, taker).rest)
  {
    RestIsSurvivors(ticker, makers, taker);
    SurvivorsAreSuffix(makers, taker, |Match(ticker, makers, taker).records|);
  }

  /** If the incoming order is not exhausted, nothing is left within its limit. */
  lemma {:induction false} RestDoesNotCross(ticker: nat, makers: seq<Order>, taker: Order)
    requires GoodSide(ticker, Opposite(taker.side), makers)
    ensures var m := Match(ticker, makers, taker);
            m.taker.qty > 0 ==>
              forall o :: o in m.rest ==> if taker.side == Buy then taker.price < o.price else o.price < taker.price
  {
    if makers != [] {
      GoodTail(ticker, Opposite(taker.side), makers);
      if !Crosses(taker, makers[0].price) {
        NoCrossBehind(ticker, makers, taker);
      } else if makers[0].qty <= taker.qty {
        RestDoesNotCross(ticker, makers[1..], taker.(qty := taker.qty - makers[0].qty));
      }
    }
  }

  lemma MatchKeepsSide(ticker: nat, makers: seq<Order>, taker: Order)
    requires GoodSide(ticker, Opposite(taker.side), makers)
    ensures GoodSide(ticker, Opposite(taker.side), Match(ticker, makers, taker).rest)
  {
    RestIsSuffix(ticker, makers, taker);
    var rest := Match(ticker, makers, taker).rest;
    var d := |makers| - |rest|;
    forall o | o in rest ensures o.side == Opposite(taker.side) && o.ticker == ticker && o.qty > 0 {
      var i :| 0 <= i < |rest| && rest[i] == o;
      assert makers[d + i] in makers;
    }
  }

  /** A newcomer goes behind every order it does not beat, and in front of every order it beats. */
  lemma {:induction false} SlotSplits(side: Side, prices: seq<nat>, p: nat)
    requires forall i, j :: 0 <= i < j < |prices| ==> !Better(side, prices[j], prices[i])
    ensures var k := Slot(side, prices, p);
            && (forall i :: 0 <= i < k ==> !Better(side, p, prices[i]))
            && (forall i :: k <= i < |prices| ==> Better(side, p, prices[i]))
  {
    if prices != [] && !Better(side, p, prices[0]) {
      SlotSplits(side, prices[1..], p);
      var k := Slot(side, prices[1..], p);
      assert forall i :: 1 <= i < |prices| ==> prices[i] == prices[1..][i - 1];
    }
  }

  /** Price, then time: in front are the orders at the same or a better price, behind those at a worse one. */
  lemma InsertPlace(orders: seq<Order>, o: Order)
    requires Sorted(o.side, orders)
    ensures exists k: nat :: k <= |orders| && Insert(orders, o) == orders[..k] + [o] + orders[k..]
              && (forall x :: x in orders[..k] ==> if o.side == Buy then o.price <= x.price else x.price <= o.price)
              && (forall x :: x in orders[k..] ==> if o.side == Buy then x.price < o.price else o.price < x.price)
  {
    var ps := Prices(orders);
    SlotSplits(o.side, ps, o.price);
    var k := Slot(o.side, ps, o.price);
    forall x | x in orders[..k] ensures if o.side == Buy then o.price <= x.price else x.price <= o.price {
      var i :| 0 <= i < k && orders[i] == x;
      assert !Better(o.side, o.price, ps[i]);
    }
    forall x | x in orders[k..] ensures if o.side == Buy then x.price < o.price else o.price < x.price {
      var i :| k <= i < |orders| && orders[i] == x;
      assert Better(o.side, o.price, ps[i]);
    }
    assert Insert(orders, o) == orders[..k] + [o] + orders[k..];
  }

  lemma InsertElements(orders: seq<Order>, o: Order)
    ensures forall x :: x in Insert(orders, o) <==> x in orders || x == o
  {
    var k := Slot(o.side, Prices(orders), o.price);
    assert orders == orders[..k] + orders[k..];
  }

  lemma InsertKeepsSide(ticker: nat, orders: seq<Order>, o: Order)
    requires GoodSide(ticker, o.side, orders)
    requires o.ticker == ticker && o.qty > 0
    ensures GoodSide(ticker, o.side, Insert(orders, o))
  {
    InsertElements(orders, o);
    InsertKeepsSorted(orders, o);
  }

  lemma InsertKeepsSorted(orders: seq<Order>, o: Order)
    requires Sorted(o.side, orders)
    ensures Sorted(o.side, Insert(orders, o))
  {
    var ps := Prices(orders);
    SlotSplits(o.side, ps, o.price);
    var k := Slot(o.side, ps, o.price);
    var s := Insert(orders, o);
    forall i, j | 0 <= i < j < |s| ensures !Better(o.side, s[j].price, s[i].price) {
      assert i != k ==> s[i].price == ps[if i < k then i else i - 1];
      assert j != k ==> s[j].price == ps[if j < k then j else j - 1];
    }
  }
}
