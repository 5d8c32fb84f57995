/**
 The order book as the engine keeps it: two price maps of order lists, and a
 per-user index that shares the very same order objects. Quantities are
 decremented in place. Every method is proved against the flat reference book.
 */
module OrderBooks {
  import opened Orders
  import opened FlatBook
  import opened Sums
  import opened Accounts
  import BookLaws

  /** A shared order object; only its quantity ever changes. */
  class OrderNode {
    const id: nat
    const ticker: nat
    const user: nat
    const side: Side
    const price: nat
    var quantity: nat

    constructor (o: Order)
      ensures Value() == o
    {
      id, ticker, user, side, price := o.id, o.ticker, o.user, o.side, o.price;
      quantity := o.qty;
    }

    function Value(): Order
      reads this
    {
      Order(id, ticker, user, side, price, quantity)
    }
  }

  /** One entry of a price map. The maps themselves are sequences, best price first. */
  datatype Level = Level(price: nat, orders: seq<OrderNode>)

  ghost function Flatten(levels: seq<Level>): seq<OrderNode> {
    if levels == [] then [] else levels[0].orders + Flatten(levels[1..])
  }

  function Values(nodes: seq<OrderNode>): (vs: seq<Order>)
    reads nodes
    ensures |vs| == |nodes|
    ensures forall i :: 0 <= i < |nodes| ==> vs[i] == nodes[i].Value()
  {
    seq(|nodes|, i requires 0 <= i < |nodes| reads nodes => nodes[i].Value())
  }

  /** A level is never empty and holds only orders of its own side and price. */
  ghost predicate LevelOk(side: Side, l: Level) {
    l.orders != [] && forall n :: n in l.orders ==> n.price == l.price && n.side == side
  }

  /** Prices are strictly ordered, best first. */
  ghost predicate LevelsOk(side: Side, levels: seq<Level>) {
    && (forall i :: 0 <= i < |levels| ==> LevelOk(side, levels[i]))
    && (forall i, j :: 0 <= i < j < |levels| ==> Better(side, levels[i].price, levels[j].price))
  }

  type Index = map<nat, map<nat, OrderNode>>

  /** The per-user index holds exactly these orders. */
  ghost predicate Indexed(active: Index, nodes: set<OrderNode>) {
    && (forall n :: n in nodes ==> n.user in active && n.id in active[n.user] && active[n.user][n.id] == n)
    && (forall u, i :: u in active && i in active[u] ==>
          active[u][i] in nodes && active[u][i].user == u && active[u][i].id == i)
  }

  function Erase(active: Index, user: nat, id: nat): Index {
    active[user := (if user in active then active[user] else map[]) - {id}]
  }

  ghost function Set(nodes: seq<OrderNode>): set<OrderNode> {
    set n | n in nodes
  }

  lemma EraseIndexed(active: Index, nodes: set<OrderNode>, n: OrderNode)
    requires n in nodes && Indexed(active, nodes)
    ensures Indexed(Erase(active, n.user, n.id), nodes - {n})
  {
  }

  function Add(active: Index, n: OrderNode): Index {
    var mine: map<nat, OrderNode> := if n.user in active then active[n.user] else map[];
    active[n.user := mine[n.id := n]]
  }

  lemma AddIndexed(active: Index, nodes: set<OrderNode>, n: OrderNode)
    requires Indexed(active, nodes) && forall x :: x in nodes ==> x.id != n.id
    ensures Indexed(Add(active, n), nodes + {n})
  {
  }

  lemma HeadAndTail(nodes: seq<OrderNode>)
    requires NoDup(nodes) && nodes != []
    ensures NoDup(nodes[1..]) && nodes[0] !in nodes[1..]
    ensures Set(nodes) == {nodes[0]} + Set(nodes[1..])
    ensures Values(nodes) == [nodes[0].Value()] + Values(nodes[1..])
  {
  }

  lemma Concat(front: seq<OrderNode>, back: seq<OrderNode>)
    ensures Set(front + back) == Set(front) + Set(back)
    ensures Values(front + back) == Values(front) + Values(back)
  {
  }

  lemma FrontAndBack(front: seq<OrderNode>, back: seq<OrderNode>)
    requires NoDup(front + back)
    ensures NoDup(front) && NoDup(back) && Set(front) !! Set(back)
  {
    var all := front + back;
    assert forall i :: 0 <= i < |front| ==> all[i] == front[i];
    assert forall i :: 0 <= i < |back| ==> all[|front| + i] == back[i];
  }

  ghost predicate NoDup(nodes: seq<OrderNode>) {
    forall i, j :: 0 <= i < j < |nodes| ==> nodes[i] != nodes[j]
  }

  /** Insertion at the back of the list for a price, creating the list if there is none. */
  function PushBack(side: Side, levels: seq<Level>, n: OrderNode): seq<Level> {
    if levels == [] || Better(side, n.price, levels[0].price) then
      [Level(n.price, [n])] + levels
    else if levels[0].price == n.price then
      [Level(n.price, levels[0].orders + [n])] + levels[1..]
    else
      [levels[0]] + PushBack(side, levels[1..], n)
  }

  function NodePrices(nodes: seq<OrderNode>): seq<nat> {
    seq(|nodes|, i requires 0 <= i < |nodes| => nodes[i].price)
  }

  lemma {:induction false} SlotSkips(side: Side, front: seq<nat>, back: seq<nat>, p: nat)
    requires forall x :: x in front ==> !Better(side, p, x)
    ensures Slot(side, front + back, p) == |front| + Slot(side, back, p)
  {
    if front == [] {
      assert front + back == back;
    } else {
      assert front[0] in front && forall x :: x in front[1..] ==> x in front;
      SlotSkips(side, front[1..], back, p);
      assert (front + back)[1..] == front[1..] + back;
    }
  }

  lemma LevelsCons(side: Side, l: Level, levels: seq<Level>)
    requires LevelsOk(side, levels) && LevelOk(side, l)
    requires forall x :: x in levels ==> Better(side, l.price, x.price)
    ensures LevelsOk(side, [l] + levels)
  {
    var s := [l] + levels;
    assert forall i :: 0 < i < |s| ==> s[i] == levels[i - 1] && s[i] in levels;
  }

  lemma LevelsHead(side: Side, levels: seq<Level>)
    requires LevelsOk(side, levels) && levels != []
    ensures LevelsOk(side, levels[1..]) && LevelOk(side, levels[0])
    ensures forall x :: x in levels[1..] ==> Better(side, levels[0].price, x.price)
  {
  }

  lemma {:induction false} PushBackKeepsLevels(side: Side, levels: seq<Level>, n: OrderNode)
    requires LevelsOk(side, levels) && n.side == side
    ensures LevelsOk(side, PushBack(side, levels, n))
    ensures forall l :: l in PushBack(side, levels, n) ==> l.price == n.price || l in levels
  {
    if levels == [] {
      LevelsCons(side, Level(n.price, [n]), []);
    } else {
      LevelsHead(side, levels);
      if Better(side, n.price, levels[0].price) {
        LevelsCons(side, Level(n.price, [n]), levels);
      } else if levels[0].price == n.price {
        LevelsCons(side, Level(n.price, levels[0].orders + [n]), levels[1..]);
      } else {
        PushBackKeepsLevels(side, levels[1..], n);
        LevelsCons(side, levels[0], PushBack(side, levels[1..], n));
      }
    }
  }

  /** Inserting k places into the flat order. */
  ghost function InsertAt(nodes: seq<OrderNode>, k: nat, n: OrderNode): seq<OrderNode>
    requires k <= |nodes|
  {
    nodes[..k] + [n] + nodes[k..]
  }

  lemma InsertAtBehind(front: seq<OrderNode>, back: seq<OrderNode>, k: nat, n: OrderNode)
    requires k <= |back|
    ensures InsertAt(front + back, |front| + k, n) == front + InsertAt(back, k, n)
  {
  }

  lemma SlotBehindLevel(side: Side, levels: seq<Level>, n: OrderNode)
    requires LevelsOk(side, levels) && levels != [] && !Better(side, n.price, levels[0].price)
    ensures Slot(side, NodePrices(Flatten(levels)), n.price)
         == |levels[0].orders| + Slot(side, NodePrices(Flatten(levels[1..])), n.price)
  {
    LevelsHead(side, levels);
    var front := NodePrices(levels[0].orders);
    var back := NodePrices(Flatten(levels[1..]));
    assert NodePrices(Flatten(levels)) == front + back;
    forall x | x in front ensures !Better(side, n.price, x) {
      var i :| 0 <= i < |front| && front[i] == x;
      assert levels[0].orders[i] in levels[0].orders;
    }
    SlotSkips(side, front, back, n.price);
  }

  /** Appending to a price level is insertion by price, then time, in the flat order. */
  lemma {:induction false} PushBackIsInsert(side: Side, levels: seq<Level>, n: OrderNode)
    requires LevelsOk(side, levels) && n.side == side
    ensures var flat := Flatten(levels);
            Flatten(PushBack(side, levels, n)) == InsertAt(flat, Slot(side, NodePrices(flat), n.price), n)
  {
    if levels != [] {
      LevelsHead(side, levels);
      var front, back := levels[0].orders, Flatten(levels[1..]);
      if Better(side, n.price, levels[0].price) {
        FlattenBehind(side, levels, n.price);
      } else {
        SlotBehindLevel(side, levels, n);
        InsertAtBehind(front, back, Slot(side, NodePrices(back), n.price), n);
        if levels[0].price == n.price {
          FlattenBehind(side, levels[1..], n.price);
        } else {
          PushBackIsInsert(side, levels[1..], n);
        }
      }
    }
  }

  lemma FlattenBehind(side: Side, levels: seq<Level>, p: nat)
    requires LevelsOk(side, levels)
    requires forall i :: 0 <= i < |levels| ==> Better(side, p, levels[i].price)
    ensures Slot(side, NodePrices(Flatten(levels)), p) == 0
  {
    if levels != [] {
      assert levels[0].orders[0] in levels[0].orders;
      assert Flatten(levels)[0] == levels[0].orders[0];
    }
  }

  lemma InsertAtShape(nodes: seq<OrderNode>, k: nat, n: OrderNode)
    requires k <= |nodes|
    ensures Values(InsertAt(nodes, k, n)) == Values(nodes)[..k] + [n.Value()] + Values(nodes)[k..]
    ensures Set(InsertAt(nodes, k, n)) == Set(nodes) + {n}
  {
    var s := InsertAt(nodes, k, n);
    assert nodes == nodes[..k] + nodes[k..];
    assert forall x :: x in s <==> x in nodes || x == n;
  }

  lemma PushBackValues(side: Side, levels: seq<Level>, n: OrderNode)
    requires LevelsOk(side, levels) && n.side == side
    ensures LevelsOk(side, PushBack(side, levels, n))
    ensures Values(Flatten(PushBack(side, levels, n))) == Insert(Values(Flatten(levels)), n.Value())
    ensures Set(Flatten(PushBack(side, levels, n))) == Set(Flatten(levels)) + {n}
  {
    PushBackKeepsLevels(side, levels, n);
    PushBackIsInsert(side, levels, n);
    var flat := Flatten(levels);
    assert NodePrices(flat) == Prices(Values(flat));
    InsertAtShape(flat, Slot(side, NodePrices(flat), n.price), n);
  }

  /** Matching a list and then what lies behind it is matching both at once. */
  lemma {:induction false} MatchConcat(ticker: nat, xs: seq<Order>, ys: seq<Order>, t: Order)
    requires forall o :: o in xs ==> Crosses(t, o.price)
    ensures var m := Match(ticker, xs, t);
            var m' := Match(ticker, ys, m.taker);
            Match(ticker, xs + ys, t) ==
              if m.rest == [] then Outcome(m.records + m'.records, m'.rest, m'.taker)
              else Outcome(m.records, m.rest + ys, m.taker)
  {
    if xs == [] {
      assert xs + ys == ys;
    } else if t.qty > 0 {
      assert xs[0] in xs && (xs + ys)[1..] == xs[1..] + ys;
      if xs[0].qty <= t.qty {
        var left := t.(qty := t.qty - xs[0].qty);
        MatchConcat(ticker, xs[1..], ys, left);
        var record := Trade(ticker, xs[0], t, xs[0].qty);
        var m := Match(ticker, xs[1..], left);
        var m' := Match(ticker, ys, m.taker);
        ConcatAssoc([record], m.records, m'.records);
      }
    }
  }

  /** A match whose whole outcome is `goal` has produced `records` and has `makers` and `taker` left. */
  ghost predicate Remains(goal: Outcome, ticker: nat, records: seq<MatchRecord>, makers: seq<Order>, taker: Order) {
    var m := Match(ticker, makers, taker);
    goal == Outcome(records + m.records, m.rest, m.taker)
  }

  /** One trade that uses the resting order up: the match goes on behind it. */
  lemma StepPops(goal: Outcome, ticker: nat, records: seq<MatchRecord>, makers: seq<Order>, taker: Order)
    requires Remains(goal, ticker, records, makers, taker)
    requires makers != [] && 0 < taker.qty && makers[0].qty <= taker.qty && Crosses(taker, makers[0].price)
    ensures Remains(goal, ticker, records + [Trade(ticker, makers[0], taker, makers[0].qty)],
                    makers[1..], taker.(qty := taker.qty - makers[0].qty))
  {
    var record := Trade(ticker, makers[0], taker, makers[0].qty);
    var more := Match(ticker, makers[1..], taker.(qty := taker.qty - makers[0].qty)).records;
    assert records + ([record] + more) == records + [record] + more;
  }

  /** One trade that uses the incoming order up: the match is over. */
  lemma StepStops(goal: Outcome, ticker: nat, records: seq<MatchRecord>, makers: seq<Order>, taker: Order)
    requires Remains(goal, ticker, records, makers, taker)
    requires makers != [] && 0 < taker.qty < makers[0].qty && Crosses(taker, makers[0].price)
    ensures goal == Outcome(records + [Trade(ticker, makers[0], taker, taker.qty)],
                            [makers[0].(qty := makers[0].qty - taker.qty)] + makers[1..], taker.(qty := 0))
  {
  }

  /** Matching the front of the book completes part of the whole match. */
  lemma RemainsMore(goal: Outcome, ticker: nat, done: seq<MatchRecord>, records: seq<MatchRecord>, t: Order,
                    front: seq<Order>, back: seq<Order>, rest: seq<Order>, t': Order)
    requires Remains(goal, ticker, done, front + back, t)
    requires Match(ticker, front, t) == Outcome(records, rest, t')
    requires forall o :: o in front ==> Crosses(t, o.price)
    requires rest == [] || t'.qty == 0
    ensures Remains(goal, ticker, done + records, rest + back, t')
  {
    MatchConcat(ticker, front, back, t);
    if rest == [] {
      ConcatAssoc(done, records, Match(ticker, back, t').records);
      ConcatNil(back, rest);
    } else {
      ConcatNil(done + records, Match(ticker, rest + back, t').records);
    }
  }

  lemma TailBehind(front: Order, behind: seq<Order>)
    ensures ([front] + behind)[0] == front && ([front] + behind)[1..] == behind
  {
  }

  lemma Popped(list: seq<OrderNode>, others: set<OrderNode>)
    requires list != [] && NoDup(list) && others !! Set(list)
    ensures RemoveAt(list, 0) == list[1..] && others + Set(list) - {list[0]} == others + Set(list[1..])
  {
    HeadAndTail(list);
    assert list[0] in Set(list);
  }

  /** The front level of a sorted side trades down to `list`. */
  ghost function Reduced(levels: seq<Level>, list: seq<OrderNode>): seq<Level>
    requires levels != []
  {
    if list == [] then levels[1..] else [Level(levels[0].price, list)] + levels[1..]
  }

  lemma ReducedKeepsLevels(side: Side, levels: seq<Level>, list: seq<OrderNode>)
    requires LevelsOk(side, levels) && levels != [] && Set(list) <= Set(levels[0].orders)
    ensures LevelsOk(side, Reduced(levels, list))
    ensures Flatten(Reduced(levels, list)) == list + Flatten(levels[1..])
  {
    LevelsHead(side, levels);
    if list != [] {
      assert forall n :: n in list ==> n in Set(levels[0].orders);
      LevelsCons(side, Level(levels[0].price, list), levels[1..]);
    }
  }

  lemma SmallerFront(front: seq<OrderNode>, back: seq<OrderNode>, list: seq<OrderNode>)
    requires NoDup(front + back)
    requires NoDup(list) && Set(list) <= Set(front)
    ensures NoDup(list + back) && Set(list + back) <= Set(front + back)
  {
    FrontAndBack(front, back);
    Concat(front, back);
    Concat(list, back);
    assert forall n :: n in list ==> n in Set(front);
    assert forall n :: n in back ==> n in Set(back);
    NoDupConcat(list, back);
  }

  lemma NoDupConcat(front: seq<OrderNode>, back: seq<OrderNode>)
    requires NoDup(front) && NoDup(back)
    requires forall n :: n in front ==> n !in back
    ensures NoDup(front + back)
  {
    var all := front + back;
    assert forall i :: |front| <= i < |all| ==> all[i] == back[i - |front|] && all[i] in back;
    assert forall i :: 0 <= i < |front| ==> all[i] == front[i] && all[i] in front;
  }

  lemma ReducedShape(side: Side, levels: seq<Level>, list: seq<OrderNode>)
    requires LevelsOk(side, levels) && levels != [] && NoDup(Flatten(levels))
    requires NoDup(list) && Set(list) <= Set(levels[0].orders)
    ensures var rest := Reduced(levels, list);
            && LevelsOk(side, rest) && NoDup(Flatten(rest))
            && Flatten(rest) == list + Flatten(levels[1..])
            && (forall n :: n in Flatten(rest) ==> n in Flatten(levels))
            && Set(Flatten(rest)) <= Set(Flatten(levels))
  {
    ReducedKeepsLevels(side, levels, list);
    SmallerFront(levels[0].orders, Flatten(levels[1..]), list);
    var rest := Flatten(Reduced(levels, list));
    assert forall n :: n in rest ==> n in Set(rest);
    assert forall n :: n in Set(Flatten(levels)) ==> n in Flatten(levels);
  }

  /** An order side after the remainder of an order has joined it. */
  function Joined(orders: seq<Order>, left: Order): seq<Order> {
    if left.qty > 0 then Insert(orders, left) else orders
  }

  lemma ProcessedBy(b: Book, o: Order, m: Outcome)
    requires m == Match(b.ticker, if o.side.Buy? then b.asks else b.bids, o)
    ensures o.side.Buy? ==> Process(b, o) == Processed(Book(b.ticker, Joined(b.bids, m.taker), m.rest), m.records)
    ensures o.side.Sell? ==> Process(b, o) == Processed(Book(b.ticker, m.rest, Joined(b.asks, m.taker)), m.records)
  {
  }

  lemma HeldAndOrder(mine: seq<OrderNode>, rest: seq<OrderNode>, own: seq<OrderNode>, order: OrderNode)
    requires order !in own && Set(mine) - {order} == Set(own)
    requires order in mine <==> order.quantity > 0
    ensures Set(mine) + Set(rest) == Set(own) + Set(rest) + if order.quantity > 0 then {order} else {}
  {
    assert order in mine <==> order in Set(mine);
  }

  function RemoveId(list: seq<OrderNode>, id: nat): seq<OrderNode> {
    if list == [] then []
    else if list[0].id == id then RemoveId(list[1..], id)
    else [list[0]] + RemoveId(list[1..], id)
  }

  /** All orders with this id leave the list for a price; an empty list leaves the map. */
  function DropOrder(levels: seq<Level>, price: nat, id: nat): seq<Level> {
    if levels == [] then []
    else if levels[0].price == price then
      var left := RemoveId(levels[0].orders, id);
      if left == [] then levels[1..] else [Level(price, left)] + levels[1..]
    else [levels[0]] + DropOrder(levels[1..], price, id)
  }

  ghost predicate NoDupIds(nodes: seq<OrderNode>) {
    forall i, j :: 0 <= i < j < |nodes| ==> nodes[i].id != nodes[j].id
  }

  lemma {:induction false} RemoveIdAt(list: seq<OrderNode>, id: nat, p: nat)
    requires NoDupIds(list) && p <= |list|
    requires p < |list| ==> list[p].id == id
    requires p == |list| ==> forall n :: n in list ==> n.id != id
    ensures RemoveId(list, id) == if p < |list| then RemoveAt(list, p) else list
  {
    if list == [] {
      return;
    }
    var front, tail := [list[0]], list[1..];
    assert list == front + tail;
    if p == 0 {
      forall n | n in tail ensures n.id != id {
        var i :| 0 <= i < |tail| && tail[i] == n;
        assert tail[i] == list[i + 1];
      }
      RemoveIdNone(tail, id);
      ConcatNil(tail, list[..0]);
    } else {
      assert list[0] in list;
      RemoveIdAt(tail, id, p - 1);
      if p < |list| { RemoveAtConcat(front, tail, p); }
    }
  }

  lemma DistinctNodes(nodes: seq<OrderNode>)
    requires DistinctIds(Values(nodes))
    ensures NoDupIds(nodes)
  {
    forall i, j | 0 <= i < j < |nodes| ensures nodes[i].id != nodes[j].id {
      assert Values(nodes)[i].id != Values(nodes)[j].id;
    }
  }

  lemma PartsDistinct(front: seq<OrderNode>, back: seq<OrderNode>)
    requires NoDupIds(front + back)
    ensures NoDupIds(front) && NoDupIds(back)
  {
    var all := front + back;
    forall i, j | 0 <= i < j < |front| ensures front[i].id != front[j].id {
      assert all[i] == front[i] && all[j] == front[j];
    }
    forall i, j | 0 <= i < j < |back| ensures back[i].id != back[j].id {
      assert all[|front| + i] == back[i] && all[|front| + j] == back[j];
    }
  }

  lemma {:induction false} RemoveIdNone(list: seq<OrderNode>, id: nat)
    requires forall n :: n in list ==> n.id != id
    ensures RemoveId(list, id) == list
  {
    if list != [] {
      assert list[0] in list;
      RemoveIdNone(list[1..], id);
    }
  }

  lemma {:induction false} BehindIsWorse(side: Side, levels: seq<Level>, price: nat)
    requires LevelsOk(side, levels) && forall l :: l in levels ==> Better(side, price, l.price)
    ensures forall n :: n in Flatten(levels) ==> n.price != price
  {
    if levels != [] {
      LevelsHead(side, levels);
      assert levels[0] in levels;
      BehindIsWorse(side, levels[1..], price);
    }
  }

  lemma {:induction false} DropKeepsLevels(side: Side, levels: seq<Level>, price: nat, id: nat)
    requires LevelsOk(side, levels)
    ensures LevelsOk(side, DropOrder(levels, price, id))
    ensures forall l :: l in DropOrder(levels, price, id) ==> exists l' :: l' in levels && l'.price == l.price
  {
    if levels != [] {
      LevelsHead(side, levels);
      assert levels[0] in levels && forall l :: l in levels[1..] ==> l in levels;
      if levels[0].price == price {
        var left := RemoveId(levels[0].orders, id);
        RemoveIdSubset(levels[0].orders, id);
        if left != [] { LevelsCons(side, Level(price, left), levels[1..]); }
      } else {
        DropKeepsLevels(side, levels[1..], price, id);
        LevelsCons(side, levels[0], DropOrder(levels[1..], price, id));
      }
    }
  }

  lemma {:induction false} RemoveIdSubset(list: seq<OrderNode>, id: nat)
    ensures forall n :: n in RemoveId(list, id) ==> n in list
  {
    if list != [] { RemoveIdSubset(list[1..], id); }
  }

  /** A price is found in the front part of the flat order exactly when it is the front level's price. */
  lemma FrontHasPrice(side: Side, levels: seq<Level>, p: nat)
    requires LevelsOk(side, levels) && p < |Flatten(levels)|
    ensures levels != []
    ensures Flatten(levels)[p].price == levels[0].price <==> p < |levels[0].orders|
  {
    LevelsHead(side, levels);
    BehindIsWorse(side, levels[1..], levels[0].price);
    var front, back := levels[0].orders, Flatten(levels[1..]);
    if p < |front| {
      assert Flatten(levels)[p] == front[p] && front[p] in front;
    } else {
      assert Flatten(levels)[p] == back[p - |front|] && back[p - |front|] in back;
    }
  }

  /** Dropping an order from its level removes exactly its position in the flat order. */
  lemma {:induction false} DropAt(side: Side, levels: seq<Level>, p: nat, n: OrderNode)
    requires LevelsOk(side, levels) && NoDupIds(Flatten(levels))
    requires p < |Flatten(levels)| && Flatten(levels)[p] == n
    ensures Flatten(DropOrder(levels, n.price, n.id)) == RemoveAt(Flatten(levels), p)
  {
    FrontHasPrice(side, levels, p);
    LevelsHead(side, levels);
    var front, back := levels[0].orders, Flatten(levels[1..]);
    PartsDistinct(front, back);
    RemoveAtConcat(front, back, p);
    if levels[0].price == n.price {
      RemoveIdAt(front, n.id, p);
    } else {
      DropAt(side, levels[1..], p - |front|, n);
    }
  }

  /** With distinct ids, searching for an order by its id and user finds that very order. */
  lemma FindsNode(nodes: seq<OrderNode>, n: OrderNode)
    requires NoDupIds(nodes) && n in nodes
    ensures var k := Find(Values(nodes), n.id, n.user); k < |nodes| && nodes[k] == n
  {
    var k := Find(Values(nodes), n.id, n.user);
    var j :| 0 <= j < |nodes| && nodes[j] == n;
    assert Values(nodes)[j] in Values(nodes);
    assert nodes[k].id == nodes[j].id;
  }

  lemma FindsNothing(nodes: seq<OrderNode>, id: nat, user: nat)
    requires forall n :: n in nodes ==> !(n.id == id && n.user == user)
    ensures Find(Values(nodes), id, user) == |nodes|
  {
  }

  lemma RemoveValues(nodes: seq<OrderNode>, k: nat)
    requires k < |nodes|
    ensures Values(RemoveAt(nodes, k)) == RemoveAt(Values(nodes), k)
    ensures NoDup(nodes) ==> Set(RemoveAt(nodes, k)) == Set(nodes) - {nodes[k]}
  {
    assert nodes == nodes[..k] + [nodes[k]] + nodes[k + 1..];
  }

  lemma FrontPrice(side: Side, levels: seq<Level>)
    requires LevelsOk(side, levels)
    ensures levels == [] <==> Flatten(levels) == []
    ensures levels != [] ==> Flatten(levels)[0].price == levels[0].price
  {
    if levels != [] { assert levels[0].orders[0] in levels[0].orders; }
  }

  lemma BestApart(b: Book)
    requires FlatBook.Valid(b)
    ensures b.bids != [] && b.asks != [] ==> b.bids[0].price < b.asks[0].price
  {
  }

  lemma DropSide(side: Side, levels: seq<Level>, p: nat, n: OrderNode)
    requires LevelsOk(side, levels) && NoDupIds(Flatten(levels)) && NoDup(Flatten(levels))
    requires p < |Flatten(levels)| && Flatten(levels)[p] == n
    ensures var rest := DropOrder(levels, n.price, n.id);
            && LevelsOk(side, rest)
            && Values(Flatten(rest)) == RemoveAt(Values(Flatten(levels)), p)
            && Set(Flatten(rest)) == Set(Flatten(levels)) - {n}
  {
    DropKeepsLevels(side, levels, n.price, n.id);
    DropAt(side, levels, p, n);
    RemoveValues(Flatten(levels), p);
  }

  lemma SetWithout(before: seq<OrderNode>, after: seq<OrderNode>, other: seq<OrderNode>, n: OrderNode)
    requires n in before && Set(before) !! Set(other) && Set(after) == Set(before) - {n}
    ensures Set(after + other) == Set(before + other) - {n}
    ensures Set(other + after) == Set(other + before) - {n}
  {
    Concat(after, other);
    Concat(other, after);
    Concat(before, other);
    Concat(other, before);
    assert n in Set(before);
  }

  lemma SignedOrder(bid: nat, ask: nat)
    requires bid < ask < TWO64
    ensures I64(bid) < I64(ask) <==> (bid < TWO63 <==> ask < TWO63)
  {
  }

  class OrderBook {
    const tickerId: nat
    var bids: seq<Level>
    var asks: seq<Level>
    var active: Index

    ghost function Nodes(): seq<OrderNode>
      reads this
    {
      Flatten(bids) + Flatten(asks)
    }

    ghost function View(): Book
      reads this, Flatten(bids), Flatten(asks)
    {
      Book(tickerId, Values(Flatten(bids)), Values(Flatten(asks)))
    }

    ghost predicate Valid()
      reads this, Flatten(bids), Flatten(asks)
    {
      && LevelsOk(Buy, bids) && LevelsOk(Sell, asks)
      && Indexed(active, Set(Nodes()))
      && FlatBook.Valid(View())
    }

    /** What happens elsewhere leaves the book alone. */
    twostate lemma Stays()
      requires old(Valid()) && unchanged(this) && unchanged(Nodes())
      ensures Valid() && View() == old(View()) && Nodes() == old(Nodes())
    {
      Concat(Flatten(bids), Flatten(asks));
    }

    constructor (ticker: nat)
      ensures Valid() && View() == Empty(ticker) && Nodes() == []
    {
      tickerId, bids, asks, active := ticker, [], [], map[];
    }

    /** One trade between two shared orders; an exhausted resting order leaves the index. */
    method Fill(maker: OrderNode, taker: OrderNode, ghost nodes: set<OrderNode>,
                ghost goal: Outcome, ghost records: seq<MatchRecord>, ghost makers: seq<Order>)
      returns (record: MatchRecord)
      requires maker != taker && maker in nodes && Indexed(active, nodes)
      requires 0 < taker.quantity && Crosses(taker.Value(), maker.price)
      requires makers != [] && makers[0] == maker.Value() && Remains(goal, tickerId, records, makers, taker.Value())
      modifies this`active, maker, taker
      ensures record.qty == if old(taker.quantity) <= old(maker.quantity) then old(taker.quantity) else old(maker.quantity)
      ensures maker.quantity == old(maker.quantity) - record.qty && taker.quantity == old(taker.quantity) - record.qty
      ensures record.ticker == tickerId && record.maker == maker.id && record.taker == taker.id && record.price == maker.price
      ensures taker.side == Buy ==> record.buyer == taker.user && record.seller == maker.user && record.expected == taker.price
      ensures taker.side == Sell ==> record.buyer == maker.user && record.seller == taker.user && record.expected == maker.price
      ensures Indexed(active, if maker.quantity == 0 then nodes - {maker} else nodes)
      ensures maker.quantity == 0 ==> Remains(goal, tickerId, records + [record], makers[1..], taker.Value())
      ensures maker.quantity > 0 ==> goal == Outcome(records + [record], [maker.Value()] + makers[1..], taker.Value())
    {
      var qty := Min(taker.quantity, maker.quantity);
      record := Trade(tickerId, maker.Value(), taker.Value(), qty);
      if maker.quantity <= taker.quantity {
        StepPops(goal, tickerId, records, makers, taker.Value());
      } else {
        StepStops(goal, tickerId, records, makers, taker.Value());
      }
      taker.quantity := taker.quantity - qty;
      maker.quantity := maker.quantity - qty;
      if maker.quantity == 0 {
        EraseIndexed(active, nodes, maker);
        active := Erase(active, maker.user, maker.id);
      }
    }

    /** The front of a price level trades; the orders behind it are not touched. */
    method FillFront(list: seq<OrderNode>, taker: OrderNode, ghost nodes: set<OrderNode>,
                     ghost goal: Outcome, ghost records: seq<MatchRecord>)
      returns (record: MatchRecord)
      requires list != [] && NoDup(list) && taker !in list && list[0] in nodes && Indexed(active, nodes)
      requires 0 < taker.quantity && Crosses(taker.Value(), list[0].price)
      requires Remains(goal, tickerId, records, Values(list), taker.Value())
      modifies this`active, list[0], taker
      ensures forall n :: n in list[1..] ==> n.quantity == old(n.quantity)
      ensures Indexed(active, if list[0].quantity == 0 then nodes - {list[0]} else nodes)
      ensures list[0].quantity == 0 ==> Remains(goal, tickerId, records + [record], Values(list[1..]), taker.Value())
      ensures list[0].quantity > 0 ==> taker.quantity == 0 && goal == Outcome(records + [record], Values(list), taker.Value())
    {
      ghost var makers, behind := Values(list), Values(list[1..]);
      HeadAndTail(list);
      TailBehind(list[0].Value(), behind);
      record := Fill(list[0], taker, nodes, goal, records, makers);
      HeadAndTail(list);
      assert Values(list[1..]) == behind;
    }

    /** The orders of one price level, or what is left of them, while `taker` is matched; `others` rest elsewhere. */
    ghost predicate ListOk(list: seq<OrderNode>, taker: OrderNode, others: set<OrderNode>)
      reads this, list
    {
      && NoDup(list) && taker !in list && others !! Set(list)
      && (forall n :: n in list ==> n.quantity > 0)
      && Indexed(active, others + Set(list))
    }

    /** One round of the inner loop: the front of a price level trades, and leaves or stays. */
    method HitFront(list: seq<OrderNode>, taker: OrderNode, ghost others: set<OrderNode>,
                    ghost goal: Outcome, ghost records: seq<MatchRecord>)
      returns (rest: seq<OrderNode>, gone: bool, record: MatchRecord)
      requires list != [] && ListOk(list, taker, others)
      requires 0 < taker.quantity && Crosses(taker.Value(), list[0].price)
      requires Remains(goal, tickerId, records, Values(list), taker.Value())
      modifies this`active, list[0], taker
      ensures rest == if gone then list[1..] else list
      ensures !gone ==> taker.quantity == 0 && goal == Outcome(records + [record], Values(rest), taker.Value())
      ensures gone ==> Remains(goal, tickerId, records + [record], Values(rest), taker.Value())
      ensures ListOk(rest, taker, others)
    {
      record := FillFront(list, taker, others + Set(list), goal, records);
      gone := list[0].quantity == 0;
      Popped(list, others);
      rest := if gone then RemoveAt(list, 0) else list;
      assert forall n :: n in list ==> n == list[0] || n in list[1..];
    }

    /** The inner matching loop: one price level against the incoming order. */
    method MatchLevel(price: nat, list: seq<OrderNode>, taker: OrderNode, ghost others: set<OrderNode>)
      returns (rest: seq<OrderNode>, records: seq<MatchRecord>)
      requires ListOk(list, taker, others)
      requires Crosses(taker.Value(), price) && forall n :: n in list ==> n.price == price
      modifies this`active, list, taker
      ensures Match(tickerId, old(Values(list)), old(taker.Value())) == Outcome(records, Values(rest), taker.Value())
      ensures ListOk(rest, taker, others) && Set(rest) <= Set(list)
      ensures rest == [] || taker.quantity == 0
    {
      ghost var goal := Match(tickerId, Values(list), taker.Value());
      var at := 0;
      rest, records := list, [];
      while at < |rest| && taker.quantity > 0
        invariant ListOk(rest, taker, others) && Set(rest) <= Set(list)
        invariant at == 0 ==> Remains(goal, tickerId, records, Values(rest), taker.Value())
        invariant at > 0 ==> taker.quantity == 0 && goal == Outcome(records, Values(rest), taker.Value())
        decreases |rest| - at
      {
        var gone, record;
        rest, gone, record := HitFront(rest, taker, others, goal, records);
        records := records + [record];
        at := if gone then at else at + 1;
      }
    }

    /** An opposite side on which an incoming order can be matched; `others` rest elsewhere. */
    ghost predicate Matchable(levels: seq<Level>, taker: OrderNode, others: set<OrderNode>)
      reads this, Flatten(levels)
    {
      && LevelsOk(Opposite(taker.side), levels)
      && NoDup(Flatten(levels)) && taker !in Flatten(levels) && others !! Set(Flatten(levels))
      && (forall n :: n in Flatten(levels) ==> n.quantity > 0)
      && Indexed(active, others + Set(Flatten(levels)))
    }

    lemma FrontIsReady(levels: seq<Level>, taker: OrderNode, others: set<OrderNode>)
      requires levels != [] && Matchable(levels, taker, others)
      ensures var front, back := levels[0].orders, Flatten(levels[1..]);
              && ListOk(front, taker, others + Set(back)) && Set(front) !! Set(back) && taker !in back
              && Values(Flatten(levels)) == Values(front) + Values(back)
              && (forall n :: n in front ==> n.price == levels[0].price) && forall o :: o in Values(back) ==> o.qty > 0
    {
      var front, back := levels[0].orders, Flatten(levels[1..]);
      FrontAndBack(front, back);
      Concat(front, back);
      assert LevelOk(Opposite(taker.side), levels[0]);
      assert others + Set(front + back) == others + Set(back) + Set(front);
      assert forall n :: n in front + back <==> n in front || n in back;
    }

    /** What is left of a level, with the levels behind it. */
    lemma FrontBehind(list: seq<OrderNode>, back: seq<OrderNode>, taker: OrderNode, others: set<OrderNode>)
      requires ListOk(list, taker, others + Set(back))
      requires forall o :: o in Values(back) ==> o.qty > 0
      ensures Values(list + back) == Values(list) + Values(back)
      ensures Indexed(active, others + Set(list + back))
      ensures forall n :: n in list + back ==> n.quantity > 0
    {
      Concat(list, back);
      assert others + Set(list + back) == others + Set(back) + Set(list);
      forall n | n in back ensures n.quantity > 0 {
        assert n.Value() in Values(back) by {
          var i :| 0 <= i < |back| && back[i] == n;
          assert Values(back)[i] == n.Value();
        }
      }
    }

    /** The orders at the best price trade. */
    method TradeLevel(levels: seq<Level>, taker: OrderNode, ghost others: set<OrderNode>,
                    ghost goal: Outcome, ghost done: seq<MatchRecord>)
      returns (list: seq<OrderNode>, records: seq<MatchRecord>)
      requires Matchable(levels, taker, others)
      requires levels != [] && Crosses(taker.Value(), levels[0].price)
      requires Remains(goal, tickerId, done, Values(Flatten(levels)), taker.Value())
      modifies this`active, levels[0].orders, taker
      ensures NoDup(list) && Set(list) <= Set(levels[0].orders)
      ensures Indexed(active, others + Set(list + Flatten(levels[1..])))
      ensures list == [] || taker.quantity == 0
      ensures forall n :: n in list + Flatten(levels[1..]) ==> n.quantity > 0
      ensures Remains(goal, tickerId, done + records, Values(list + Flatten(levels[1..])), taker.Value())
    {
      var price, front := levels[0].price, levels[0].orders;
      ghost var back := Flatten(levels[1..]);
      ghost var before, behind, start := Values(front), Values(back), taker.Value();
      FrontIsReady(levels, taker, others);
      list, records := MatchLevel(price, front, taker, others + Set(back));
      assert Values(back) == behind;
      FrontBehind(list, back, taker, others);
      RemainsMore(goal, tickerId, done, records, start, before, behind, Values(list), taker.Value());
    }

    /** One round of the outer loop: the best price level trades, and is dropped once it is empty. */
    method HitLevel(levels: seq<Level>, taker: OrderNode, ghost others: set<OrderNode>,
                    ghost goal: Outcome, ghost done: seq<MatchRecord>)
      returns (rest: seq<Level>, gone: bool, records: seq<MatchRecord>)
      requires Matchable(levels, taker, others)
      requires levels != [] && Crosses(taker.Value(), levels[0].price)
      requires Remains(goal, tickerId, done, Values(Flatten(levels)), taker.Value())
      modifies this`active, Flatten(levels), taker
      ensures Matchable(rest, taker, others)
      ensures forall n :: n in Flatten(rest) ==> n in Flatten(levels)
      ensures Remains(goal, tickerId, done + records, Values(Flatten(rest)), taker.Value())
      ensures if gone then |rest| == |levels| - 1 else |rest| == |levels| && taker.quantity == 0
    {
      var list;
      list, records := TradeLevel(levels, taker, others, goal, done);
      ReducedShape(Opposite(taker.side), levels, list);
      gone := list == [];
      if gone {
        rest := RemoveAt(levels, 0);
      } else {
        rest := levels[0 := Level(levels[0].price, list)];
      }
      assert rest == Reduced(levels, list);
    }

    /** The outer loop: price levels, best first, until the order is filled or the prices do not cross. */
    method MatchLevels(levels: seq<Level>, taker: OrderNode, ghost others: set<OrderNode>, ghost goal: Outcome)
      returns (rest: seq<Level>, records: seq<MatchRecord>)
      requires Matchable(levels, taker, others)
      requires goal == Match(tickerId, Values(Flatten(levels)), taker.Value())
      modifies this`active, Flatten(levels), taker
      ensures goal == Outcome(records, Values(Flatten(rest)), taker.Value())
      ensures Matchable(rest, taker, others)
      ensures Set(Flatten(rest)) <= Set(Flatten(levels))
    {
      var at := 0;
      rest, records := levels, [];
      while at < |rest| && taker.quantity > 0
        invariant at > 0 ==> taker.quantity == 0
        invariant Matchable(rest, taker, others)
        invariant forall n :: n in Flatten(rest) ==> n in Flatten(levels)
        invariant Remains(goal, tickerId, records, Values(Flatten(rest)), taker.Value())
        decreases |rest| - at
      {
        if !Crosses(taker.Value(), rest[at].price) { break; }
        var gone, fills;
        rest, gone, fills := HitLevel(rest, taker, others, goal, records);
        records := records + fills;
        at := if gone then at else at + 1;
      }
      NothingRemains(goal, records, rest, taker);
    }

    /** Nothing more can happen once the order is filled, the side is empty, or the best price does not cross. */
    lemma {:induction false} NothingRemains(goal: Outcome, records: seq<MatchRecord>, rest: seq<Level>, taker: OrderNode)
      requires Remains(goal, tickerId, records, Values(Flatten(rest)), taker.Value())
      requires LevelsOk(Opposite(taker.side), rest)
      requires rest == [] || taker.quantity == 0 || !Crosses(taker.Value(), rest[0].price)
      ensures goal == Outcome(records, Values(Flatten(rest)), taker.Value())
    {
      if rest != [] {
        LevelsHead(Opposite(taker.side), rest);
        assert Flatten(rest)[0] == rest[0].orders[0] && rest[0].orders[0] in rest[0].orders;
      }
      assert records + [] == records;
    }

    /** An order object the book can take: its own ticker and an id that no resting order has. */
    ghost predicate Acceptable(order: OrderNode)
      reads this, Flatten(bids), Flatten(asks)
    {
      order.ticker == tickerId && !HasId(View(), order.id)
    }

    /** Distinct ids make the order objects distinct, so the two sides share none. */
    lemma SidesApart()
      requires FlatBook.Valid(View())
      ensures NoDup(Flatten(bids)) && NoDup(Flatten(asks)) && Set(Flatten(bids)) !! Set(Flatten(asks))
    {
      var b, a := Flatten(bids), Flatten(asks);
      Concat(b, a);
      forall i, j | 0 <= i < j < |b + a| ensures (b + a)[i] != (b + a)[j] {
        assert Values(b + a)[i].id != Values(b + a)[j].id;
      }
      FrontAndBack(b, a);
    }

    lemma AllPositive()
      requires FlatBook.Valid(View())
      ensures forall n :: n in Flatten(bids) ==> n.quantity > 0
      ensures forall n :: n in Flatten(asks) ==> n.quantity > 0
    {
      assert forall i :: 0 <= i < |Flatten(bids)| ==> View().bids[i] in View().bids;
      assert forall i :: 0 <= i < |Flatten(asks)| ==> View().asks[i] in View().asks;
    }

    lemma FreshId(order: OrderNode)
      requires !HasId(View(), order.id)
      ensures order !in Flatten(bids) && order !in Flatten(asks)
      ensures forall n :: n in Set(Flatten(bids)) + Set(Flatten(asks)) ==> n.id != order.id
    {
      var b, a := Flatten(bids), Flatten(asks);
      Concat(b, a);
      forall n: OrderNode | n in b + a ensures n.id != order.id {
        var i :| 0 <= i < |b + a| && (b + a)[i] == n;
        assert Values(b + a)[i] in View().bids + View().asks;
      }
      assert forall n :: n in b || n in a ==> n in b + a;
    }

    lemma AsksMatchable(order: OrderNode)
      requires Valid() && Acceptable(order) && order.side.Buy?
      ensures Matchable(asks, order, Set(Flatten(bids))) && order !in Flatten(bids)
      ensures forall n :: n in Set(Flatten(bids)) + Set(Flatten(asks)) ==> n.id != order.id
    {
      FreshId(order);
      SidesApart();
      AllPositive();
      Concat(Flatten(bids), Flatten(asks));
    }

    lemma BidsMatchable(order: OrderNode)
      requires Valid() && Acceptable(order) && order.side.Sell?
      ensures Matchable(bids, order, Set(Flatten(asks))) && order !in Flatten(asks)
      ensures forall n :: n in Set(Flatten(asks)) + Set(Flatten(bids)) ==> n.id != order.id
    {
      FreshId(order);
      SidesApart();
      AllPositive();
      Concat(Flatten(bids), Flatten(asks));
      assert Set(Nodes()) == Set(Flatten(asks)) + Set(Flatten(bids));
    }

    /** What is left of an order joins the back of its price level. */
    method Rest(levels: seq<Level>, order: OrderNode) returns (rest: seq<Level>)
      requires LevelsOk(order.side, levels) && order !in Flatten(levels)
      ensures LevelsOk(order.side, rest)
      ensures Values(Flatten(rest)) == Joined(Values(Flatten(levels)), order.Value())
      ensures Set(Flatten(rest)) - {order} == Set(Flatten(levels)) && Set(Flatten(rest)) <= Set(Flatten(levels)) + {order}
      ensures order in Flatten(rest) <==> order.quantity > 0
    {
      rest := levels;
      if order.quantity > 0 {
        PushBackValues(order.side, levels, order);
        rest := PushBack(order.side, levels, order);
        assert order in Set(Flatten(rest));
      }
      assert order !in Set(Flatten(levels));
    }

    /** What is left of an order enters the per-user index. */
    method Enter(order: OrderNode, ghost held: set<OrderNode>, ghost kept: seq<OrderNode>)
      requires Indexed(active, held) && forall n :: n in held ==> n.id != order.id
      modifies this`active
      ensures Indexed(active, held + if order.quantity > 0 then {order} else {})
      ensures Values(kept) == old(Values(kept))
    {
      if order.quantity > 0 {
        AddIndexed(active, held, order);
        active := Add(active, order);
      }
    }

    /** What is left of an order rests on its own side and in the index. */
    method RestAndEnter(own: seq<Level>, order: OrderNode, ghost rest: seq<OrderNode>) returns (mine: seq<Level>)
      requires LevelsOk(order.side, own) && order !in Flatten(own)
      requires Indexed(active, Set(Flatten(own)) + Set(rest))
      requires forall n :: n in Set(Flatten(own)) + Set(rest) ==> n.id != order.id
      modifies this`active
      ensures LevelsOk(order.side, mine) && Values(Flatten(mine)) == old(Joined(Values(Flatten(own)), order.Value()))
      ensures Indexed(active, Set(Flatten(mine)) + Set(rest))
      ensures Set(Flatten(mine)) <= Set(Flatten(own)) + {order}
    {
      ghost var held := Set(Flatten(own)) + Set(rest);
      mine := Rest(own, order);
      HeldAndOrder(Flatten(mine), rest, Flatten(own), order);
      Enter(order, held, Flatten(mine));
    }

    /**
     One side is matched, best price first; what is left of the order rests on
     its own side and in the index.
     */
    method MatchSides(levels: seq<Level>, own: seq<Level>, order: OrderNode, ghost m: Outcome)
      returns (rest: seq<Level>, mine: seq<Level>, records: seq<MatchRecord>)
      requires LevelsOk(order.side, own) && order !in Flatten(own)
      requires Matchable(levels, order, Set(Flatten(own)))
      requires forall n :: n in Set(Flatten(own)) + Set(Flatten(levels)) ==> n.id != order.id
      requires m == Match(tickerId, Values(Flatten(levels)), order.Value())
      modifies this`active, Flatten(levels), order
      ensures records == m.records
      ensures LevelsOk(Opposite(order.side), rest) && Values(Flatten(rest)) == m.rest
      ensures LevelsOk(order.side, mine) && Values(Flatten(mine)) == Joined(old(Values(Flatten(own))), m.taker)
      ensures Indexed(active, Set(Flatten(mine)) + Set(Flatten(rest)))
      ensures Set(Flatten(mine)) + Set(Flatten(rest)) <= Set(Flatten(own)) + Set(Flatten(levels)) + {order}
    {
      ghost var before := Values(Flatten(own));
      rest, records := MatchLevels(levels, order, Set(Flatten(own)), m);
      assert Values(Flatten(own)) == before;
      mine := RestAndEnter(own, order, Flatten(rest));
    }

    /** Both sides are replaced; the orders themselves are not touched. */
    method SetSides(b: seq<Level>, a: seq<Level>)
      requires LevelsOk(Buy, b) && LevelsOk(Sell, a)
      modifies this`bids, this`asks
      ensures bids == b && asks == a && LevelsOk(Buy, bids) && LevelsOk(Sell, asks)
      ensures View() == Book(tickerId, old(Values(Flatten(b))), old(Values(Flatten(a))))
    {
      ghost var bought, sold := Values(Flatten(b)), Values(Flatten(a));
      bids, asks := b, a;
      assert Values(Flatten(b)) == bought && Values(Flatten(a)) == sold;
    }

    /** Matches against the asks, cheapest first. */
    method MatchBuyOrder(order: OrderNode, ghost m: Outcome) returns (records: seq<MatchRecord>)
      requires Valid() && Acceptable(order) && order.side.Buy?
      requires m == Match(tickerId, Values(Flatten(asks)), order.Value())
      modifies this`asks, this`bids, this`active, Flatten(asks), order
      ensures records == m.records
      ensures View() == Book(tickerId, Joined(old(View().bids), m.taker), m.rest)
      ensures LevelsOk(Buy, bids) && LevelsOk(Sell, asks)
      ensures Indexed(active, Set(Flatten(bids)) + Set(Flatten(asks)))
      ensures Set(Flatten(bids)) + Set(Flatten(asks)) <= old(Set(Flatten(bids)) + Set(Flatten(asks))) + {order}
    {
      AsksMatchable(order);
      var rest, mine;
      rest, mine, records := MatchSides(asks, bids, order, m);
      SetSides(mine, rest);
    }

    /** Matches against the bids, dearest first. */
    method MatchSellOrder(order: OrderNode, ghost m: Outcome) returns (records: seq<MatchRecord>)
      requires Valid() && Acceptable(order) && order.side.Sell?
      requires m == Match(tickerId, Values(Flatten(bids)), order.Value())
      modifies this`asks, this`bids, this`active, Flatten(bids), order
      ensures records == m.records
      ensures View() == Book(tickerId, m.rest, Joined(old(View().asks), m.taker))
      ensures LevelsOk(Buy, bids) && LevelsOk(Sell, asks)
      ensures Indexed(active, Set(Flatten(asks)) + Set(Flatten(bids)))
      ensures Set(Flatten(asks)) + Set(Flatten(bids)) <= old(Set(Flatten(asks)) + Set(Flatten(bids))) + {order}
    {
      BidsMatchable(order);
      var rest, mine;
      rest, mine, records := MatchSides(bids, asks, order, m);
      SetSides(rest, mine);
    }

    lemma NodesOfSides()
      ensures Set(Nodes()) == Set(Flatten(bids)) + Set(Flatten(asks)) == Set(Flatten(asks)) + Set(Flatten(bids))
    {
      Concat(Flatten(bids), Flatten(asks));
    }

    /**
     Processing an order has exactly the effect of the flat reference book, keeps
     the book valid, and enters the order in the index if something is left of it.
     */
    method ProcessOrder(order: OrderNode) returns (records: seq<MatchRecord>)
      requires Valid() && Acceptable(order)
      modifies this`asks, this`bids, this`active, Flatten(bids), Flatten(asks), order
      ensures Valid()
      ensures Process(old(View()), old(order.Value())) == Processed(View(), records)
      ensures Set(Nodes()) <= old(Set(Nodes())) + {order}
    {
      NodesOfSides();
      ghost var book, taker := View(), order.Value();
      ghost var m := Match(tickerId, if taker.side.Buy? then book.asks else book.bids, taker);
      if order.side.Buy? {
        records := MatchBuyOrder(order, m);
      } else {
        records := MatchSellOrder(order, m);
      }
      ProcessedBy(book, taker, m);
      NodesOfSides();
      BookLaws.ProcessKeepsValid(book, taker);
    }

    lemma IdsApart()
      requires FlatBook.Valid(View())
      ensures NoDupIds(Nodes()) && NoDupIds(Flatten(bids)) && NoDupIds(Flatten(asks))
    {
      var b, a := Flatten(bids), Flatten(asks);
      Concat(b, a);
      DistinctNodes(b + a);
      PartsDistinct(b, a);
    }

    lemma SideOf(n: OrderNode)
      requires FlatBook.Valid(View()) && n in Nodes()
      ensures n in if n.side.Buy? then Flatten(bids) else Flatten(asks)
    {
      assert forall i :: 0 <= i < |Flatten(bids)| ==> View().bids[i] in View().bids;
      assert forall i :: 0 <= i < |Flatten(asks)| ==> View().asks[i] in View().asks;
    }

    lemma NotIndexed(key: nat, user: nat)
      requires Indexed(active, Set(Nodes())) && (user !in active || key !in active[user])
      ensures Find(View().bids, key, user) == |View().bids| && Find(View().asks, key, user) == |View().asks|
    {
      Concat(Flatten(bids), Flatten(asks));
      assert forall n :: n in Flatten(bids) || n in Flatten(asks) ==> n in Nodes() && n in Set(Nodes());
      FindsNothing(Flatten(bids), key, user);
      FindsNothing(Flatten(asks), key, user);
    }

    /** An order resting on one side is found there, and nothing is found on the other. */
    lemma Located(n: OrderNode)
      requires FlatBook.Valid(View()) && n in Nodes()
      ensures NoDupIds(Flatten(bids)) && NoDupIds(Flatten(asks))
      ensures var i := Find(View().bids, n.id, n.user);
              if n.side.Buy? then i < |Flatten(bids)| && Flatten(bids)[i] == n else i == |Flatten(bids)|
      ensures var j := Find(View().asks, n.id, n.user);
              n.side.Sell? ==> j < |Flatten(asks)| && Flatten(asks)[j] == n
    {
      IdsApart();
      SideOf(n);
      if n.side.Buy? {
        FindsNode(Flatten(bids), n);
      } else {
        FindsNode(Flatten(asks), n);
        forall x | x in Flatten(bids) ensures x.id != n.id {
          var i :| 0 <= i < |Flatten(bids)| && Flatten(bids)[i] == x;
          var j :| 0 <= j < |Flatten(asks)| && Flatten(asks)[j] == n;
          assert Nodes()[i] == x && Nodes()[|Flatten(bids)| + j] == n;
        }
        FindsNothing(Flatten(bids), n.id, n.user);
      }
    }

    /** What a cancelled order's side becomes, and that this is what the flat book becomes. */
    lemma DropBid(n: OrderNode, orderId: nat)
      requires Valid() && n in Nodes() && n.side.Buy? && n.id == CancelKey(orderId)
      ensures var rest := DropOrder(bids, n.price, n.id);
              && LevelsOk(Buy, rest)
              && Set(Flatten(rest) + Flatten(asks)) == Set(Nodes()) - {n}
              && Cancel(View(), orderId, n.user)
                 == Cancelled(Book(tickerId, Values(Flatten(rest)), Values(Flatten(asks))), Some(n.Value()))
    {
      Located(n);
      SidesApart();
      var i := Find(View().bids, n.id, n.user);
      DropSide(Buy, bids, i, n);
      SetWithout(Flatten(bids), Flatten(DropOrder(bids, n.price, n.id)), Flatten(asks), n);
    }

    lemma DropAsk(n: OrderNode, orderId: nat)
      requires Valid() && n in Nodes() && n.side.Sell? && n.id == CancelKey(orderId)
      ensures var rest := DropOrder(asks, n.price, n.id);
              && LevelsOk(Sell, rest)
              && Set(Flatten(bids) + Flatten(rest)) == Set(Nodes()) - {n}
              && Cancel(View(), orderId, n.user)
                 == Cancelled(Book(tickerId, Values(Flatten(bids)), Values(Flatten(rest))), Some(n.Value()))
    {
      Located(n);
      SidesApart();
      var j := Find(View().asks, n.id, n.user);
      DropSide(Sell, asks, j, n);
      SetWithout(Flatten(asks), Flatten(DropOrder(asks, n.price, n.id)), Flatten(bids), n);
    }

    /** A bid leaves its price level and the index; an empty level leaves the map. */
    method CancelBid(n: OrderNode, ghost orderId: nat)
      requires Valid() && n in Nodes() && n.side.Buy? && n.id == CancelKey(orderId)
      modifies this`bids, this`asks, this`active
      ensures asks == old(asks) && LevelsOk(Buy, bids) && Indexed(active, Set(Nodes()))
      ensures Set(Nodes()) <= old(Set(Nodes()))
      ensures Cancel(old(View()), orderId, n.user) == Cancelled(View(), Some(n.Value()))
    {
      DropBid(n, orderId);
      EraseIndexed(active, Set(Nodes()), n);
      active := Erase(active, n.user, n.id);
      SetSides(DropOrder(bids, n.price, n.id), asks);
    }

    /** An ask leaves its price level and the index. */
    method CancelAsk(n: OrderNode, ghost orderId: nat)
      requires Valid() && n in Nodes() && n.side.Sell? && n.id == CancelKey(orderId)
      modifies this`bids, this`asks, this`active
      ensures bids == old(bids) && LevelsOk(Sell, asks) && Indexed(active, Set(Nodes()))
      ensures Set(Nodes()) <= old(Set(Nodes()))
      ensures Cancel(old(View()), orderId, n.user) == Cancelled(View(), Some(n.Value()))
    {
      DropAsk(n, orderId);
      EraseIndexed(active, Set(Nodes()), n);
      active := Erase(active, n.user, n.id);
      SetSides(bids, DropOrder(asks, n.price, n.id));
    }

    /**
     Cancelling looks the order up by the low 32 bits of the requested id, and
     takes it out of its price level and out of the index.
     */
    method CancelOrder(orderId: nat, user: nat) returns (order: OrderNode?)
      requires Valid()
      modifies this`asks, this`bids, this`active
      ensures Valid()
      ensures var c := Cancel(old(View()), orderId, user);
              View() == c.book && c.order == if order == null then None else Some(order.Value())
      ensures order != null ==> order in old(Nodes())
      ensures Set(Nodes()) <= old(Set(Nodes()))
    {
      var key := CancelKey(orderId);
      if user !in active || key !in active[user] {
        NotIndexed(key, user);
        return null;
      }
      order := active[user][key];
      BookLaws.CancelKeepsValid(View(), orderId, user);
      if order.side.Buy? {
        CancelBid(order, orderId);
      } else {
        CancelAsk(order, orderId);
      }
    }

    lemma BestFirst()
      requires FlatBook.Valid(View())
      ensures View().bids != [] ==> forall o :: o in View().bids ==> o.price <= View().bids[0].price
      ensures View().asks != [] ==> forall o :: o in View().asks ==> View().asks[0].price <= o.price
      ensures View().bids != [] && View().asks != [] ==> View().bids[0].price < View().asks[0].price
    {
      if View().bids != [] { GoodTail(tickerId, Buy, View().bids); }
      if View().asks != [] { GoodTail(tickerId, Sell, View().asks); }
      BestApart(View());
    }

    /**
     Zero stands for an empty side; otherwise no resting order beats the price that is
     reported, as a signed number. The bid is below the ask unless only the ask is too
     large for one.
     */
    method GetBestBidOffer() returns (bestBid: int, bestAsk: int)
      requires Valid()
      ensures View().bids == [] ==> bestBid == 0
      ensures View().asks == [] ==> bestAsk == 0
      ensures View().bids != [] ==>
                bestBid == I64(View().bids[0].price) && forall o :: o in View().bids ==> o.price <= View().bids[0].price
      ensures View().asks != [] ==>
                bestAsk == I64(View().asks[0].price) && forall o :: o in View().asks ==> View().asks[0].price <= o.price
      ensures View().bids != [] && View().asks != [] && View().asks[0].price < TWO64 ==>
                (bestBid < bestAsk <==> (View().bids[0].price < TWO63 <==> View().asks[0].price < TWO63))
    {
      FrontPrice(Buy, bids);
      FrontPrice(Sell, asks);
      BestFirst();
      bestBid := if bids == [] then 0 else I64(bids[0].price);
      bestAsk := if asks == [] then 0 else I64(asks[0].price);
      if bids != [] && asks != [] && asks[0].price < TWO64 {
        SignedOrder(bids[0].price, asks[0].price);
      }
    }

    /** A user's active orders are exactly the user's resting orders, once each. */
    method GetUserActiveOrder(user: nat) returns (orders: seq<OrderNode>)
      requires Valid()
      ensures NoDup(orders)
      ensures forall n :: n in orders <==> n in Nodes() && n.user == user
    {
      orders := [];
      assert forall n :: n in Nodes() <==> n in Set(Nodes());
      if user !in active { return; }
      orders := ListOrders(active[user]);
    }

    /** The orders of a map, in any order. */
    method ListOrders(mine: map<nat, OrderNode>) returns (orders: seq<OrderNode>)
      requires forall id :: id in mine ==> mine[id].id == id
      ensures NoDup(orders)
      ensures forall n :: n in orders <==> n.id in mine && mine[n.id] == n
    {
      orders := [];
      var ids := mine.Keys;
      while ids != {}
        invariant ids <= mine.Keys
        invariant forall n :: n in orders <==> n.id in mine && mine[n.id] == n && n.id !in ids
        invariant NoDup(orders)
      {
        var id :| id in ids;
        orders := orders + [mine[id]];
        ids := ids - {id};
      }
    }
  }
}
