/**
 The sequential meaning of one ticker's event stream: fold processing and
 cancelling over the events, collecting every fill and every cancel record.
 */
module Replay {
  import opened Orders
  import opened Sums
  import opened Measures
  import opened FlatBook
  import opened BookLaws

  datatype Progress = Progress(book: Book, records: seq<MatchRecord>, cancels: seq<CancelRecord>)

  function Start(ticker: nat): Progress {
    Progress(Empty(ticker), [], [])
  }

  function Handle(p: Progress, e: Event): Progress {
    if e.NewOrder? then
      var done := Process(p.book, e.order);
      Progress(done.book, p.records + done.records, p.cancels)
    else
      var c := Cancel(p.book, e.id, e.user);
      Progress(c.book, p.records, p.cancels + if c.order.Some? then [ToCancelRecord(c.order.value)] else [])
  }

  function HandleAll(p: Progress, events: seq<Event>): Progress
    decreases |events|
  {
    if events == [] then p else HandleAll(Handle(p, events[0]), events[1..])
  }

  lemma {:induction false} HandleAllConcat(p: Progress, xs: seq<Event>, ys: seq<Event>)
    ensures HandleAll(p, xs + ys) == HandleAll(HandleAll(p, xs), ys)
    decreases |xs|
  {
    if xs == [] {
      assert xs + ys == ys;
    } else {
      assert (xs + ys)[1..] == xs[1..] + ys;
      HandleAllConcat(Handle(p, xs[0]), xs[1..], ys);
    }
  }

  lemma HandleLast(p: Progress, xs: seq<Event>, e: Event)
    ensures HandleAll(p, xs + [e]) == Handle(HandleAll(p, xs), e)
  {
    HandleAllConcat(p, xs, [e]);
  }

  /** An event may be handled when it is for this ticker and brings no id that is already resting. */
  predicate Admissible(b: Book, e: Event) {
    e.NewOrder? ==> e.order.ticker == b.ticker && !HasId(b, e.order.id)
  }

  /** Everything that a measure sees at one ticker: the book, all fills and all cancels so far. */
  function InProgress(m: Measure, p: Progress): nat {
    InBook(m, p.book) + InRecords(m, p.records) + InCancels(m, p.cancels)
  }

  /** One event: the book stays valid and conserved weight is neither lost nor created. */
  lemma HandleConserves(m: Measure, p: Progress, e: Event)
    requires Conserved(m) && Valid(p.book) && Admissible(p.book, e)
    ensures var q := Handle(p, e);
            && Valid(q.book) && q.book.ticker == p.book.ticker
            && InProgress(m, q) == InProgress(m, p) + EventWeight(m, e)
  {
    if e.NewOrder? {
      ProcessKeepsValid(p.book, e.order);
      ProcessConserves(m, p.book, e.order);
      SumSeqConcat(p.records, Process(p.book, e.order).records, OfRecord(m));
    } else {
      CancelKeepsValid(p.book, e.id, e.user);
      CancelConserves(m, p.book, e.id, e.user);
      var c := Cancel(p.book, e.id, e.user);
      if c.order.Some? {
        SumSeqAppend(p.cancels, ToCancelRecord(c.order.value), OfCancel(m));
      } else {
        assert p.cancels + [] == p.cancels;
      }
    }
  }

  /** One ticker's stream in which every new order carries an id of its own. */
  predicate Stream(ticker: nat, events: seq<Event>) {
    && (forall e :: e in events && e.NewOrder? ==> e.order.ticker == ticker)
    && (forall i, j :: 0 <= i < j < |events| && events[i].NewOrder? && events[j].NewOrder? ==>
          events[i].order.id != events[j].order.id)
  }

  /** Ids never seen before cannot be resting. */
  lemma {:induction false} RestingCameFrom(ticker: nat, events: seq<Event>, id: nat)
    requires HasId(HandleAll(Start(ticker), events).book, id)
    ensures exists e :: e in events && e.NewOrder? && e.order.id == id
    decreases |events|
  {
    if events != [] {
      var front, e := events[..|events| - 1], events[|events| - 1];
      assert events == front + [e];
      HandleLast(Start(ticker), front, e);
      var b := HandleAll(Start(ticker), front).book;
      if HasId(b, id) {
        RestingCameFrom(ticker, front, id);
        var x :| x in front && x.NewOrder? && x.order.id == id;
        assert x in events;
      } else {
        NewIdIsOwn(b, e, id);
      }
    }
  }

  lemma NewIdIsOwn(b: Book, e: Event, id: nat)
    requires !HasId(b, id) && HasId(Handle(Progress(b, [], []), e).book, id)
    ensures e.NewOrder? && e.order.id == id
  {
    HasIdIsCount(b, id);
    HasIdIsCount(Handle(Progress(b, [], []), e).book, id);
    HandleKeepsIds(b, e, id);
  }

  lemma HandleKeepsIds(b: Book, e: Event, id: nat)
    ensures InBook(Ident(id), Handle(Progress(b, [], []), e).book) <= InBook(Ident(id), b) + EventWeight(Ident(id), e)
  {
    match e
    case NewOrder(o) => ProcessKeepsIds(id, b, o);
    case CancelOrder(_, key, user) => CancelConserves(Ident(id), b, key, user);
  }

  lemma HasIdIsCount(b: Book, id: nat)
    ensures HasId(b, id) <==> InBook(Ident(id), b) > 0
  {
    BookCount(b, id);
    var all := b.bids + b.asks;
    if HasId(b, id) {
      var o :| o in all && o.id == id;
      SumSeqBounds(all, OfOrder(Ident(id)));
      assert OfOrder(Ident(id))(o) == 1;
    } else {
      NoIdCount(all, id);
    }
  }

  lemma {:induction false} NoIdCount(orders: seq<Order>, id: nat)
    requires forall o :: o in orders ==> o.id != id
    ensures InOrders(Ident(id), orders) == 0
  {
    if orders != [] {
      assert orders[0] in orders;
      NoIdCount(orders[1..], id);
    }
  }

  /**
   Over any stream: the book stays valid, and for each order id the quantity that
   entered equals what is resting, plus its fills, plus what was cancelled; the
   same balance holds for every asset's claims.
   */
  lemma {:induction false} StreamConserves(m: Measure, ticker: nat, events: seq<Event>)
    requires Conserved(m) && Stream(ticker, events)
    ensures var p := HandleAll(Start(ticker), events);
            && Valid(p.book) && p.book.ticker == ticker
            && InProgress(m, p) == InEvents(m, events)
    decreases |events|
  {
    if events != [] {
      var front, e := events[..|events| - 1], events[|events| - 1];
      assert events == front + [e];
      StreamConserves(m, ticker, front);
      HandleLast(Start(ticker), front, e);
      SumSeqAppend(front, e, OfEvent(m));
      var p := HandleAll(Start(ticker), front);
      if e.NewOrder? && HasId(p.book, e.order.id) {
        RestingCameFrom(ticker, front, e.order.id);
        assert false;
      }
      HandleConserves(m, p, e);
    }
  }

  function CountNew(events: seq<Event>): nat {
    if events == [] then 0 else (if events[0].NewOrder? then 1 else 0) + CountNew(events[1..])
  }

  lemma {:induction false} CountNewLast(xs: seq<Event>, e: Event)
    ensures CountNew(xs + [e]) == CountNew(xs) + if e.NewOrder? then 1 else 0
  {
    if xs != [] {
      assert (xs + [e])[1..] == xs[1..] + [e];
      CountNewLast(xs[1..], e);
    }
  }

  /** Over any stream, fills, cancels and resting orders together never outnumber the orders that came in. */
  lemma {:induction false} StreamCountsFills(ticker: nat, events: seq<Event>)
    requires Stream(ticker, events)
    ensures var p := HandleAll(Start(ticker), events);
            |p.records| + |p.cancels| + Size(p.book) <= CountNew(events)
    decreases |events|
  {
    if events != [] {
      var front, e := events[..|events| - 1], events[|events| - 1];
      assert events == front + [e];
      StreamCountsFills(ticker, front);
      StreamConserves(Volume(0), ticker, front);
      HandleLast(Start(ticker), front, e);
      CountNewLast(front, e);
      if e.NewOrder? {
        ProcessCountsFills(HandleAll(Start(ticker), front).book, e.order);
      }
    }
  }
}
