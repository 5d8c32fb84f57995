/** What every step keeps about where orders, fills and cancel records have gone. */
module PipelineHistory {
  import opened Orders
  import opened Sums
  import opened Measures
  import opened FlatBook
  import opened BookLaws
  import opened Replay
  import opened Wal
  import opened Accounts
  import opened Pipeline

  // ------------------------------------------------------ fills and cancel records

  lemma {:induction false} FillsConcat(xs: seq<MatchRecord>, ys: seq<MatchRecord>, t: nat)
    ensures FillsOf(xs + ys, t) == FillsOf(xs, t) + FillsOf(ys, t)
  {
    if xs == [] {
      assert xs + ys == ys;
    } else {
      assert (xs + ys)[1..] == xs[1..] + ys;
      FillsConcat(xs[1..], ys, t);
      ConcatAssoc(if xs[0].ticker == t then [xs[0]] else [], FillsOf(xs[1..], t), FillsOf(ys, t));
    }
  }

  lemma {:induction false} FillsOfOne(rs: seq<MatchRecord>, u: nat, t: nat)
    requires forall r :: r in rs ==> r.ticker == u
    ensures FillsOf(rs, t) == if t == u then rs else []
  {
    if rs != [] {
      assert rs[0] in rs && rs == [rs[0]] + rs[1..];
      FillsOfOne(rs[1..], u, t);
    }
  }

  lemma {:induction false} CancelsConcat(xs: seq<CancelRecord>, ys: seq<CancelRecord>, t: nat)
    ensures CancelsOf(xs + ys, t) == CancelsOf(xs, t) + CancelsOf(ys, t)
  {
    if xs == [] {
      assert xs + ys == ys;
    } else {
      assert (xs + ys)[1..] == xs[1..] + ys;
      CancelsConcat(xs[1..], ys, t);
      ConcatAssoc(if xs[0].ticker == t then [xs[0]] else [], CancelsOf(xs[1..], t), CancelsOf(ys, t));
    }
  }

  lemma {:induction false} MatchTicker(ticker: nat, makers: seq<Order>, taker: Order)
    ensures forall r :: r in Match(ticker, makers, taker).records ==> r.ticker == ticker
  {
    if makers != [] && taker.qty > 0 && Crosses(taker, makers[0].price) {
      var q := Min(taker.qty, makers[0].qty);
      MatchTicker(ticker, makers[1..], taker.(qty := taker.qty - q));
    }
  }

  /** All that a book yields for an event carries the book's ticker. */
  lemma YieldsOwnTicker(p: Progress, e: Event, t: nat)
    requires Valid(p.book) && p.book.ticker == t
    ensures forall r :: r in NewRecords(p, e) ==> r.ticker == t
    ensures CancelsOf(NewCancels(p, e), t) == NewCancels(p, e)
    ensures forall u :: u != t ==> CancelsOf(NewCancels(p, e), u) == []
  {
    if e.NewOrder? {
      MatchTicker(t, if e.order.side.Buy? then p.book.asks else p.book.bids, e.order);
    } else {
      CancelConserves(Volume(0), p.book, e.id, e.user);
      var c := Cancel(p.book, e.id, e.user).order;
      if c.Some? {
        assert c.value in p.book.bids || c.value in p.book.asks;
        assert c.value.ticker == t;
      }
    }
  }

  lemma HandleKeepsRecordedAt(s: State, t: nat, u: nat)
    requires Enabled(s, BookHandle(t)) && BookValid(s, t) && u in s.threads && RecordedAt(s, u)
    ensures RecordedAt(Apply(s, BookHandle(t)), u)
  {
    var th := s.threads[t];
    var p, e := th.done, th.batch[0];
    YieldsOwnTicker(p, e, t);
    CancelsConcat(s.history.cancelled, NewCancels(p, e), u);
    if u == t {
      ConcatAssoc(FillsOf(s.history.published, t), th.results, NewRecords(p, e));
      ConcatNil(p.records, []);
      ConcatNil(p.cancels, []);
      ConcatNil(th.results, []);
    } else {
      ConcatNil(CancelsOf(s.history.cancelled, u), []);
    }
  }

  lemma PublishKeepsRecordedAt(s: State, t: nat, u: nat)
    requires Enabled(s, BookPublish(t)) && RecordedAt(s, t) && u in s.threads && RecordedAt(s, u)
    ensures RecordedAt(Apply(s, BookPublish(t)), u)
  {
    var th := s.threads[t];
    FillsConcat(s.history.published, th.results, u);
    FillsOfOne(th.results, t, u);
    ConcatNil(FillsOf(s.history.published, u), []);
    ConcatNil(FillsOf(s.history.published, u) + th.results, []);
  }

  lemma RemovedOne<T>(xs: seq<T>, i: nat)
    requires i < |xs|
    ensures multiset(xs) == multiset(RemoveAt(xs, i)) + multiset{xs[i]}
  {
    assert xs == xs[..i] + [xs[i]] + xs[i + 1..];
  }

  /** Other steps change neither a thread's records nor the history of the queues' fills and cancels. */
  lemma OtherKeepsRecordedAt(s: State, a: Action, u: nat)
    requires Enabled(s, a) && !a.BookHandle? && !a.BookPublish?
    requires u in s.threads && RecordedAt(s, u)
    ensures u in Apply(s, a).threads && RecordedAt(Apply(s, a), u)
  {
    var h, n := s.history, Apply(s, a);
    assert n.history.published == h.published && n.history.cancelled == h.cancelled;
    assert u in n.threads && n.threads[u].results == s.threads[u].results && n.threads[u].done == s.threads[u].done;
  }

  lemma StepKeepsRecordedAt(s: State, a: Action, u: nat)
    requires BooksValid(s) && Enabled(s, a) && u in s.threads && RecordedAt(s, u)
    requires a.BookPublish? ==> RecordedAt(s, a.ticker)
    ensures u in Apply(s, a).threads && RecordedAt(Apply(s, a), u)
  {
    if a.BookHandle? {
      assert BookValid(s, a.ticker);
      HandleKeepsRecordedAt(s, a.ticker, u);
    } else if a.BookPublish? {
      PublishKeepsRecordedAt(s, a.ticker, u);
    } else {
      OtherKeepsRecordedAt(s, a, u);
    }
  }

  lemma StepKeepsFills(s: State, a: Action)
    requires Enabled(s, a)
    requires multiset(s.history.published) == multiset(s.matchQueue) + multiset(s.history.settled)
    ensures var n := Apply(s, a);
            multiset(n.history.published) == multiset(n.matchQueue) + multiset(n.history.settled)
  {
    if a.SettleTake? { RemovedOne(s.matchQueue, a.i); }
  }

  lemma StepKeepsCancels(s: State, a: Action)
    requires Enabled(s, a)
    requires multiset(s.history.cancelled) == multiset(s.cancelQueue) + multiset(s.history.unfrozen)
    ensures var n := Apply(s, a);
            multiset(n.history.cancelled) == multiset(n.cancelQueue) + multiset(n.history.unfrozen)
  {
    if a.SettleCancel? { RemovedOne(s.cancelQueue, a.i); }
  }

  lemma StepKeepsRecorded(s: State, a: Action)
    requires BooksValid(s) && Recorded(s) && Enabled(s, a)
    ensures Recorded(Apply(s, a))
  {
    StepKeepsFills(s, a);
    StepKeepsCancels(s, a);
    forall u | u in Apply(s, a).threads ensures RecordedAt(Apply(s, a), u) {
      StepKeepsRecordedAt(s, a, u);
    }
  }

  // ----------------------------------------------------------------- where orders are

  lemma InRest<T>(xs: seq<T>, i: nat, x: T)
    requires i < |xs|
    ensures x in xs <==> x == xs[i] || x in RemoveAt(xs, i)
  {
    assert xs == xs[..i] + [xs[i]] + xs[i + 1..];
  }

  lemma StepTraces(s: State, a: Action, o: Order)
    requires Enabled(s, a) && TracedAt(s, o)
    ensures TracedAt(Apply(s, a), o)
  {
    match a
    case Append(i) => InRest(s.handed, i, o);
    case WalTake(i) => InRest(s.walQueue, i, NewOrder(o));
    case WalDispatch => assert s.walBatch == [s.walBatch[0]] + s.walBatch[1..];
    case _ =>
  }

  lemma StepKeepsTraced(s: State, a: Action)
    requires Traced(s) && Enabled(s, a)
    ensures Traced(Apply(s, a))
  {
    forall o ensures TracedAt(Apply(s, a), o) {
      assert TracedAt(s, o);
      StepTraces(s, a, o);
    }
  }

  lemma PositivePart(m: Measure, os: seq<Order>, o: Order)
    requires o in os
    ensures OrderWeight(m, o) <= InOrders(m, os)
  {
    SumSeqBounds(os, OfOrder(m));
    assert OfOrder(m)(o) <= SumSeq(os, OfOrder(m));
  }

  lemma PositiveEvent(m: Measure, es: seq<Event>, o: Order)
    requires NewOrder(o) in es
    ensures OrderWeight(m, o) <= InEvents(m, es)
  {
    SumSeqBounds(es, OfEvent(m));
    assert OfEvent(m)(NewOrder(o)) <= SumSeq(es, OfEvent(m));
  }

  lemma {:induction false} NoneWeighs(m: Measure, os: seq<Order>)
    requires forall o :: o in os ==> OrderWeight(m, o) == 0
    ensures InOrders(m, os) == 0
  {
    if os != [] {
      assert os[0] in os;
      NoneWeighs(m, os[1..]);
    }
  }

  /** With nothing under way to the engine, dropped orders claim nothing iff all orders that claim something have a book. */
  lemma DroppedIsUnrouted(s: State, a: Asset)
    requires Traced(s)
    requires InOrders(Claim(a), s.handed) == 0 && InEvents(Claim(a), s.walQueue) == 0 && InEvents(Claim(a), s.walBatch) == 0
    ensures InOrders(Claim(a), s.dropped) == 0 <==>
            forall o :: o in s.history.admitted && OrderWeight(Claim(a), o) > 0 ==> o.ticker in s.threads
  {
    var m := Claim(a);
    if InOrders(m, s.dropped) == 0 {
      forall o | o in s.history.admitted && OrderWeight(m, o) > 0 ensures o.ticker in s.threads {
        assert TracedAt(s, o);
        if o.ticker !in s.threads {
          if o in s.handed { PositivePart(m, s.handed, o); }
          if o in s.dropped { PositivePart(m, s.dropped, o); }
          if NewOrder(o) in s.walQueue { PositiveEvent(m, s.walQueue, o); }
          if NewOrder(o) in s.walBatch { PositiveEvent(m, s.walBatch, o); }
          assert false;
        }
      }
    } else if forall o :: o in s.history.admitted && OrderWeight(m, o) > 0 ==> o.ticker in s.threads {
      forall o | o in s.dropped ensures OrderWeight(m, o) == 0 { assert TracedAt(s, o); }
      NoneWeighs(m, s.dropped);
    }
  }
}
