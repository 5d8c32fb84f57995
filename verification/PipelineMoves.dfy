/** Steps that only move work from one place to the next: no total changes. */
module PipelineMoves {
  import opened Orders
  import opened Sums
  import opened Measures
  import opened FlatBook
  import opened BookLaws
  import opened Replay
  import opened Wal
  import opened Accounts
  import opened Settlement
  import opened Pipeline

  /** Nothing in flight gained or lost weight, and accounts and database are as before. */
  ghost predicate Moved(s: State, s': State) {
    && s'.ledger == s.ledger && s'.db == s.db && s'.deposits == s.deposits
    && s'.cashIn == s.cashIn && s'.origin == s.origin && s'.usedIds == s.usedIds
    && (s'.current == s.current || (s.current.None? && s'.current.Some? && s'.current.value.pc == 0))
    && forall m :: MovedAt(s, s', m)
  }

  ghost predicate MovedAt(s: State, s': State, m: Measure) {
    && (Conserved(m) ==> Total(s', m) == Total(s, m))
    && (m.Ident? ==> Total(s', m) <= Total(s, m))
    && (m.Broken? && Total(s, m) == 0 ==> Total(s', m) == 0)
  }

  /** Invariants that look only at totals, accounts and database survive every move. */
  lemma MovedKeeps(s: State, s': State)
    requires Accounted(s) && Unique(s) && Sound(s) && Supplied(s) && Mirrored(s) && Moved(s, s')
    ensures Accounted(s') && Unique(s') && Sound(s') && Supplied(s') && Mirrored(s')
  {
    forall a ensures AccountedAt(s', a) { assert AccountedAt(s, a) && MovedAt(s, s', Claim(a)); }
    forall i ensures UniqueAt(s', i) { assert UniqueAt(s, i) && MovedAt(s, s', Ident(i)); }
    forall k ensures SuppliedAt(s', k) { assert SuppliedAt(s, k); }
    forall a ensures MirroredAt(s', a) { assert MirroredAt(s, a); }
    assert MovedAt(s, s', Broken(s.ledger.Keys));
  }

  lemma ThreadChanged(s: State, t: nat, th: Thread, m: Measure)
    requires t in s.threads
    ensures InThreads(m, s.threads[t := th]) == InThreads(m, s.threads) - ThreadWeight(m, s.threads[t]) + ThreadWeight(m, th)
  {
    SumMapUpdate(s.threads, t, th, OfThread(m));
  }

  lemma AppendMoves(s: State, i: nat)
    requires Enabled(s, Append(i))
    ensures Moved(s, Apply(s, Append(i)))
  {
    var s' := Apply(s, Append(i));
    forall m ensures MovedAt(s, s', m) {
      SumSeqRemove(s.handed, i, OfOrder(m));
      SumSeqAppend(s.walQueue, NewOrder(s.handed[i]), OfEvent(m));
    }
  }

  lemma RequestCancelMoves(s: State, t: nat, id: nat, u: nat)
    ensures Moved(s, Apply(s, RequestCancel(t, id, u)))
  {
    var s' := Apply(s, RequestCancel(t, id, u));
    forall m ensures MovedAt(s, s', m) {
      SumSeqAppend(s.walQueue, CancelOrder(t, id, u), OfEvent(m));
    }
  }

  lemma WalTakeMoves(s: State, i: nat)
    requires Enabled(s, WalTake(i))
    ensures Moved(s, Apply(s, WalTake(i)))
  {
    var s' := Apply(s, WalTake(i));
    forall m ensures MovedAt(s, s', m) {
      SumSeqRemove(s.walQueue, i, OfEvent(m));
      SumSeqAppend(s.walBatch, s.walQueue[i], OfEvent(m));
    }
  }

  lemma WalWriteMoves(s: State)
    requires Enabled(s, WalWrite)
    ensures Moved(s, Apply(s, WalWrite))
  {
    var s' := Apply(s, WalWrite);
    forall m ensures MovedAt(s, s', m) {}
  }

  lemma WalDispatchMoves(s: State)
    requires Enabled(s, WalDispatch)
    ensures Moved(s, Apply(s, WalDispatch))
  {
    var s' := Apply(s, WalDispatch);
    var e := s.walBatch[0];
    var t := TickerOf(e);
    forall m ensures MovedAt(s, s', m) {
      if t in s.threads {
        SumSeqAppend(s.threads[t].queue, e, OfEvent(m));
        ThreadChanged(s, t, s.threads[t].(queue := s.threads[t].queue + [e]), m);
      } else if e.NewOrder? {
        SumSeqAppend(s.dropped, e.order, OfOrder(m));
      } else {
        assert s.dropped + [] == s.dropped;
      }
    }
  }

  lemma BookTakeMoves(s: State, t: nat, n: nat)
    requires Enabled(s, BookTake(t, n))
    ensures Moved(s, Apply(s, BookTake(t, n)))
  {
    var s' := Apply(s, BookTake(t, n));
    var th := s.threads[t];
    forall m ensures MovedAt(s, s', m) {
      assert th.queue == th.queue[..n] + th.queue[n..];
      SumSeqConcat(th.queue[..n], th.queue[n..], OfEvent(m));
      ThreadChanged(s, t, s'.threads[t], m);
    }
  }

  lemma BookPublishMoves(s: State, t: nat)
    requires Enabled(s, BookPublish(t))
    ensures Moved(s, Apply(s, BookPublish(t)))
  {
    var s' := Apply(s, BookPublish(t));
    var th := s.threads[t];
    forall m ensures MovedAt(s, s', m) {
      SumSeqConcat(s.matchQueue, th.results, OfRecord(m));
      ThreadChanged(s, t, s'.threads[t], m);
    }
  }

  lemma SettleTakeMoves(s: State, i: nat)
    requires Enabled(s, SettleTake(i))
    ensures Moved(s, Apply(s, SettleTake(i)))
  {
    var s' := Apply(s, SettleTake(i));
    forall m ensures MovedAt(s, s', m) {
      SumSeqRemove(s.matchQueue, i, OfRecord(m));
    }
  }

  // ------------------------------------------------------- handling one event

  /** Matching and cancelling move weight from the event and the book to fills and cancel records. */
  lemma HandleWeights(m: Measure, p: Progress, e: Event)
    requires Valid(p.book) && Admissible(p.book, e)
    ensures var b := Handle(p, e).book;
            var out := InBook(m, b) + InRecords(m, NewRecords(p, e)) + InCancels(m, NewCancels(p, e));
            && (Conserved(m) ==> out == InBook(m, p.book) + EventWeight(m, e))
            && (m.Ident? ==> out <= InBook(m, p.book) + EventWeight(m, e))
  {
    if e.NewOrder? {
      if Conserved(m) { ProcessConserves(m, p.book, e.order); }
      if m.Ident? {
        ProcessKeepsIds(m.id, p.book, e.order);
        NoIdents(m.id, Process(p.book, e.order).records);
      }
    } else {
      CancelConserves(m, p.book, e.id, e.user);
      var c := Cancel(p.book, e.id, e.user).order;
      if c.Some? { SumSeqOne(ToCancelRecord(c.value), OfCancel(m)); }
    }
  }

  lemma {:induction false} NoIdents(id: nat, rs: seq<MatchRecord>)
    ensures InRecords(Ident(id), rs) == 0
  {
    if rs != [] { NoIdents(id, rs[1..]); }
  }

  lemma HandleSound(users: set<nat>, p: Progress, e: Event)
    requires Valid(p.book) && InBook(Broken(users), p.book) == 0 && EventWeight(Broken(users), e) == 0
    ensures InBook(Broken(users), Handle(p, e).book) == 0
    ensures InRecords(Broken(users), NewRecords(p, e)) == 0 && InCancels(Broken(users), NewCancels(p, e)) == 0
  {
    if e.NewOrder? {
      ProcessKeepsSound(users, p.book, e.order);
    } else {
      CancelConserves(Broken(users), p.book, e.id, e.user);
      var c := Cancel(p.book, e.id, e.user).order;
      if c.Some? { SumSeqOne(ToCancelRecord(c.value), OfCancel(Broken(users))); }
    }
  }

  /** The order a thread is about to process has an id that is not resting in its book. */
  lemma NextIsAdmissible(s: State, t: nat)
    requires Unique(s) && BooksValid(s) && Enabled(s, BookHandle(t))
    ensures Admissible(s.threads[t].done.book, s.threads[t].batch[0])
  {
    var th := s.threads[t];
    var e := th.batch[0];
    assert BookValid(s, t) && e in th.batch && TickerOf(e) == t;
    if e.NewOrder? {
      assert UniqueAt(s, e.order.id);
      var m := Ident(e.order.id);
      SumMapBounds(s.threads, OfThread(m));
      assert OfThread(m)(th) <= InThreads(m, s.threads) <= Total(s, m) <= 1;
      assert InEvents(m, th.batch) >= EventWeight(m, e) == 1 by { SumSeqBounds(th.batch, OfEvent(m)); }
      assert InBook(m, th.done.book) == 0;
      BookCount(th.done.book, e.order.id);
      var all := th.done.book.bids + th.done.book.asks;
      SumSeqBounds(all, OfOrder(m));
      assert forall o :: o in all ==> OfOrder(m)(o) <= 0;
    }
  }

  lemma BookHandleTotal(s: State, t: nat, m: Measure)
    requires Unique(s) && BooksValid(s) && Enabled(s, BookHandle(t))
    ensures MovedAt(s, Apply(s, BookHandle(t)), m)
  {
    NextIsAdmissible(s, t);
    assert BookValid(s, t);
    var th := s.threads[t];
    var p, e := th.done, th.batch[0];
    SumSeqConcat(th.results, NewRecords(p, e), OfRecord(m));
    SumSeqConcat(s.cancelQueue, NewCancels(p, e), OfCancel(m));
    ThreadChanged(s, t, HandleNext(th), m);
    if m.Broken? {
      SumMapBounds(s.threads, OfThread(m));
      assert OfThread(m)(th) <= InThreads(m, s.threads);
      if Total(s, m) == 0 { HandleSound(m.users, p, e); }
    } else {
      HandleWeights(m, p, e);
    }
  }

  lemma BookHandleMoves(s: State, t: nat)
    requires Unique(s) && BooksValid(s) && Enabled(s, BookHandle(t))
    ensures Moved(s, Apply(s, BookHandle(t)))
  {
    var s' := Apply(s, BookHandle(t));
    forall m ensures MovedAt(s, s', m) {
      BookHandleTotal(s, t, m);
    }
  }
}
