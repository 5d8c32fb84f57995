/**
 One round of each loop of the program is a run of the step machine: settling two
 batches, handling a batch of events, logging and routing a batch, admitting an order.
 */
module PipelineLoops {
  import opened Orders
  import opened Sums
  import opened Measures
  import opened FlatBook
  import opened BookLaws
  import opened Replay
  import opened Wal
  import opened Accounts
  import opened Settlement
  import opened Pipeline
  import opened PipelineRuns

  // -------------------------------------------------------------- settlement

  /** Taking a fill and making its six updates settles the fill. */
  lemma SettlesOne(s0: State, s: State) returns (n: State)
    requires Leads(s0, s, true) && s.current == None && s.matchQueue != []
    ensures Leads(s0, n, true) && n.current == None
    ensures n.matchQueue == s.matchQueue[1..] && n.cancelQueue == s.cancelQueue
    ensures Holdings(n.ledger, n.db) == SettleRecord(Holdings(s.ledger, s.db), s.matchQueue[0])
  {
    assert RemoveAt(s.matchQueue, 0) == s.matchQueue[1..];
    n := Next(s0, s, true, SettleTake(0));
    n := Next(s0, n, true, SettleStep);
    n := Next(s0, n, true, SettleStep);
    n := Next(s0, n, true, SettleStep);
    n := Next(s0, n, true, SettleStep);
    n := Next(s0, n, true, SettleStep);
    n := Next(s0, n, true, SettleStep);
  }

  lemma {:induction false} SettlesFills(s0: State, s: State, m: nat) returns (n: State)
    requires Leads(s0, s, true) && s.current == None && m <= |s.matchQueue|
    ensures Leads(s0, n, true) && n.current == None
    ensures n.matchQueue == s.matchQueue[m..] && n.cancelQueue == s.cancelQueue
    ensures Holdings(n.ledger, n.db) == SettleRecords(Holdings(s.ledger, s.db), s.matchQueue[..m])
    decreases m
  {
    if m == 0 {
      n := s;
    } else {
      n := SettlesFills(s0, s, m - 1);
      n := SettlesOne(s0, n);
      assert s.matchQueue[..m][..m - 1] == s.matchQueue[..m - 1];
    }
  }

  lemma {:induction false} SettlesCancels(s0: State, s: State, k: nat) returns (n: State)
    requires Leads(s0, s, true) && s.current == None && k <= |s.cancelQueue|
    ensures Leads(s0, n, true) && n.current == None
    ensures n.matchQueue == s.matchQueue && n.cancelQueue == s.cancelQueue[k..] && n.db == s.db
    ensures n.ledger == SettleCancels(s.ledger, s.cancelQueue[..k])
    decreases k
  {
    if k == 0 {
      n := s;
    } else {
      n := SettlesCancels(s0, s, k - 1);
      assert RemoveAt(n.cancelQueue, 0) == n.cancelQueue[1..];
      n := Next(s0, n, true, Action.SettleCancel(0));
      assert s.cancelQueue[..k][..k - 1] == s.cancelQueue[..k - 1];
    }
  }

  /** A round of the settlement loop: a batch of fills, then a batch of cancels. */
  lemma SettlementRoundIsRun(s: State, m: nat, k: nat) returns (n: State)
    requires s.current == None && m <= |s.matchQueue| && k <= |s.cancelQueue|
    ensures Leads(s, n, true)
    ensures n.matchQueue == s.matchQueue[m..] && n.cancelQueue == s.cancelQueue[k..]
    ensures var h := SettleRecords(Holdings(s.ledger, s.db), s.matchQueue[..m]);
            n.ledger == SettleCancels(h.ledger, s.cancelQueue[..k]) && n.db == h.db
  {
    Stay(s, true);
    n := SettlesFills(s, s, m);
    n := SettlesCancels(s, n, k);
  }

  // -------------------------------------------------------------- book threads

  /** What a stream yields does not depend on what was yielded before. */
  lemma {:induction false} HandleAllFrom(p: Progress, es: seq<Event>)
    ensures var q := HandleAll(Progress(p.book, [], []), es);
            HandleAll(p, es) == Progress(q.book, p.records + q.records, p.cancels + q.cancels)
    decreases |es|
  {
    if es == [] {
      ConcatNil(p.records, []);
      ConcatNil(p.cancels, []);
    } else {
      var one := Handle(Progress(p.book, [], []), es[0]);
      HandleAllFrom(Handle(p, es[0]), es[1..]);
      HandleAllFrom(one, es[1..]);
      var q := HandleAll(Progress(one.book, [], []), es[1..]);
      HandleFrom(p, es[0]);
      ConcatAssoc(p.records, one.records, q.records);
      ConcatAssoc(p.cancels, one.cancels, q.cancels);
    }
  }

  lemma HandleFrom(p: Progress, e: Event)
    ensures var one := Handle(Progress(p.book, [], []), e);
            && one == Progress(Handle(p, e).book, NewRecords(p, e), NewCancels(p, e))
            && Handle(p, e) == Progress(one.book, p.records + one.records, p.cancels + one.cancels)
  {
    ConcatNil(p.records, []);
    ConcatNil(p.cancels, []);
    ConcatNil(NewRecords(p, e), []);
    ConcatNil(NewCancels(p, e), []);
  }

  /** Handling the rest of a batch, one event after another. */
  lemma {:induction false} HandlesBatch(s0: State, s: State, t: nat) returns (n: State)
    requires Leads(s0, s, true) && t in s.threads
    ensures Leads(s0, n, true) && t in n.threads
    ensures var th, b := s.threads[t], n.threads[t];
            var q := HandleAll(Progress(th.done.book, [], []), th.batch);
            && b.queue == th.queue && b.batch == [] && b.done.book == q.book && b.results == th.results + q.records
            && n.cancelQueue == s.cancelQueue + q.cancels && n.matchQueue == s.matchQueue
    decreases |s.threads[t].batch|
  {
    var th := s.threads[t];
    if th.batch == [] {
      n := s;
      ConcatNil(th.results, []);
      ConcatNil(s.cancelQueue, []);
    } else {
      var p, e := th.done, th.batch[0];
      var m := Next(s0, s, true, BookHandle(t));
      n := HandlesBatch(s0, m, t);
      HandleFrom(p, e);
      var one := Handle(Progress(p.book, [], []), e);
      HandleAllFrom(one, th.batch[1..]);
      var q := HandleAll(Progress(one.book, [], []), th.batch[1..]);
      ConcatAssoc(th.results, one.records, q.records);
      ConcatAssoc(s.cancelQueue, one.cancels, q.cancels);
    }
  }

  lemma PublishesAll(s0: State, s: State, t: nat) returns (n: State)
    requires Leads(s0, s, true) && t in s.threads && s.threads[t].batch == []
    ensures Leads(s0, n, true) && t in n.threads && n.threads[t] == s.threads[t].(results := [])
    ensures n.matchQueue == s.matchQueue + s.threads[t].results && n.cancelQueue == s.cancelQueue
  {
    if s.threads[t].results == [] {
      n := s;
      ConcatNil(s.matchQueue, []);
    } else {
      n := Next(s0, s, true, BookPublish(t));
    }
  }

  /** A round of a book thread's loop: a batch of events, cancels queued as they come, fills at the end. */
  lemma BookRoundIsRun(s: State, t: nat, k: nat) returns (n: State)
    requires t in s.threads && s.threads[t].batch == [] && s.threads[t].results == []
    requires 0 < k <= |s.threads[t].queue| && k <= BATCH
    ensures Leads(s, n, true) && t in n.threads
    ensures var th, b := s.threads[t], n.threads[t];
            var q := HandleAll(Progress(th.done.book, [], []), th.queue[..k]);
            && b.queue == th.queue[k..] && b.batch == [] && b.results == [] && b.done.book == q.book
            && n.matchQueue == s.matchQueue + q.records && n.cancelQueue == s.cancelQueue + q.cancels
  {
    Stay(s, true);
    n := Next(s, s, true, BookTake(t, k));
    n := HandlesBatch(s, n, t);
    ConcatNil(HandleAll(Progress(s.threads[t].done.book, [], []), s.threads[t].queue[..k]).records, []);
    n := PublishesAll(s, n, t);
  }

  // ---------------------------------------------------------------- the log

  lemma {:induction false} TakesBatch(s0: State, s: State, k: nat) returns (n: State)
    requires Leads(s0, s, true) && !s.dispatching && |s.walBatch| + k <= BATCH && k <= |s.walQueue|
    ensures Leads(s0, n, true)
    ensures n == s.(walBatch := s.walBatch + s.walQueue[..k], walQueue := s.walQueue[k..])
    decreases k
  {
    if k == 0 {
      n := s;
      ConcatNil(s.walBatch, s.walQueue[..0]);
    } else {
      n := TakesBatch(s0, s, k - 1);
      assert RemoveAt(n.walQueue, 0) == s.walQueue[k..];
      ConcatAssoc(s.walBatch, s.walQueue[..k - 1], [s.walQueue[k - 1]]);
      assert s.walQueue[..k] == s.walQueue[..k - 1] + [s.walQueue[k - 1]];
      n := Next(s0, n, true, WalTake(0));
    }
  }

  lemma RoutesOne(s: State, t: nat)
    requires Enabled(s, WalDispatch) && t in s.threads
    ensures var m := Dispatch(s);
            && t in m.threads && m.threads.Keys == s.threads.Keys
            && m.threads[t].queue + Project(m.walBatch, t) == s.threads[t].queue + Project(s.walBatch, t)
  {
    var e := s.walBatch[0];
    ConcatAssoc(s.threads[t].queue, if TickerOf(e) == t then [e] else [], Project(s.walBatch[1..], t));
    ConcatNil(s.threads[t].queue, []);
  }

  lemma RoutesEach(s: State)
    requires Enabled(s, WalDispatch)
    ensures var m := Dispatch(s);
            && m.threads.Keys == s.threads.Keys && m.wal == s.wal && m.walQueue == s.walQueue
            && m.walBatch == s.walBatch[1..] && (m.dispatching <==> m.walBatch != [])
            && forall t :: t in s.threads ==>
                 m.threads[t].queue + Project(m.walBatch, t) == s.threads[t].queue + Project(s.walBatch, t)
  {
    forall t | t in s.threads
      ensures var m := Dispatch(s);
              && t in m.threads
              && m.threads[t].queue + Project(m.walBatch, t) == s.threads[t].queue + Project(s.walBatch, t)
    {
      RoutesOne(s, t);
    }
  }

  /** Routing what is left of a batch. */
  lemma {:induction false} RoutesBatch(s0: State, s: State) returns (n: State)
    requires Leads(s0, s, true) && (s.dispatching <==> s.walBatch != [])
    ensures Leads(s0, n, true) && !n.dispatching && n.walBatch == []
    ensures n.wal == s.wal && n.walQueue == s.walQueue && n.threads.Keys == s.threads.Keys
    ensures forall t :: t in s.threads ==> n.threads[t].queue == s.threads[t].queue + Project(s.walBatch, t)
    decreases |s.walBatch|
  {
    if s.walBatch == [] {
      n := s;
    } else {
      var m := Next(s0, s, true, WalDispatch);
      RoutesEach(s);
      n := RoutesBatch(s0, m);
    }
  }

  /** A round of the log loop: a batch is written, then each of its events is routed. */
  lemma LogRoundIsRun(s: State, k: nat) returns (n: State)
    requires !s.dispatching && s.walBatch == [] && 0 < k <= |s.walQueue| && k <= BATCH
    ensures Leads(s, n, true) && !n.dispatching && n.walBatch == [] && n.walQueue == s.walQueue[k..]
    ensures n.wal == s.wal + RecordAll(s.walQueue[..k]) && n.threads.Keys == s.threads.Keys
    ensures forall t :: t in s.threads ==> n.threads[t].queue == s.threads[t].queue + Project(s.walQueue[..k], t)
  {
    Stay(s, true);
    n := TakesBatch(s, s, k);
    ConcatNil(s.walQueue[..k], []);
    n := Next(s, n, true, WalWrite);
    n := RoutesBatch(s, n);
  }

  // -------------------------------------------------------------- the handlers

  /** A trade request: frozen and queued for the log, or refused. */
  lemma TradeIsRun(s: State, o: Order) returns (n: State)
    requires o.id !in s.usedIds
    ensures Leads(s, n, Fits(o)) && n.ledger == Freeze(s.ledger, o).ledger && n.handed == s.handed
    ensures n.walQueue == s.walQueue + if Freeze(s.ledger, o).ok then [NewOrder(o)] else []
  {
    Stay(s, Fits(o));
    n := Next(s, s, Fits(o), Admit(o));
    if Freeze(s.ledger, o).ok {
      assert RemoveAt(n.handed, |s.handed|) == s.handed;
      n := Next(s, n, Fits(o), Append(|s.handed|));
    } else {
      ConcatNil(s.handed, []);
      ConcatNil(s.walQueue, []);
    }
  }

  /** A cancel request: only queued for the log. */
  lemma CancelIsRun(s: State, t: nat, id: nat, u: nat) returns (n: State)
    ensures Leads(s, n, true) && n == s.(walQueue := s.walQueue + [CancelOrder(t, id, u)])
  {
    Stay(s, true);
    n := Next(s, s, true, RequestCancel(t, id, u));
  }

  /** A deposit: stored first, then credited. */
  lemma DepositIsRun(s: State, u: nat, amount: nat) returns (n: State)
    requires u in s.ledger && amount > 0
    ensures Leads(s, n, Reasonable(s, StoreDeposit(u, amount)))
    ensures n.db == Credit(s.db, Asset(u, Money), amount) && n.ledger == AddBalance(s.ledger, u, amount)
    ensures n.deposits == s.deposits
  {
    var fitting := Reasonable(s, StoreDeposit(u, amount));
    Stay(s, fitting);
    n := Next(s, s, fitting, StoreDeposit(u, amount));
    assert RemoveAt(n.deposits, |s.deposits|) == s.deposits;
    n := Next(s, n, fitting, CreditDeposit(|s.deposits|));
  }
}
