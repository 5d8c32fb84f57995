/** In every run each fill that reaches settlement is between two admitted orders, on the terms of both. */
module PipelineFills {
  import opened Orders
  import opened Sums
  import opened Measures
  import opened FlatBook
  import opened BookLaws
  import opened Replay
  import opened Wal
  import opened Pipeline
  import opened PipelineHistory
  import opened PipelineSafety
  import opened Fills

  /** The new orders among these events were admitted. */
  predicate AllAdmitted(es: seq<Event>, admitted: seq<Order>) {
    forall e :: e in es && e.NewOrder? ==> e.order in admitted
  }

  /** What a book thread has in hand comes from admitted orders. */
  predicate SourcedAt(s: State, t: nat)
    requires t in s.threads
  {
    var th, orders := s.threads[t], s.history.admitted;
    && AllAdmitted(th.queue, orders) && AllAdmitted(th.batch, orders)
    && AllGiven(th.done.book.bids + th.done.book.asks, orders) && AllAgreed(th.done.records, orders)
  }

  predicate Sourced(s: State) {
    && (forall t :: t in s.threads ==> SourcedAt(s, t))
    && AllAgreed(s.history.published, s.history.admitted)
  }

  lemma HandleKeepsSourced(s: State, t: nat)
    requires Enabled(s, BookHandle(t)) && BookValid(s, t) && SourcedAt(s, t)
    ensures SourcedAt(Apply(s, BookHandle(t)), t)
  {
    var th := s.threads[t];
    assert th.batch[0] in th.batch && forall e :: e in th.batch[1..] ==> e in th.batch;
    HandleAgrees(th.done, th.batch[0], s.history.admitted);
  }

  lemma TakeKeepsSourced(s: State, t: nat, n: nat)
    requires Enabled(s, BookTake(t, n)) && SourcedAt(s, t)
    ensures SourcedAt(Apply(s, BookTake(t, n)), t)
  {
    var q := s.threads[t].queue;
    assert forall e :: e in q[..n] || e in q[n..] ==> e in q;
  }

  /** What the engine routes was admitted. */
  lemma DispatchKeepsSourced(s: State, t: nat)
    requires Enabled(s, WalDispatch) && Traced(s) && t in s.threads && SourcedAt(s, t)
    ensures SourcedAt(Apply(s, WalDispatch), t)
  {
    var e := s.walBatch[0];
    assert e in s.walBatch;
    if e.NewOrder? { assert TracedAt(s, e.order); }
  }

  lemma AdmitKeepsSourced(s: State, o: Order, t: nat)
    requires Enabled(s, Admit(o)) && t in s.threads && SourcedAt(s, t)
    ensures SourcedAt(Apply(s, Admit(o)), t)
  {
    var th, n := s.threads[t], Apply(s, Admit(o));
    GivenMore(th.done.book.bids + th.done.book.asks, th.done.records, s.history.admitted, n.history.admitted);
  }

  /** Other steps leave a thread's events and book, and the admitted orders, as they are. */
  lemma OtherKeepsSourced(s: State, a: Action, t: nat)
    requires Enabled(s, a) && !a.Admit? && !a.WalDispatch? && t in s.threads && SourcedAt(s, t)
    requires (a.BookTake? || a.BookHandle?) ==> a.ticker != t
    ensures t in Apply(s, a).threads && SourcedAt(Apply(s, a), t)
  {
    var n := Apply(s, a);
    assert n.history.admitted == s.history.admitted && t in n.threads;
    assert n.threads[t].(results := []) == s.threads[t].(results := []);
  }

  lemma StepKeepsSourcedAt(s: State, a: Action, t: nat)
    requires Enabled(s, a) && BooksValid(s) && Traced(s) && t in s.threads && SourcedAt(s, t)
    ensures t in Apply(s, a).threads && SourcedAt(Apply(s, a), t)
  {
    assert BookValid(s, t);
    if a.Admit? {
      AdmitKeepsSourced(s, a.order, t);
    } else if a.WalDispatch? {
      DispatchKeepsSourced(s, t);
    } else if a.BookTake? && a.ticker == t {
      TakeKeepsSourced(s, t, a.n);
    } else if a.BookHandle? && a.ticker == t {
      HandleKeepsSourced(s, t);
    } else {
      OtherKeepsSourced(s, a, t);
    }
  }

  lemma PublishKeepsAgreed(s: State, t: nat)
    requires Enabled(s, BookPublish(t)) && SourcedAt(s, t) && RecordedAt(s, t)
    requires AllAgreed(s.history.published, s.history.admitted)
    ensures AllAgreed(s.history.published + s.threads[t].results, s.history.admitted)
  {
    var th := s.threads[t];
    forall r | r in th.results ensures AgreedBySome(r, s.history.admitted) {
      assert r in FillsOf(s.history.published, t) + th.results;
      assert r in th.done.records;
    }
  }

  lemma StepKeepsPublished(s: State, a: Action)
    requires Enabled(s, a) && Recorded(s) && Sourced(s)
    ensures AllAgreed(Apply(s, a).history.published, Apply(s, a).history.admitted)
  {
    var n := Apply(s, a);
    if a.BookPublish? {
      assert SourcedAt(s, a.ticker) && RecordedAt(s, a.ticker);
      PublishKeepsAgreed(s, a.ticker);
    } else {
      assert n.history.published == s.history.published;
      GivenMore([], s.history.published, s.history.admitted, n.history.admitted);
    }
  }

  lemma StepKeepsSourced(s: State, a: Action)
    requires Enabled(s, a) && BooksValid(s) && Traced(s) && Recorded(s) && Sourced(s)
    ensures Sourced(Apply(s, a))
  {
    StepKeepsPublished(s, a);
    forall t | t in Apply(s, a).threads ensures SourcedAt(Apply(s, a), t) {
      StepKeepsSourcedAt(s, a, t);
    }
  }

  lemma {:induction false} RunKeepsSourced(states: seq<State>, actions: seq<Action>, i: nat)
    requires IsRun(states, actions, HALF32) && i < |states|
    ensures Sourced(states[i])
  {
    if i > 0 {
      RunKeepsSourced(states, actions, i - 1);
      RunKeepsInv(states, actions, i - 1);
      assert Enabled(states[i - 1], actions[i - 1]) && states[i] == Apply(states[i - 1], actions[i - 1]);
      StepKeepsSourced(states[i - 1], actions[i - 1]);
    }
  }

  /**
   Every fill ever published is what two admitted orders agreed to: no buyer pays more
   and no seller gets less than its own limit, and the price is that of the resting order.
   */
  lemma FillsRespectLimits(states: seq<State>, actions: seq<Action>, i: nat, r: MatchRecord)
    requires IsRun(states, actions, HALF32) && i < |states| && r in states[i].history.published
    ensures exists maker, taker :: maker in states[i].history.admitted && taker in states[i].history.admitted
              && Agreed(r, maker, taker)
  {
    RunKeepsSourced(states, actions, i);
    assert AgreedBySome(r, states[i].history.admitted);
  }
}
