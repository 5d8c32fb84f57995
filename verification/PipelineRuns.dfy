/** How runs are put together from steps, and one such run: a user who trades with itself. */
module PipelineRuns {
  import opened Orders
  import opened Sums
  import opened Measures
  import opened FlatBook
  import opened BookLaws
  import opened Replay
  import opened Wal
  import opened Accounts
  import opened Settlement
  import opened Pipeline

  // ------------------------------------------------------------- composing runs

  ghost predicate IsPath(states: seq<State>, actions: seq<Action>, fitting: bool) {
    && |states| == |actions| + 1
    && forall i :: 0 <= i < |actions| ==>
         && Enabled(states[i], actions[i]) && (fitting ==> Reasonable(states[i], actions[i]))
         && states[i + 1] == Apply(states[i], actions[i])
  }

  /** Some steps lead from one state to the other; if `fitting`, with reasonable requests only. */
  ghost predicate Leads(s0: State, s: State, fitting: bool) {
    exists states, actions :: IsPath(states, actions, fitting) && states[0] == s0 && states[|actions|] == s
  }

  lemma Stay(s: State, fitting: bool)
    ensures Leads(s, s, fitting)
  {
    var none: seq<Action> := [];
    assert IsPath([s], none, fitting) && [s][|none|] == s;
  }

  lemma Extend(states: seq<State>, actions: seq<Action>, fitting: bool, a: Action)
    requires IsPath(states, actions, fitting)
    requires Enabled(states[|actions|], a) && (fitting ==> Reasonable(states[|actions|], a))
    ensures IsPath(states + [Apply(states[|actions|], a)], actions + [a], fitting)
  {
    var ss, aa := states + [Apply(states[|actions|], a)], actions + [a];
    forall i | 0 <= i < |aa|
      ensures Enabled(ss[i], aa[i]) && (fitting ==> Reasonable(ss[i], aa[i])) && ss[i + 1] == Apply(ss[i], aa[i])
    {
      if i < |actions| { assert aa[i] == actions[i] && ss[i] == states[i] && ss[i + 1] == states[i + 1]; }
    }
  }

  lemma Next(s0: State, s: State, fitting: bool, a: Action) returns (s': State)
    requires Leads(s0, s, fitting) && Enabled(s, a) && (fitting ==> Reasonable(s, a))
    ensures s' == Apply(s, a) && Leads(s0, s', fitting)
  {
    var states, actions :| IsPath(states, actions, fitting) && states[0] == s0 && states[|actions|] == s;
    s' := Apply(s, a);
    Extend(states, actions, fitting, a);
    var ss, aa := states + [s'], actions + [a];
    assert IsPath(ss, aa, fitting) && ss[0] == s0 && ss[|aa|] == s';
  }

  /** Paths of reasonable steps from a start are runs, and the other way round. */
  lemma PathIsRun(s0: State, s: State, limit: nat) returns (states: seq<State>, actions: seq<Action>)
    requires Init(s0, limit) && Leads(s0, s, true)
    ensures IsRun(states, actions, limit) && states[0] == s0 && states[|actions|] == s
  {
    states, actions :| IsPath(states, actions, true) && states[0] == s0 && states[|actions|] == s;
  }

  ghost predicate Reachable(s: State, limit: nat) {
    exists s0 :: Init(s0, limit) && Leads(s0, s, true)
  }

  // ---------------------------------------------------------- a trade with oneself

  function SellOne(t: nat, u: nat, m: nat): Order { Order(1, t, u, Sell, 0, m) }
  function BuyOne(t: nat, u: nat, k: nat): Order { Order(2, t, u, Buy, 0, k) }
  function OwnFill(t: nat, u: nat, q: nat): MatchRecord { MatchRecord(t, 1, 2, u, u, 0, 0, q) }

  /** Nothing has happened yet, and the ticker has a book. */
  predicate Untouched(s: State, t: nat) {
    && s.usedIds == {} && s.handed == [] && s.walQueue == [] && s.walBatch == [] && !s.dispatching
    && s.matchQueue == [] && s.current == None
    && t in s.threads && s.threads[t] == Thread([], [], [], [], Start(t))
  }

  /** The accounts are done with admission; two orders are on their way to the book thread. */
  predicate Early(s: State, l: Ledger, t: nat, handed: seq<Order>, walQueue: seq<Event>, walBatch: seq<Event>,
                  dispatching: bool, queue: seq<Event>)
  {
    && s.ledger == l && s.usedIds == {1, 2}
    && s.handed == handed && s.walQueue == walQueue && s.walBatch == walBatch && s.dispatching == dispatching
    && t in s.threads && s.threads[t] == Thread(queue, [], [], [], Start(t)) && s.matchQueue == [] && s.current == None
  }

  lemma Admits(s: State, o: Order)
    requires o.id !in s.usedIds && Freeze(s.ledger, o).ok
    ensures Enabled(s, Admit(o))
    ensures var n := Apply(s, Admit(o));
            && n.ledger == Freeze(s.ledger, o).ledger && n.usedIds == s.usedIds + {o.id} && n.handed == s.handed + [o]
            && n == s.(ledger := n.ledger, usedIds := n.usedIds, handed := n.handed, history := n.history)
  {
  }

  lemma Appends(s: State, l: Ledger, t: nat, o: Order, handed: seq<Order>, queue: seq<Event>)
    requires Early(s, l, t, [o] + handed, queue, [], false, [])
    ensures Enabled(s, Append(0)) && Early(Apply(s, Append(0)), l, t, handed, queue + [NewOrder(o)], [], false, [])
  {
    assert RemoveAt([o] + handed, 0) == handed;
  }

  lemma Takes(s: State, l: Ledger, t: nat, e: Event, queue: seq<Event>, batch: seq<Event>)
    requires Early(s, l, t, [], [e] + queue, batch, false, []) && |batch| < BATCH
    ensures Enabled(s, WalTake(0)) && Early(Apply(s, WalTake(0)), l, t, [], queue, batch + [e], false, [])
  {
    assert RemoveAt([e] + queue, 0) == queue;
  }

  lemma Dispatches(s: State, l: Ledger, t: nat, e: Event, rest: seq<Event>, queue: seq<Event>)
    requires Early(s, l, t, [], [], [e] + rest, true, queue) && TickerOf(e) == t
    ensures Enabled(s, WalDispatch) && Early(Apply(s, WalDispatch), l, t, [], [], rest, rest != [], queue + [e])
  {
    assert ([e] + rest)[1..] == rest;
  }

  /** Two orders that can be frozen one after the other are admitted. */
  lemma Submitted(s0: State, t: nat, o: Order, o': Order, fitting: bool) returns (s: State)
    requires Untouched(s0, t) && o.id == 1 && o'.id == 2 && (fitting ==> Fits(o) && Fits(o'))
    requires Freeze(s0.ledger, o).ok && Freeze(Freeze(s0.ledger, o).ledger, o').ok
    ensures Leads(s0, s, fitting)
    ensures Early(s, Freeze(Freeze(s0.ledger, o).ledger, o').ledger, t, [o, o'], [], [], false, [])
  {
    Stay(s0, fitting);
    Admits(s0, o);
    s := Next(s0, s0, fitting, Admit(o));
    Admits(s, o');
    s := Next(s0, s, fitting, Admit(o'));
    assert [] + [o] == [o] && [o] + [o'] == [o, o'];
  }

  /** They reach the log thread's batch. */
  lemma Collected(s0: State, s1: State, l: Ledger, t: nat, o: Order, o': Order, fitting: bool) returns (s: State)
    requires Leads(s0, s1, fitting) && Early(s1, l, t, [o, o'], [], [], false, [])
    ensures Leads(s0, s, fitting) && Early(s, l, t, [], [], [NewOrder(o), NewOrder(o')], false, [])
  {
    var e, f := NewOrder(o), NewOrder(o');
    s := s1;
    assert [o, o'] == [o] + [o'] && [o'] == [o'] + [] && [] + [e] == [e] && [e] + [f] == [e, f] && [f] + [] == [f];
    Appends(s, l, t, o, [o'], []);
    s := Next(s0, s, fitting, Append(0));
    Appends(s, l, t, o', [], [e]);
    s := Next(s0, s, fitting, Append(0));
    Takes(s, l, t, e, [f], []);
    s := Next(s0, s, fitting, WalTake(0));
    Takes(s, l, t, f, [], [e]);
    s := Next(s0, s, fitting, WalTake(0));
  }

  /** They are logged and routed to the book thread. */
  lemma Routed(s0: State, s1: State, l: Ledger, t: nat, o: Order, o': Order, fitting: bool) returns (s: State)
    requires Leads(s0, s1, fitting) && Early(s1, l, t, [], [], [NewOrder(o), NewOrder(o')], false, [])
    requires o.ticker == t && o'.ticker == t
    ensures Leads(s0, s, fitting) && Early(s, l, t, [], [], [], false, [NewOrder(o), NewOrder(o')])
  {
    var e, f := NewOrder(o), NewOrder(o');
    assert [] + [e] == [e] && [e] + [f] == [e, f] && [f] + [] == [f];
    s := Next(s0, s1, fitting, WalWrite);
    Dispatches(s, l, t, e, [f], []);
    s := Next(s0, s, fitting, WalDispatch);
    Dispatches(s, l, t, f, [], [e]);
    s := Next(s0, s, fitting, WalDispatch);
  }

  lemma FillsItself(t: nat, u: nat, m: nat, k: nat)
    requires m > 0 && k > 0
    ensures Process(Empty(t), SellOne(t, u, m)) == Processed(Book(t, [], [SellOne(t, u, m)]), [])
    ensures Process(Book(t, [], [SellOne(t, u, m)]), BuyOne(t, u, k)).records == [OwnFill(t, u, Min(m, k))]
  {
    var maker, taker := SellOne(t, u, m), BuyOne(t, u, k);
    assert Insert([], maker) == [maker];
    assert [maker][1..] == [];
    var q := Min(taker.qty, maker.qty);
    assert Match(t, [], taker.(qty := taker.qty - q)).records == [];
    assert Match(t, [maker], taker).records == [OwnFill(t, u, q)];
  }

  lemma HandlesSell(t: nat, u: nat, m: nat, k: nat)
    requires m > 0 && k > 0
    ensures var f := NewOrder(BuyOne(t, u, k));
            var th := HandleNext(Thread([], [NewOrder(SellOne(t, u, m)), f], [], [], Start(t)));
            && th.batch == [f] && th.results == [] && th.done.book == Book(t, [], [SellOne(t, u, m)])
  {
    FillsItself(t, u, m, k);
    assert [NewOrder(SellOne(t, u, m)), NewOrder(BuyOne(t, u, k))][1..] == [NewOrder(BuyOne(t, u, k))];
  }

  lemma HandlesBuy(t: nat, u: nat, m: nat, k: nat, th: Thread)
    requires m > 0 && k > 0
    requires th.batch == [NewOrder(BuyOne(t, u, k))] && th.results == [] && th.done.book == Book(t, [], [SellOne(t, u, m)])
    ensures HandleNext(th).batch == [] && HandleNext(th).results == [OwnFill(t, u, Min(m, k))]
  {
    FillsItself(t, u, m, k);
    assert [] + [OwnFill(t, u, Min(m, k))] == [OwnFill(t, u, Min(m, k))];
  }

  /** What stays as it is while a book thread works. */
  predicate Kept(s: State, l: Ledger) {
    s.ledger == l && s.usedIds == {1, 2} && s.handed == [] && s.matchQueue == [] && s.current == None
  }

  lemma Batched(s0: State, s1: State, l: Ledger, t: nat, queue: seq<Event>, fitting: bool) returns (s: State)
    requires Leads(s0, s1, fitting) && Early(s1, l, t, [], [], [], false, queue) && |queue| == 2
    ensures Leads(s0, s, fitting) && Kept(s, l)
    ensures t in s.threads && s.threads[t] == Thread([], queue, [], [], Start(t))
  {
    assert queue[..2] == queue && queue[2..] == [];
    s := Next(s0, s1, fitting, BookTake(t, 2));
  }

  /** The book thread matches the two orders with each other. */
  lemma Matched(s0: State, s1: State, l: Ledger, t: nat, u: nat, m: nat, k: nat, fitting: bool) returns (s: State)
    requires m > 0 && k > 0 && Leads(s0, s1, fitting) && Kept(s1, l) && t in s1.threads
    requires s1.threads[t] == Thread([], [NewOrder(SellOne(t, u, m)), NewOrder(BuyOne(t, u, k))], [], [], Start(t))
    ensures Leads(s0, s, fitting) && Kept(s, l)
    ensures t in s.threads && s.threads[t].batch == [] && s.threads[t].results == [OwnFill(t, u, Min(m, k))]
  {
    HandlesSell(t, u, m, k);
    s := Next(s0, s1, fitting, BookHandle(t));
    HandlesBuy(t, u, m, k, s.threads[t]);
    s := Next(s0, s, fitting, BookHandle(t));
  }

  /** A user whose sell and buy can both be frozen trades with itself. */
  lemma SelfTrade(s0: State, t: nat, u: nat, m: nat, k: nat, fitting: bool) returns (s: State)
    requires Untouched(s0, t) && m > 0 && k > 0 && (fitting ==> m <= MAX_INT32)
    requires var r := Freeze(s0.ledger, SellOne(t, u, m)); r.ok && Freeze(r.ledger, BuyOne(t, u, k)).ok
    ensures Leads(s0, s, fitting)
    ensures var l := Freeze(Freeze(s0.ledger, SellOne(t, u, m)).ledger, BuyOne(t, u, k)).ledger;
            s.ledger == l && s.usedIds == {1, 2} && s.handed == [] && s.current == None
    ensures s.matchQueue == [OwnFill(t, u, Min(m, k))]
  {
    var o, o' := SellOne(t, u, m), BuyOne(t, u, k);
    assert o'.price * o'.qty == 0;
    s := Submitted(s0, t, o, o', fitting);
    var l := s.ledger;
    s := Collected(s0, s, l, t, o, o', fitting);
    s := Routed(s0, s, l, t, o, o', fitting);
    s := Batched(s0, s, l, t, [NewOrder(o), NewOrder(o')], fitting);
    s := Matched(s0, s, l, t, u, m, k, fitting);
    assert [] + [OwnFill(t, u, Min(m, k))] == [OwnFill(t, u, Min(m, k))];
    s := Next(s0, s, fitting, BookPublish(t));
  }
}
