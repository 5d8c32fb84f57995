/**
 The counting semaphore under the blocking queues, and the way the queues use it, as
 atomic steps of any number of threads: a count that goes negative for waiters, a kernel
 semaphore for those who sleep, and a correction after a wait that timed out.
 */
module Semaphore {
  import opened Sums

  /** `granted`, `signalled`, `enqueued` and `dequeued` only record what happened so far. */
  datatype Shared = Shared(
    count: int, tokens: nat, items: int,
    granted: nat, signalled: nat, enqueued: nat, dequeued: nat)

  /** Where a thread stands between two atomic operations. */
  datatype Pc =
    | Idle
    | Trying(max: nat, base: nat, blocking: bool, seen: int) // has read the count, will compare and swap
    | Spinning(max: nat, spins: nat)
    | SpinLoaded(max: nat, spins: nat, seen: int)
    | Waiting(max: nat)                                     // registered, asleep in the kernel semaphore
    | Correcting(max: nat)                                  // woke up without a permit
    | Corrects(max: nat, seen: int)
    | Got(max: nat)                                         // holds one permit and may take more
    | Owed(n: nat)                                          // holds permits for n items it has not fetched
    | Unsignalled(n: nat)                                   // has enqueued n items and will signal
    | Posting(n: nat)                                       // has n kernel releases left to post

  datatype Move =
    | Begin(max: nat, blocking: bool)
    | Enqueue(n: nat)
    | Go          // the next atomic operation
    | Fail        // a weak exchange fails for no reason, or a wait in the kernel ends without a permit
    | Fetch(k: nat)

  datatype Local = Local(shared: Shared, pc: Pc)

  function Positive(x: int): nat {
    if x > 0 then x else 0
  }

  /** What is left of a positive count after taking up to `max`. */
  function TakeUpTo(seen: int, max: nat): int {
    if seen > max then seen - max else 0
  }

  function Done(n: nat): Pc {
    if n == 0 then Idle else Owed(n)
  }

  /** A thread asleep in the kernel goes on when there is a token to take. */
  predicate Can(l: Local, m: Move) {
    match m
    case Begin(_, _) => l.pc.Idle?
    case Enqueue(_) => l.pc.Idle?
    case Go => !l.pc.Idle? && !l.pc.Owed? && (l.pc.Waiting? ==> l.shared.tokens > 0)
    case Fail => l.pc.Trying? || l.pc.Waiting?
    case Fetch(k) => l.pc.Owed? && k <= l.pc.n && k <= l.shared.items
  }

  function Reload(pc: Pc, count: int): Pc
    requires pc.Trying?
  {
    Trying(pc.max, pc.base, pc.blocking, count)
  }

  function TryStep(s: Shared, pc: Pc, maxSpins: nat): Local
    requires pc.Trying?
  {
    if pc.seen <= 0 then
      Local(s, if pc.base == 0 && pc.blocking && pc.max > 0 then Spinning(pc.max, maxSpins) else Done(pc.base))
    else if s.count != pc.seen then
      Local(s, Reload(pc, s.count))
    else
      var left := TakeUpTo(pc.seen, pc.max);
      Local(s.(count := left, granted := s.granted + (pc.seen - left)), Done(pc.base + (pc.seen - left)))
  }

  function SpinStep(s: Shared, pc: Pc): Local
    requires pc.SpinLoaded?
  {
    if pc.seen > 0 && s.count == pc.seen then
      var left := TakeUpTo(pc.seen, pc.max);
      Local(s.(count := left, granted := s.granted + (pc.seen - left)), Done(pc.seen - left))
    else
      Local(s, Spinning(pc.max, pc.spins))
  }

  /** After the spinning the count is taken down unconditionally; below one, the thread must wait. */
  function RegisterStep(s: Shared, max: nat): Local {
    if s.count > 0 then Local(s.(count := s.count - 1, granted := s.granted + 1), Got(max))
    else Local(s.(count := s.count - 1), Waiting(max))
  }

  function CorrectStep(s: Shared, max: nat, seen: int): Local {
    if seen >= 0 && s.tokens > 0 then
      Local(s.(tokens := s.tokens - 1, granted := s.granted + 1), Got(max))
    else if seen < 0 && s.count == seen then
      Local(s.(count := seen + 1), Idle)
    else
      Local(s, Correcting(max))
  }

  /** Waiters are released as far as the signal reaches. */
  function SignalStep(s: Shared, n: nat): Local {
    var release := if -s.count < n then -s.count else n;
    Local(s.(count := s.count + n, signalled := s.signalled + n), if release > 0 then Posting(release) else Idle)
  }

  function Advance(s: Shared, pc: Pc, maxSpins: nat): Local
    requires Can(Local(s, pc), Go)
  {
    match pc
    case Trying(_, _, _, _) => TryStep(s, pc, maxSpins)
    case Spinning(max, spins) =>
      if spins > 0 then Local(s, SpinLoaded(max, spins - 1, s.count)) else RegisterStep(s, max)
    case SpinLoaded(_, _, _) => SpinStep(s, pc)
    case Waiting(max) => Local(s.(tokens := s.tokens - 1, granted := s.granted + 1), Got(max))
    case Correcting(max) => Local(s, Corrects(max, s.count))
    case Corrects(max, seen) => CorrectStep(s, max, seen)
    case Got(max) => Local(s, if max > 1 then Trying(max - 1, 1, false, s.count) else Owed(1))
    case Unsignalled(n) => SignalStep(s, n)
    case Posting(n) =>
      if n == 0 then Local(s, Idle)
      else Local(s.(tokens := s.tokens + 1), if n == 1 then Idle else Posting(n - 1))
    case _ => Local(s, pc)
  }

  function Act(l: Local, m: Move, maxSpins: nat): Local
    requires Can(l, m)
  {
    var s, pc := l.shared, l.pc;
    match m
    case Begin(max, blocking) => Local(s, Trying(max, 0, blocking, s.count))
    case Enqueue(n) => Local(s.(items := s.items + n, enqueued := s.enqueued + n), Unsignalled(n))
    case Go => Advance(s, pc, maxSpins)
    case Fail => Local(s, if pc.Trying? then Reload(pc, s.count) else Correcting(pc.max))
    case Fetch(k) => Local(s.(items := s.items - k, dequeued := s.dequeued + k), Done(pc.n - k))
  }

  // -------------------------------------------- what a thread gets, and what it leaves

  /** A thread goes on alone for some steps, or until it is done or must sleep. */
  function Run(l: Local, steps: nat, maxSpins: nat): Local
    decreases steps
  {
    if steps == 0 || !Can(l, Go) then l else Run(Act(l, Go, maxSpins), steps - 1, maxSpins)
  }

  /** An exchange that succeeds takes all that is there, up to what is asked for, in whatever state the others are. */
  lemma TakesWhatIsThere(s: Shared, pc: Pc, maxSpins: nat)
    requires (pc.Trying? || pc.SpinLoaded?) && s.count == pc.seen > 0
    ensures var k := if s.count < pc.max then s.count else pc.max;
            var all := k + if pc.Trying? then pc.base else 0;
            Advance(s, pc, maxSpins)
            == Local(s.(count := s.count - k, granted := s.granted + k), if all == 0 then Idle else Owed(all))
  {
  }

  /** Undisturbed, a try gets the smaller of what is there and what it asks for; `tryWait` succeeds iff anything is there. */
  lemma UndisturbedTry(s: Shared, max: nat, maxSpins: nat)
    ensures var k := if s.count <= 0 then 0 else if s.count < max then s.count else max;
            Run(Act(Local(s, Idle), Begin(max, false), maxSpins), 1, maxSpins)
            == Local(s.(count := s.count - k, granted := s.granted + k), if k == 0 then Idle else Owed(k))
    ensures Run(Act(Local(s, Idle), Begin(1, false), maxSpins), 1, maxSpins).pc == Owed(1) <==> s.count > 0
  {
  }

  /** With one permit in hand, a call for more gets what else is there. */
  lemma UndisturbedRest(s: Shared, max: nat, maxSpins: nat)
    ensures var k := if s.count <= 0 || max <= 1 then 0 else if s.count < max - 1 then s.count else max - 1;
            Run(Local(s, Got(max)), 2, maxSpins) == Local(s.(count := s.count - k, granted := s.granted + k), Owed(1 + k))
  {
    var one := Act(Local(s, Got(max)), Go, maxSpins);
    assert Run(Local(s, Got(max)), 2, maxSpins) == Run(one, 1, maxSpins);
  }

  /** With nothing there, a waiting call spins as often as it may, is counted as a waiter, and sleeps. */
  lemma {:induction false} UndisturbedWait(s: Shared, max: nat, spins: nat, maxSpins: nat)
    requires s.count <= 0
    ensures Run(Local(s, Spinning(max, spins)), 2 * spins + 1, maxSpins) == Local(s.(count := s.count - 1), Waiting(max))
  {
    if spins > 0 {
      var one := Act(Local(s, Spinning(max, spins)), Go, maxSpins);
      assert Act(one, Go, maxSpins) == Local(s, Spinning(max, spins - 1));
      assert Run(Local(s, Spinning(max, spins)), 2 * spins + 1, maxSpins) == Run(one, 2 * spins, maxSpins);
      UndisturbedWait(s, max, spins - 1, maxSpins);
    } else {
      var one := Act(Local(s, Spinning(max, 0)), Go, maxSpins);
      assert Run(Local(s, Spinning(max, 0)), 1, maxSpins) == Run(one, 0, maxSpins);
    }
  }

  /** A waiting call sleeps only if nothing was there. */
  lemma UndisturbedBlocking(s: Shared, max: nat, maxSpins: nat)
    requires max > 0
    ensures if s.count > 0 then
              Run(Act(Local(s, Idle), Begin(max, true), maxSpins), 1, maxSpins).pc == Owed(if s.count < max then s.count else max)
            else
              Run(Act(Local(s, Idle), Begin(max, true), maxSpins), 2 * maxSpins + 2, maxSpins)
              == Local(s.(count := s.count - 1), Waiting(max))
  {
    if s.count <= 0 {
      var one := Act(Local(s, Idle), Begin(max, true), maxSpins);
      assert Act(one, Go, maxSpins) == Local(s, Spinning(max, maxSpins));
      assert Run(one, 2 * maxSpins + 2, maxSpins) == Run(Local(s, Spinning(max, maxSpins)), 2 * maxSpins + 1, maxSpins);
      UndisturbedWait(s, max, maxSpins, maxSpins);
    }
  }

  /** A wait that fails leads to that correction. */
  lemma FailedWaitCorrects(s: Shared, max: nat, maxSpins: nat)
    ensures Act(Local(s, Waiting(max)), Fail, maxSpins) == Local(s, Correcting(max))
    ensures s.count < 0 ==> Run(Act(Local(s, Waiting(max)), Fail, maxSpins), 2, maxSpins) == Local(s.(count := s.count + 1), Idle)
  {
    if s.count < 0 { UndisturbedCorrection(s, max, maxSpins); }
  }

  /** After a wait without a permit: the thread takes itself off the count, or takes the release that was meant for it. */
  lemma UndisturbedCorrection(s: Shared, max: nat, maxSpins: nat)
    requires s.count < 0 || s.tokens > 0
    ensures Run(Local(s, Correcting(max)), 2, maxSpins)
         == if s.count < 0 then Local(s.(count := s.count + 1), Idle)
            else Local(s.(tokens := s.tokens - 1, granted := s.granted + 1), Got(max))
  {
    var one := Act(Local(s, Correcting(max)), Go, maxSpins);
    assert Run(Local(s, Correcting(max)), 2, maxSpins) == Run(one, 1, maxSpins) == Act(one, Go, maxSpins);
  }

  lemma {:induction false} UndisturbedPosts(s: Shared, n: nat, maxSpins: nat)
    requires n > 0
    ensures Run(Local(s, Posting(n)), n, maxSpins) == Local(s.(tokens := s.tokens + n), Idle)
    decreases n
  {
    if n > 1 { UndisturbedPosts(s.(tokens := s.tokens + 1), n - 1, maxSpins); }
  }

  /** A signal adds to the count and wakes as many waiters as there are, up to the number of its permits. */
  lemma UndisturbedSignal(s: Shared, n: nat, maxSpins: nat)
    ensures var wake := if s.count >= 0 then 0 else if -s.count < n then -s.count else n;
            Run(Local(s, Unsignalled(n)), 1 + wake, maxSpins)
            == Local(s.(count := s.count + n, signalled := s.signalled + n, tokens := s.tokens + wake), Idle)
  {
    var wake := if s.count >= 0 then 0 else if -s.count < n then -s.count else n;
    var one := Act(Local(s, Unsignalled(n)), Go, maxSpins);
    assert Run(Local(s, Unsignalled(n)), 1 + wake, maxSpins) == Run(one, wake, maxSpins);
    if wake > 0 { UndisturbedPosts(one.shared, wake, maxSpins); }
  }

  /** A thread inside a call for permits. */
  predicate Calling(pc: Pc) {
    !pc.Idle? && !pc.Owed? && !pc.Unsignalled? && !pc.Posting?
  }

  /**
     However the others interfere, a call ends with nothing only after it read a count
     without permits, or when it was for none, or when a wait that failed was taken back.
   */
  lemma GivesUpOnlyOnNothing(l: Local, m: Move, maxSpins: nat)
    requires Can(l, m) && Calling(l.pc) && Act(l, m, maxSpins).pc.Idle?
    ensures if l.pc.Trying? then m.Go? && l.pc.base == 0 && (l.pc.seen <= 0 || l.pc.max == 0)
            else if l.pc.SpinLoaded? then l.pc.max == 0
            else l.pc.Corrects? && l.pc.seen == l.shared.count < 0 && Act(l, m, maxSpins).shared.count == l.shared.count + 1
  {
  }

  /** An exchange that fails, for whatever reason, changes nothing, and the call goes on with the count there is now. */
  lemma FailedExchangeGoesOn(s: Shared, pc: Pc, maxSpins: nat)
    requires pc.Trying?
    ensures Act(Local(s, pc), Fail, maxSpins) == Local(s, Trying(pc.max, pc.base, pc.blocking, s.count))
    ensures s.count != pc.seen > 0 ==>
              Act(Local(s, pc), Go, maxSpins) == Local(s, Trying(pc.max, pc.base, pc.blocking, s.count))
  {
  }

  // ------------------------------------------------------- all the threads

  datatype State = State(shared: Shared, threads: map<nat, Pc>)

  predicate Enabled(s: State, t: nat, m: Move) {
    t in s.threads && Can(Local(s.shared, s.threads[t]), m)
  }

  function Next(s: State, t: nat, m: Move, maxSpins: nat): State
    requires Enabled(s, t, m)
  {
    var l := Act(Local(s.shared, s.threads[t]), m, maxSpins);
    State(l.shared, s.threads[t := l.pc])
  }

  /** A queue of `initial` items with as many permits, and any number of idle threads. */
  predicate Init(s: State, initial: nat) {
    && s.shared == Shared(initial, 0, initial, 0, 0, 0, 0)
    && forall t :: t in s.threads ==> s.threads[t] == Idle
  }

  ghost predicate IsRun(states: seq<State>, moves: seq<(nat, Move)>, initial: nat, maxSpins: nat) {
    && |states| == |moves| + 1 && Init(states[0], initial)
    && forall i :: 0 <= i < |moves| ==>
         && Enabled(states[i], moves[i].0, moves[i].1)
         && states[i + 1] == Next(states[i], moves[i].0, moves[i].1, maxSpins)
  }

  // ------------------------------------------------- weights of the threads

  function Registered(pc: Pc): int {
    if pc.Waiting? || pc.Correcting? || pc.Corrects? then 1 else 0
  }

  function Releases(pc: Pc): int {
    if pc.Posting? then pc.n else 0
  }

  function Held(pc: Pc): int {
    if pc.Owed? then pc.n else if pc.Got? then 1 else if pc.Trying? then pc.base else 0
  }

  function Late(pc: Pc): int {
    if pc.Unsignalled? then pc.n else 0
  }

  ghost function Sum(s: State, w: Pc -> int): int {
    SumMap(s.threads, w)
  }

  /** The four balances of the semaphore and the queue. */
  ghost predicate Inv(s: State, initial: nat) {
    var g := s.shared;
    && g.granted + Positive(g.count) + g.tokens + Sum(s, Releases) == initial + g.signalled
    && Sum(s, Registered) == Positive(-g.count) + g.tokens + Sum(s, Releases)
    && g.granted == g.dequeued + Sum(s, Held)
    && g.enqueued == g.signalled + Sum(s, Late)
    && g.items == initial + g.enqueued - g.dequeued
  }

  lemma StepMovesPermits(l: Local, m: Move, maxSpins: nat)
    requires Can(l, m)
    ensures var n := Act(l, m, maxSpins);
            var g, h := l.shared, n.shared;
            && h.granted - g.granted + Positive(h.count) - Positive(g.count) + h.tokens - g.tokens
               + Releases(n.pc) - Releases(l.pc) == h.signalled - g.signalled
            && Registered(n.pc) - Registered(l.pc)
               == Positive(-h.count) - Positive(-g.count) + h.tokens - g.tokens + Releases(n.pc) - Releases(l.pc)
  {
  }

  lemma StepMovesItems(l: Local, m: Move, maxSpins: nat)
    requires Can(l, m)
    ensures var n := Act(l, m, maxSpins);
            var g, h := l.shared, n.shared;
            && h.granted - g.granted == h.dequeued - g.dequeued + Held(n.pc) - Held(l.pc)
            && h.enqueued - g.enqueued == h.signalled - g.signalled + Late(n.pc) - Late(l.pc)
            && h.items - g.items == h.enqueued - g.enqueued - (h.dequeued - g.dequeued)
  {
  }

  /** Each step moves as much between the counters as between the threads. */
  lemma StepBalances(l: Local, m: Move, maxSpins: nat)
    requires Can(l, m)
    ensures var n := Act(l, m, maxSpins);
            var g, h := l.shared, n.shared;
            && h.granted - g.granted + Positive(h.count) - Positive(g.count) + h.tokens - g.tokens
               + Releases(n.pc) - Releases(l.pc) == h.signalled - g.signalled
            && Registered(n.pc) - Registered(l.pc)
               == Positive(-h.count) - Positive(-g.count) + h.tokens - g.tokens + Releases(n.pc) - Releases(l.pc)
            && h.granted - g.granted == h.dequeued - g.dequeued + Held(n.pc) - Held(l.pc)
            && h.enqueued - g.enqueued == h.signalled - g.signalled + Late(n.pc) - Late(l.pc)
            && h.items - g.items == h.enqueued - g.enqueued - (h.dequeued - g.dequeued)
  {
    StepMovesPermits(l, m, maxSpins);
    StepMovesItems(l, m, maxSpins);
  }

  /** The most permits the current call of a thread may still end up with. */
  function Wanted(pc: Pc): nat {
    match pc
    case Trying(max, base, _, _) => base + max
    case Owed(n) => n
    case Spinning(max, _) => if max > 1 then max else 1
    case SpinLoaded(max, _, _) => if max > 1 then max else 1
    case Waiting(max) => if max > 1 then max else 1
    case Correcting(max) => if max > 1 then max else 1
    case Corrects(max, _) => if max > 1 then max else 1
    case Got(max) => if max > 1 then max else 1
    case _ => 0
  }

  /** A call for `max` permits is granted no more than that, however it goes. */
  lemma GrantsAtMostWanted(l: Local, m: Move, maxSpins: nat)
    requires Can(l, m)
    ensures Held(l.pc) <= Wanted(l.pc)
    ensures Wanted(Act(l, m, maxSpins).pc) <= if m.Begin? then m.max else Wanted(l.pc)
  {
  }

  lemma StepKeepsInv(s: State, t: nat, m: Move, initial: nat, maxSpins: nat)
    requires Inv(s, initial) && Enabled(s, t, m)
    ensures Inv(Next(s, t, m, maxSpins), initial)
  {
    StepBalances(Local(s.shared, s.threads[t]), m, maxSpins);
    var pc := Act(Local(s.shared, s.threads[t]), m, maxSpins).pc;
    SumMapUpdate(s.threads, t, pc, Registered);
    SumMapUpdate(s.threads, t, pc, Releases);
    SumMapUpdate(s.threads, t, pc, Held);
    SumMapUpdate(s.threads, t, pc, Late);
  }

  lemma InitHasInv(s: State, initial: nat)
    requires Init(s, initial)
    ensures Inv(s, initial)
  {
    SumMapZero(s.threads, Registered);
    SumMapZero(s.threads, Releases);
    SumMapZero(s.threads, Held);
    SumMapZero(s.threads, Late);
  }

  lemma {:induction false} RunKeepsInv(states: seq<State>, moves: seq<(nat, Move)>, initial: nat, maxSpins: nat, i: nat)
    requires IsRun(states, moves, initial, maxSpins) && i < |states|
    ensures Inv(states[i], initial)
  {
    if i == 0 {
      InitHasInv(states[0], initial);
    } else {
      RunKeepsInv(states, moves, initial, maxSpins, i - 1);
      StepKeepsInv(states[i - 1], moves[i - 1].0, moves[i - 1].1, initial, maxSpins);
    }
  }

  // ------------------------------------------------------- the main results

  /** Permits are conserved, and waiters are counted, in every reachable state. */
  lemma PermitsAreConserved(states: seq<State>, moves: seq<(nat, Move)>, initial: nat, maxSpins: nat, i: nat)
    requires IsRun(states, moves, initial, maxSpins) && i < |states|
    ensures var s := states[i]; var g := s.shared;
            && g.granted + Positive(g.count) + g.tokens + Sum(s, Releases) == initial + g.signalled
            && Sum(s, Registered) == Positive(-g.count) + g.tokens + Sum(s, Releases)
  {
    RunKeepsInv(states, moves, initial, maxSpins, i);
  }

  lemma WeightsAreNatural(s: State)
    ensures Sum(s, Registered) >= 0 && Sum(s, Releases) >= 0 && Sum(s, Held) >= 0 && Sum(s, Late) >= 0
    ensures forall t :: t in s.threads ==>
              && Registered(s.threads[t]) <= Sum(s, Registered) && Releases(s.threads[t]) <= Sum(s, Releases)
              && Held(s.threads[t]) <= Sum(s, Held)
  {
    SumMapBounds(s.threads, Registered);
    SumMapBounds(s.threads, Releases);
    SumMapBounds(s.threads, Held);
    SumMapBounds(s.threads, Late);
  }

  /**
     Whatever is owed to consumers that hold permits is in the queue, so none of their
     retry loops waits on an empty queue.
   */
  lemma OwedItemsArePresent(states: seq<State>, moves: seq<(nat, Move)>, initial: nat, maxSpins: nat, i: nat)
    requires IsRun(states, moves, initial, maxSpins) && i < |states|
    ensures Sum(states[i], Held) <= states[i].shared.items
    ensures forall t :: t in states[i].threads && states[i].threads[t].Owed? ==>
              states[i].threads[t].n <= states[i].shared.items
  {
    RunKeepsInv(states, moves, initial, maxSpins, i);
    WeightsAreNatural(states[i]);
    forall t | t in states[i].threads && states[i].threads[t].Owed?
      ensures states[i].threads[t].n <= states[i].shared.items
    {
      assert Held(states[i].threads[t]) <= Sum(states[i], Held);
    }
  }

  /**
     No wake-up is lost: while a thread waits and no release is on its way, every
     permit has been granted, and every item is owed to someone or not yet signalled.
   */
  lemma NoLostWakeUp(states: seq<State>, moves: seq<(nat, Move)>, initial: nat, maxSpins: nat, i: nat, t: nat)
    requires IsRun(states, moves, initial, maxSpins) && i < |states|
    requires t in states[i].threads && Registered(states[i].threads[t]) == 1
    requires states[i].shared.tokens == 0 && Sum(states[i], Releases) == 0
    ensures states[i].shared.count < 0
    ensures states[i].shared.granted == initial + states[i].shared.signalled
    ensures states[i].shared.items == Sum(states[i], Held) + Sum(states[i], Late)
  {
    RunKeepsInv(states, moves, initial, maxSpins, i);
    WeightsAreNatural(states[i]);
  }

  /** A thread that corrects the count and finds it non-negative has a release coming to it. */
  lemma CorrectionEnds(states: seq<State>, moves: seq<(nat, Move)>, initial: nat, maxSpins: nat, i: nat, t: nat)
    requires IsRun(states, moves, initial, maxSpins) && i < |states|
    requires t in states[i].threads && Registered(states[i].threads[t]) == 1
    ensures states[i].shared.count >= 0 ==> states[i].shared.tokens + Sum(states[i], Releases) > 0
  {
    RunKeepsInv(states, moves, initial, maxSpins, i);
    WeightsAreNatural(states[i]);
  }

  /** A signal never posts more releases than threads are waiting, so the narrowing of the number is exact. */
  lemma ReleasesAreForWaiters(states: seq<State>, moves: seq<(nat, Move)>, initial: nat, maxSpins: nat, i: nat, n: nat)
    requires IsRun(states, moves, initial, maxSpins) && i < |states|
    ensures var pc := SignalStep(states[i].shared, n).pc;
            Releases(pc) + Sum(states[i], Releases) <= Sum(states[i], Registered) <= |states[i].threads|
  {
    RunKeepsInv(states, moves, initial, maxSpins, i);
    WeightsAreNatural(states[i]);
    AtMostOneEach(states[i].threads);
  }

  lemma {:induction false} AtMostOneEach(threads: map<nat, Pc>)
    ensures SumMap(threads, Registered) <= |threads|
    decreases |threads|
  {
    if threads != map[] {
      var t :| t in threads;
      SumMapPick(threads, t, Registered);
      AtMostOneEach(threads - {t});
    }
  }
}
