/**
 The lock-free dequeue of one producer's queue: consumers claim optimistically, read
 the tail again, give back what they claimed too much, and only then take indices.
 Each load, store and fetch-and-add is one step; any number of consumers interleave.
 */
module Dequeue {
  import opened Arithmetic
  import opened Sums

  const WORD := 0x1_0000_0000_0000_0000
  const HALF := 0x8000_0000_0000_0000

  // ------------------------------------------------------ counters and steps

  /** Counters either as numbers, or as the 64-bit words that hold them. */
  datatype Mode = Exact | Words

  function Norm(m: Mode, x: int): int {
    if m.Words? then x % WORD else x
  }

  /** Comparison on words: the difference, seen as a word, is in the upper half. */
  predicate CircularLess(a: int, b: int) {
    (a - b) % WORD > HALF
  }

  predicate Positive(m: Mode, d: int) {
    if m.Words? then CircularLess(0, d) else d > 0
  }

  function Min(a: int, b: int): int {
    if a < b then a else b
  }

  datatype Counters = Counters(tail: int, head: int, optimistic: int, overcommit: int)

  datatype Pc =
    | Idle
    | SawTail(max: nat, tail: int)
    | SawOvercommit(max: nat, tail: int, over: int)
    | Claiming(count: int, over: int)
    | Claimed(my: int, count: int, over: int)
    | GivingBack(my: int, count: int, actual: int, over: int)
    | Taking(my: int, actual: int, over: int)

  datatype Local = Local(c: Counters, pc: Pc)

  /** How many elements seem to be there, by the tail, the claims and the known overcommitment. */
  function Seeming(m: Mode, tail: int, claims: int, over: int): int {
    Norm(m, tail - Norm(m, claims - over))
  }

  /** The next atomic operation of a dequeue for up to `max` elements; `max` is 1 for a single one. */
  function Go(m: Mode, c: Counters, pc: Pc): Local {
    match pc
    case Idle => Local(c, Idle)
    case SawTail(max, tail) => Local(c, SawOvercommit(max, tail, c.overcommit))
    case SawOvercommit(max, tail, over) =>
      var d := Seeming(m, tail, c.optimistic, over);
      Local(c, if Positive(m, d) then Claiming(Min(d, max), over) else Idle)
    case Claiming(count, over) =>
      Local(c.(optimistic := Norm(m, c.optimistic + count)), Claimed(c.optimistic, count, over))
    case Claimed(my, count, over) =>
      var d := Seeming(m, c.tail, my, over);
      Local(c,
        if !Positive(m, d) then GivingBack(my, count, 0, over)
        else if d < count then GivingBack(my, count, d, over)
        else Taking(my, count, over))
    case GivingBack(my, count, actual, over) =>
      Local(c.(overcommit := Norm(m, c.overcommit + (count - actual))),
        if actual == 0 then Idle else Taking(my, actual, over))
    case Taking(_, actual, _) => Local(c.(head := Norm(m, c.head + actual)), Idle)
  }

  // ----------------------------------------- all consumers, and what happened

  /** What became of a claimed slot. */
  datatype Slot = Open | Given | Back

  /** One successful dequeue: `count` elements from index `first` on. */
  datatype Grant = Grant(thread: nat, first: int, count: int)

  /** `items`, `slots` and `grants` record the history: enqueued elements, claims, dequeues. */
  datatype State<T> = State(
    c: Counters, threads: map<nat, Pc>,
    items: seq<T>, slots: seq<Slot>, grants: seq<Grant>)

  datatype Move<T> = Enqueue(elements: seq<T>) | Start(thread: nat, max: nat) | Step(thread: nat)

  predicate Enabled<T>(s: State<T>, m: Move<T>) {
    match m
    case Enqueue(_) => true
    case Start(t, _) => t in s.threads && s.threads[t].Idle?
    case Step(t) => t in s.threads && !s.threads[t].Idle?
  }

  /** Slots from `lo` up to `hi` are settled one way. */
  function Settle(slots: seq<Slot>, lo: int, hi: int, to: Slot): (r: seq<Slot>)
    ensures |r| == |slots|
    ensures forall i :: 0 <= i < |slots| ==> r[i] == if lo <= i < hi then to else slots[i]
  {
    seq(|slots|, i requires 0 <= i < |slots| => if lo <= i < hi then to else slots[i])
  }

  function Record(slots: seq<Slot>, pc: Pc): seq<Slot> {
    match pc
    case Claiming(count, _) => slots + seq(if count < 0 then 0 else count, i => Open)
    case GivingBack(my, count, actual, _) => Settle(slots, my + actual, my + count, Back)
    case Taking(my, actual, _) => Settle(slots, my, my + actual, Given)
    case _ => slots
  }

  function Next<T>(s: State<T>, m: Move<T>): State<T>
    requires Enabled(s, m)
  {
    match m
    case Enqueue(elements) =>
      s.(c := s.c.(tail := s.c.tail + |elements|), items := s.items + elements)
    case Start(t, max) => s.(threads := s.threads[t := SawTail(max, s.c.tail)])
    case Step(t) =>
      var pc := s.threads[t];
      var l := Go(Exact, s.c, pc);
      State(l.c, s.threads[t := l.pc], s.items, Record(s.slots, pc),
        if pc.Taking? then s.grants + [Grant(t, s.c.head, pc.actual)] else s.grants)
  }

  predicate Init<T>(s: State<T>) {
    && s.c == Counters(0, 0, 0, 0) && s.items == [] && s.slots == [] && s.grants == []
    && forall t :: t in s.threads ==> s.threads[t] == Idle
  }

  ghost predicate IsRun<T(!new)>(states: seq<State<T>>, moves: seq<Move<T>>) {
    && |states| == |moves| + 1 && Init(states[0])
    && forall i :: 0 <= i < |moves| ==> Enabled(states[i], moves[i]) && states[i + 1] == Next(states[i], moves[i])
  }

  // ------------------------------------------------------------- counting slots

  function Count(slots: seq<Slot>, what: Slot): nat {
    if slots == [] then 0
    else Count(slots[..|slots| - 1], what) + if slots[|slots| - 1] == what then 1 else 0
  }

  lemma {:induction false} CountConcat(a: seq<Slot>, b: seq<Slot>, what: Slot)
    ensures Count(a + b, what) == Count(a, what) + Count(b, what)
  {
    if b == [] {
      assert a + b == a;
    } else {
      assert (a + b)[..|a + b| - 1] == a + b[..|b| - 1];
      CountConcat(a, b[..|b| - 1], what);
    }
  }

  lemma {:induction false} CountAll(slots: seq<Slot>, to: Slot, what: Slot)
    requires forall i :: 0 <= i < |slots| ==> slots[i] == to
    ensures Count(slots, what) == if what == to then |slots| else 0
  {
    if slots != [] { CountAll(slots[..|slots| - 1], to, what); }
  }

  lemma CountSplit(slots: seq<Slot>, lo: nat, hi: nat, what: Slot)
    requires lo <= hi <= |slots|
    ensures Count(slots, what) == Count(slots[..lo], what) + Count(slots[lo..hi], what) + Count(slots[hi..], what)
  {
    assert slots == slots[..lo] + slots[lo..hi] + slots[hi..];
    CountConcat(slots[..lo] + slots[lo..hi], slots[hi..], what);
    CountConcat(slots[..lo], slots[lo..hi], what);
  }

  /** Settling open slots moves them from one count to another. */
  lemma CountSettled(slots: seq<Slot>, lo: nat, hi: nat, to: Slot, what: Slot)
    requires lo <= hi <= |slots| && to != Open
    requires forall i :: lo <= i < hi ==> slots[i] == Open
    ensures Count(Settle(slots, lo, hi, to), what)
         == Count(slots, what) + (if what == to then hi - lo else 0) - (if what == Open then hi - lo else 0)
  {
    var after := Settle(slots, lo, hi, to);
    CountSplit(slots, lo, hi, what);
    CountSplit(after, lo, hi, what);
    assert after[..lo] == slots[..lo] && after[hi..] == slots[hi..];
    CountAll(slots[lo..hi], Open, what);
    CountAll(after[lo..hi], to, what);
  }

  lemma {:induction false} CountsAddUp(slots: seq<Slot>)
    ensures Count(slots, Open) + Count(slots, Given) + Count(slots, Back) == |slots|
  {
    if slots != [] { CountsAddUp(slots[..|slots| - 1]); }
  }

  ghost predicate KeepsBack(a: seq<Slot>, b: seq<Slot>) {
    |a| <= |b| && forall i :: 0 <= i < |a| && a[i] == Back ==> b[i] == Back
  }

  /** What was given back stays given back. */
  lemma {:induction false} BackGrows(a: seq<Slot>, b: seq<Slot>, k: nat)
    requires KeepsBack(a, b) && k <= |a|
    ensures Count(a[..k], Back) <= Count(b[..k], Back)
    decreases k
  {
    if k > 0 {
      BackGrows(a, b, k - 1);
      assert a[..k][..k - 1] == a[..k - 1] && b[..k][..k - 1] == b[..k - 1];
    }
  }

  lemma {:induction false} CountPrefix(slots: seq<Slot>, j: nat, k: nat, what: Slot)
    requires j <= k <= |slots|
    ensures Count(slots[..j], what) <= Count(slots[..k], what)
    decreases k
  {
    if j < k {
      CountPrefix(slots, j, k - 1, what);
      assert slots[..k][..k - 1] == slots[..k - 1];
    }
  }

  // ---------------------------------------------------------------- invariant

  /** The claimed slots a consumer has not settled. */
  function Low(pc: Pc): int {
    match pc
    case Claimed(my, _, _) => my
    case GivingBack(my, _, _, _) => my
    case Taking(my, _, _) => my
    case _ => 0
  }

  function High(pc: Pc): int {
    match pc
    case Claimed(my, count, _) => my + count
    case GivingBack(my, count, _, _) => my + count
    case Taking(my, actual, _) => my + actual
    case _ => 0
  }

  function Pending(pc: Pc): int {
    High(pc) - Low(pc)
  }

  /** What a consumer knows about the counters it has read. */
  ghost predicate PcOk(pc: Pc, c: Counters, slots: seq<Slot>) {
    && 0 <= Low(pc) <= High(pc) <= |slots|
    && (forall i :: Low(pc) <= i < High(pc) ==> slots[i] == Open)
    && match pc
       case Idle => true
       case SawTail(_, tail) => tail <= c.tail
       case SawOvercommit(_, tail, over) => tail <= c.tail && over <= c.overcommit
       case Claiming(count, over) => count >= 0 && over <= c.overcommit
       case Claimed(my, _, over) => over <= Count(slots[..my], Back)
       case GivingBack(my, count, actual, over) =>
         && 0 <= actual <= count && over <= Count(slots[..my], Back)
         && (actual > 0 ==> my + actual - over <= c.tail)
       case Taking(my, actual, over) => over <= Count(slots[..my], Back) && (actual > 0 ==> my + actual - over <= c.tail)
  }

  /** A slot that was given had, by the slots given back before it, an element. */
  ghost predicate GivenOk(slots: seq<Slot>, tail: int, x: nat) {
    x < |slots| && slots[x] == Given ==> x + 1 - Count(slots[..x + 1], Back) <= tail
  }

  ghost predicate Apart(p: Pc, q: Pc) {
    High(p) <= Low(q) || High(q) <= Low(p) || Pending(p) == 0 || Pending(q) == 0
  }

  /** The grants run through the indices from 0 without gap or overlap. */
  predicate InOrder(grants: seq<Grant>, end: int) {
    if grants == [] then end == 0
    else
      var g := grants[|grants| - 1];
      g.count >= 0 && g.first + g.count == end && InOrder(grants[..|grants| - 1], g.first)
  }

  ghost predicate Inv<T>(s: State<T>) {
    && s.c.tail == |s.items| && s.c.optimistic == |s.slots|
    && s.c.overcommit == Count(s.slots, Back) && s.c.head == Count(s.slots, Given)
    && SumMap(s.threads, Pending) == Count(s.slots, Open)
    && (forall x: nat :: GivenOk(s.slots, s.c.tail, x))
    && (forall t :: t in s.threads ==> PcOk(s.threads[t], s.c, s.slots))
    && (forall t, u :: t in s.threads && u in s.threads && t != u ==> Apart(s.threads[t], s.threads[u]))
    && InOrder(s.grants, s.c.head)
  }

  /** Given slots never outnumber the elements. */
  lemma {:induction false} GivenWithinTail(slots: seq<Slot>, tail: nat, n: nat)
    requires n <= |slots| && forall x: nat :: GivenOk(slots, tail, x)
    ensures Count(slots[..n], Given) <= tail
    decreases n
  {
    if n > 0 {
      assert slots[..n][..n - 1] == slots[..n - 1];
      GivenWithinTail(slots, tail, n - 1);
      if slots[n - 1] == Given {
        assert GivenOk(slots, tail, n - 1);
        CountsAddUp(slots[..n]);
      }
    }
  }

  // -------------------------------------------------------------- each step

  /** The rest of the invariant that other consumers rely on, when one consumer moves. */
  lemma OthersOk(pc: Pc, c: Counters, slots: seq<Slot>, d: Counters, after: seq<Slot>)
    requires PcOk(pc, c, slots) && KeepsBack(slots, after)
    requires c.tail <= d.tail && c.overcommit <= d.overcommit
    requires forall i :: Low(pc) <= i < High(pc) ==> after[i] == Open
    ensures PcOk(pc, d, after)
  {
    if Low(pc) <= |slots| {
      BackGrows(slots, after, Low(pc));
    }
  }

  lemma GivenStays(slots: seq<Slot>, after: seq<Slot>, tail: int, end: int, x: nat)
    requires KeepsBack(slots, after) && tail <= end
    requires GivenOk(slots, tail, x) && x < |slots| && slots[x] == Given
    ensures GivenOk(after, end, x)
  {
    BackGrows(slots, after, x + 1);
  }

  /** Taking: each slot of the range had an element. */
  lemma TakenOk(slots: seq<Slot>, my: nat, actual: nat, over: int, tail: int, x: nat)
    requires my + actual <= |slots| && my <= x < my + actual
    requires forall i :: my <= i < my + actual ==> slots[i] == Open
    requires over <= Count(slots[..my], Back) && my + actual - over <= tail
    ensures GivenOk(Settle(slots, my, my + actual, Given), tail, x)
  {
    var after := Settle(slots, my, my + actual, Given);
    assert KeepsBack(slots, after);
    BackGrows(slots, after, my);
    CountPrefix(after, my, x + 1, Back);
  }

  /** The change of each count of slots, when `n` slots move between two of them. */
  ghost predicate Moved(slots: seq<Slot>, after: seq<Slot>, open: int, given: int, back: int) {
    && Count(after, Open) - Count(slots, Open) == open
    && Count(after, Given) - Count(slots, Given) == given
    && Count(after, Back) - Count(slots, Back) == back
  }

  lemma ClaimMoves(slots: seq<Slot>, n: nat)
    ensures Moved(slots, slots + seq(n, i => Open), n, 0, 0)
  {
    var claims: seq<Slot> := seq(n, i => Open);
    CountConcat(slots, claims, Open);
    CountConcat(slots, claims, Given);
    CountConcat(slots, claims, Back);
    CountAll(claims, Open, Open);
    CountAll(claims, Open, Given);
    CountAll(claims, Open, Back);
  }

  lemma SettleMoves(slots: seq<Slot>, lo: nat, hi: nat, to: Slot)
    requires lo <= hi <= |slots| && to != Open
    requires forall i :: lo <= i < hi ==> slots[i] == Open
    ensures Moved(slots, Settle(slots, lo, hi, to),
              lo - hi, if to == Given then hi - lo else 0, if to == Back then hi - lo else 0)
  {
    CountSettled(slots, lo, hi, to, Open);
    CountSettled(slots, lo, hi, to, Given);
    CountSettled(slots, lo, hi, to, Back);
  }

  ghost predicate StepCounted(c: Counters, pc: Pc, slots: seq<Slot>) {
    var l := Go(Exact, c, pc);
    var after := Record(slots, pc);
    && l.c.tail == c.tail && l.c.optimistic == |after|
    && Moved(slots, after, Pending(l.pc) - Pending(pc), l.c.head - c.head, l.c.overcommit - c.overcommit)
  }

  lemma BackCounts(c: Counters, pc: Pc, slots: seq<Slot>)
    requires PcOk(pc, c, slots) && c.optimistic == |slots| && pc.GivingBack?
    ensures StepCounted(c, pc, slots)
  {
    SettleMoves(slots, pc.my + pc.actual, pc.my + pc.count, Back);
  }

  lemma GivenCounts(c: Counters, pc: Pc, slots: seq<Slot>)
    requires PcOk(pc, c, slots) && c.optimistic == |slots| && pc.Taking?
    ensures StepCounted(c, pc, slots)
  {
    SettleMoves(slots, pc.my, pc.my + pc.actual, Given);
  }

  /** Settling or claiming keeps the counters equal to the counts of slots. */
  lemma StepCounts(c: Counters, pc: Pc, slots: seq<Slot>)
    requires PcOk(pc, c, slots) && c.optimistic == |slots|
    ensures StepCounted(c, pc, slots)
  {
    if pc.Claiming? {
      assert Record(slots, pc) == slots + seq(pc.count, i => Open);
      ClaimMoves(slots, pc.count);
    } else if pc.GivingBack? {
      BackCounts(c, pc, slots);
    } else if pc.Taking? {
      GivenCounts(c, pc, slots);
    }
  }

  /** The consumer that moves knows enough for its next step. */
  lemma StepOwn(c: Counters, pc: Pc, slots: seq<Slot>)
    requires PcOk(pc, c, slots) && c.optimistic == |slots| && c.overcommit == Count(slots, Back)
    ensures var l := Go(Exact, c, pc); PcOk(l.pc, l.c, Record(slots, pc))
  {
    var after := Record(slots, pc);
    assert KeepsBack(slots, after);
    if pc.Claiming? {
      assert after[..|slots|] == slots;
    } else if pc.GivingBack? {
      BackGrows(slots, after, pc.my);
    }
  }

  /** Nothing changes for the others: their slots stay open, and what was given back stays so. */
  lemma StepFrame(c: Counters, pc: Pc, slots: seq<Slot>, other: Pc)
    requires PcOk(pc, c, slots) && c.optimistic == |slots|
    requires PcOk(other, c, slots) && Apart(pc, other)
    ensures var l := Go(Exact, c, pc); PcOk(other, l.c, Record(slots, pc)) && Apart(l.pc, other)
  {
    var after := Record(slots, pc);
    assert forall i :: Low(other) <= i < High(other) ==> after[i] == Open;
    OthersOk(other, c, slots, Go(Exact, c, pc).c, after);
  }

  lemma StepGiven(c: Counters, pc: Pc, slots: seq<Slot>, x: nat)
    requires PcOk(pc, c, slots) && GivenOk(slots, c.tail, x)
    ensures GivenOk(Record(slots, pc), c.tail, x)
  {
    var after := Record(slots, pc);
    assert KeepsBack(slots, after);
    if pc.Taking? && pc.my <= x < pc.my + pc.actual {
      TakenOk(slots, pc.my, pc.actual, pc.over, c.tail, x);
    } else if x < |after| && after[x] == Given {
      GivenStays(slots, after, c.tail, c.tail, x);
    }
  }

  lemma StepThreads<T>(s: State<T>, t: nat)
    requires Inv(s) && Enabled(s, Step(t))
    ensures var n := Next(s, Step(t));
            && (forall u :: u in n.threads ==> PcOk(n.threads[u], n.c, n.slots))
            && (forall u, v :: u in n.threads && v in n.threads && u != v ==> Apart(n.threads[u], n.threads[v]))
  {
    var pc := s.threads[t];
    StepOwn(s.c, pc, s.slots);
    forall u | u in s.threads && u != t
      ensures PcOk(s.threads[u], Go(Exact, s.c, pc).c, Record(s.slots, pc))
      ensures Apart(Go(Exact, s.c, pc).pc, s.threads[u])
    {
      StepFrame(s.c, pc, s.slots, s.threads[u]);
    }
  }

  lemma StepKeepsInv<T>(s: State<T>, t: nat)
    requires Inv(s) && Enabled(s, Step(t))
    ensures Inv(Next(s, Step(t)))
  {
    var pc := s.threads[t];
    StepThreads(s, t);
    StepCounts(s.c, pc, s.slots);
    SumMapUpdate(s.threads, t, Go(Exact, s.c, pc).pc, Pending);
    forall x: nat ensures GivenOk(Record(s.slots, pc), s.c.tail, x) {
      StepGiven(s.c, pc, s.slots, x);
    }
  }

  lemma MoveKeepsInv<T>(s: State<T>, m: Move<T>)
    requires Inv(s) && Enabled(s, m)
    ensures Inv(Next(s, m))
  {
    match m
    case Step(t) => StepKeepsInv(s, t);
    case Start(t, max) => SumMapUpdate(s.threads, t, SawTail(max, s.c.tail), Pending);
    case Enqueue(elements) =>
      var end := s.c.tail + |elements|;
      forall x: nat ensures GivenOk(s.slots, end, x) {
        assert GivenOk(s.slots, s.c.tail, x);
      }
  }

  lemma {:induction false} RunKeepsInv<T(!new)>(states: seq<State<T>>, moves: seq<Move<T>>, i: nat)
    requires IsRun(states, moves) && i < |states|
    ensures Inv(states[i])
  {
    if i == 0 {
      SumMapZero(states[0].threads, Pending);
    } else {
      RunKeepsInv(states, moves, i - 1);
      MoveKeepsInv(states[i - 1], moves[i - 1]);
    }
  }

  // ------------------------------------------------------------ main results

  /** The head never passes the tail, whatever the interleaving. */
  lemma HeadWithinTail<T(!new)>(states: seq<State<T>>, moves: seq<Move<T>>, i: nat)
    requires IsRun(states, moves) && i < |states|
    ensures 0 <= states[i].c.head <= states[i].c.tail
    ensures states[i].c.head + states[i].c.overcommit <= states[i].c.optimistic
  {
    RunKeepsInv(states, moves, i);
    Bounded(states[i]);
  }

  lemma Bounded<T>(s: State<T>)
    requires Inv(s)
    ensures 0 <= s.c.head <= s.c.tail == |s.items|
    ensures s.c.head + s.c.overcommit + Count(s.slots, Open) == s.c.optimistic
  {
    assert s.slots[..|s.slots|] == s.slots;
    GivenWithinTail(s.slots, s.c.tail, |s.slots|);
    CountsAddUp(s.slots);
  }

  predicate Covers(g: Grant, index: int) {
    g.first <= index < g.first + g.count
  }

  lemma {:induction false} CoveredOnce(grants: seq<Grant>, end: int, index: int)
    requires InOrder(grants, end)
    ensures end >= 0
    ensures 0 <= index < end <==> exists k :: 0 <= k < |grants| && Covers(grants[k], index)
    ensures forall j, k :: 0 <= j < k < |grants| ==> !(Covers(grants[j], index) && Covers(grants[k], index))
  {
    if grants != [] {
      var n := |grants| - 1;
      CoveredOnce(grants[..n], grants[n].first, index);
      if 0 <= index < grants[n].first {
        var k :| 0 <= k < n && Covers(grants[..n][k], index);
        assert Covers(grants[k], index);
      }
      if k :| 0 <= k < n && Covers(grants[k], index) {
        assert Covers(grants[..n][k], index);
      }
      assert forall j :: 0 <= j < n ==> grants[j] == grants[..n][j];
    }
  }

  /** Every index below the head was given to exactly one dequeue, and no other index to any. */
  lemma IndicesGivenOnce<T(!new)>(states: seq<State<T>>, moves: seq<Move<T>>, i: nat, index: int)
    requires IsRun(states, moves) && i < |states|
    ensures var s := states[i];
            && (0 <= index < s.c.head <==> exists k :: 0 <= k < |s.grants| && Covers(s.grants[k], index))
            && forall j, k :: 0 <= j < k < |s.grants| ==> !(Covers(s.grants[j], index) && Covers(s.grants[k], index))
  {
    RunKeepsInv(states, moves, i);
    CoveredOnce(states[i].grants, states[i].c.head, index);
  }

  /** The elements that one dequeue hands out. */
  function Elements<T>(items: seq<T>, g: Grant): seq<T> {
    if 0 <= g.first && 0 <= g.count && g.first + g.count <= |items| then items[g.first..g.first + g.count] else []
  }

  function Handed<T>(items: seq<T>, grants: seq<Grant>): seq<T> {
    if grants == [] then []
    else Handed(items, grants[..|grants| - 1]) + Elements(items, grants[|grants| - 1])
  }

  lemma {:induction false} HandedIsPrefix<T>(items: seq<T>, grants: seq<Grant>, end: int)
    requires InOrder(grants, end) && end <= |items|
    ensures 0 <= end && Handed(items, grants) == items[..end]
  {
    CoveredOnce(grants, end, 0);
    if grants != [] {
      var n := |grants| - 1;
      var first := grants[n].first;
      HandedIsPrefix(items, grants[..n], first);
      assert Elements(items, grants[n]) == items[first..end];
      Cut(items, first, end);
    }
  }

  lemma Cut<T>(xs: seq<T>, i: nat, j: nat)
    requires i <= j <= |xs|
    ensures xs[..i] + xs[i..j] == xs[..j]
  {
  }

  /** First in, first out: in the order of their indices, the elements handed out are those enqueued first. */
  lemma FirstInFirstOut<T(!new)>(states: seq<State<T>>, moves: seq<Move<T>>, i: nat)
    requires IsRun(states, moves) && i < |states|
    ensures Handed(states[i].items, states[i].grants) <= states[i].items
    ensures |Handed(states[i].items, states[i].grants)| == states[i].c.head
  {
    RunKeepsInv(states, moves, i);
    Bounded(states[i]);
    HandedIsPrefix(states[i].items, states[i].grants, states[i].c.head);
  }

  // --------------------------------------------- a dequeue that runs undisturbed

  /** No consumer holds an unsettled claim. */
  predicate Quiet<T>(s: State<T>) {
    forall t :: t in s.threads ==> Pending(s.threads[t]) == 0
  }

  function Rank(pc: Pc): nat {
    match pc
    case Idle => 0
    case Taking(_, _, _) => 1
    case GivingBack(_, _, _, _) => 2
    case Claimed(_, _, _) => 3
    case Claiming(_, _) => 4
    case SawOvercommit(_, _, _) => 5
    case SawTail(_, _) => 6
  }

  /** One consumer runs on until its dequeue is over. */
  function Alone<T>(s: State<T>, t: nat): State<T>
    requires t in s.threads
    decreases Rank(s.threads[t])
  {
    if s.threads[t].Idle? then s else Alone(Next(s, Step(t)), t)
  }

  /** How many elements a dequeue with an open claim gets: what is there for its slots, up to the claim. */
  function Available<T>(s: State<T>, pc: Pc): int
    requires pc.Claimed?
  {
    var d := s.c.tail - (pc.my - pc.over);
    if d <= 0 then 0 else if d < pc.count then d else pc.count
  }

  /** The elements that a dequeue has decided to take. */
  function Decided(pc: Pc): int {
    if pc.GivingBack? || pc.Taking? then pc.actual else 0
  }

  /** A claim is decided by the tail seen then, and what is decided is taken, whatever the others do meanwhile. */
  lemma DecisionStands<T>(s: State<T>, t: nat, m: Move<T>)
    requires Inv(s) && Enabled(s, m) && t in s.threads
    ensures var n := Next(s, m);
            && (m == Step(t) && s.threads[t].Claimed? ==> Decided(n.threads[t]) == Available(s, s.threads[t]))
            && (m == Step(t) && s.threads[t].GivingBack? ==> Decided(n.threads[t]) == Decided(s.threads[t]))
            && (m == Step(t) && s.threads[t].Taking? ==>
                  n.grants == s.grants + [Grant(t, s.c.head, Decided(s.threads[t]))])
            && (m != Step(t) && !s.threads[t].Idle? ==> n.threads[t] == s.threads[t])
  {
    assert PcOk(s.threads[t], s.c, s.slots);
  }

  /** A dequeue that has its claim, with any other claims open, gets exactly what is there for it. */
  lemma ClaimedDequeue<T>(s: State<T>, t: nat)
    requires Inv(s) && t in s.threads && s.threads[t].Claimed?
    ensures var n := Alone(s, t); n.c.head == s.c.head + Available(s, s.threads[t]) && n.items == s.items
  {
    var s1 := Next(s, Step(t));
    assert PcOk(s.threads[t], s.c, s.slots);
    assert Alone(s, t) == Alone(s1, t);
    if s1.threads[t].GivingBack? {
      var s2 := Next(s1, Step(t));
      assert Alone(s1, t) == Alone(s2, t);
      if s2.threads[t].Taking? {
        var s3 := Next(s2, Step(t));
        assert Alone(s2, t) == Alone(s3, t) == s3;
      }
    } else {
      var s2 := Next(s1, Step(t));
      assert Alone(s1, t) == Alone(s2, t) == s2;
    }
  }

  /** Undisturbed from its start, a dequeue gets all that is there and not claimed by others, up to what it asked for. */
  lemma AloneDequeue<T>(s: State<T>, t: nat, max: nat)
    requires Inv(s) && Enabled(s, Start(t, max))
    ensures var n := Alone(Next(s, Start(t, max)), t);
            var free := s.c.tail - s.c.head - Count(s.slots, Open);
            n.c.head == s.c.head + (if free <= 0 then 0 else if free < max then free else max) && n.items == s.items
  {
    var seen := s.(threads := s.threads[t := SawOvercommit(max, s.c.tail, s.c.overcommit)]);
    MoveKeepsInv(s, Start(t, max));
    MoveKeepsInv(Next(s, Start(t, max)), Step(t));
    AloneFirst(Next(s, Start(t, max)), t);
    assert Next(Next(s, Start(t, max)), Step(t)) == seen;
    Bounded(s);
    AloneClaims(seen, t);
  }

  lemma AloneFirst<T>(s: State<T>, t: nat)
    requires t in s.threads && !s.threads[t].Idle?
    ensures Alone(s, t) == Alone(Next(s, Step(t)), t)
  {
  }

  /** From the comparison on: what seems to be there is claimed, and then found to be there. */
  lemma AloneClaims<T>(s: State<T>, t: nat)
    requires Inv(s) && t in s.threads && s.threads[t].SawOvercommit?
    requires s.threads[t].tail == s.c.tail && s.threads[t].over == s.c.overcommit
    ensures var n := Alone(s, t);
            var free := s.c.tail - (s.c.optimistic - s.c.overcommit);
            var max := s.threads[t].max;
            n.c.head == s.c.head + (if free <= 0 then 0 else if free < max then free else max) && n.items == s.items
  {
    var free := s.c.tail - (s.c.optimistic - s.c.overcommit);
    var s1 := Next(s, Step(t));
    MoveKeepsInv(s, Step(t));
    AloneFirst(s, t);
    if free > 0 {
      AloneFirst(s1, t);
      AloneClaiming(s1, t);
    }
  }

  lemma AloneClaiming<T>(s: State<T>, t: nat)
    requires Inv(s) && t in s.threads && s.threads[t].Claiming?
    ensures var pc := s.threads[t];
            Alone(Next(s, Step(t)), t).c.head == s.c.head + Available(s, Claimed(s.c.optimistic, pc.count, pc.over))
    ensures Alone(Next(s, Step(t)), t).items == s.items
  {
    MoveKeepsInv(s, Step(t));
    ClaimedDequeue(Next(s, Step(t)), t);
  }

  /** With no claim open, that is exactly what is there, up to what it asked for. */
  lemma UndisturbedDequeue<T>(s: State<T>, t: nat, max: nat)
    requires Inv(s) && Quiet(s) && Enabled(s, Start(t, max))
    ensures var n := Alone(Next(s, Start(t, max)), t);
            n.c.head == s.c.head + Min(s.c.tail - s.c.head, max) && n.items == s.items
  {
    SumMapZero(s.threads, Pending);
    Bounded(s);
    AloneDequeue(s, t, max);
  }

  // ------------------------------------------------------------ 64-bit words

  lemma CircularLessIsPositive(a: int, b: int)
    ensures CircularLess(a, b) == Positive(Words, (b - a) % WORD)
  {
    NegatedDifference(b - a);
  }

  lemma NegatedDifference(d: int)
    ensures (0 - d % WORD) % WORD == (0 - d) % WORD
  {
  }

  /** Within one turn of the counters, the comparison of words is right exactly for distances of half a turn. */
  lemma ComparisonIsExact(d: int)
    requires -WORD < d < WORD
    ensures (Positive(Words, d % WORD) <==> d > 0) <==> -HALF <= d < HALF
  {
    assert d >= 0 ==> d % WORD == d;
    assert d < 0 ==> d % WORD == d + WORD;
  }

  function WrapCounters(c: Counters): Counters {
    Counters(c.tail % WORD, c.head % WORD, c.optimistic % WORD, c.overcommit % WORD)
  }

  function WrapPc(pc: Pc): Pc {
    match pc
    case Idle => Idle
    case SawTail(max, tail) => SawTail(max, tail % WORD)
    case SawOvercommit(max, tail, over) => SawOvercommit(max, tail % WORD, over % WORD)
    case Claiming(count, over) => Claiming(count, over % WORD)
    case Claimed(my, count, over) => Claimed(my % WORD, count, over % WORD)
    case GivingBack(my, count, actual, over) => GivingBack(my % WORD, count, actual, over % WORD)
    case Taking(my, actual, over) => Taking(my % WORD, actual, over % WORD)
  }

  /** The two sides of the comparison that comes next are less than half a turn apart. */
  predicate Near(c: Counters, pc: Pc) {
    match pc
    case SawOvercommit(_, tail, over) => -HALF <= Seeming(Exact, tail, c.optimistic, over) < HALF
    case Claimed(my, _, over) => -HALF <= Seeming(Exact, c.tail, my, over) < HALF
    case _ => true
  }

  lemma SumWraps(a: int, b: int)
    ensures (a % WORD + b) % WORD == (a + b) % WORD
  {
  }

  lemma DifferenceWraps(a: int, b: int)
    ensures (a % WORD - b % WORD) % WORD == (a - b) % WORD
  {
    var turns := b / WORD - a / WORD;
    Remainder(a % WORD - b % WORD - (a - b), turns, WORD, 0);
    SameRemainder(a % WORD - b % WORD, a - b, WORD);
  }

  lemma SeemingWraps(tail: int, claims: int, over: int)
    ensures Seeming(Words, tail % WORD, claims % WORD, over % WORD) == Seeming(Exact, tail, claims, over) % WORD
  {
    DifferenceWraps(claims, over);
    DifferenceWraps(tail, claims - over);
  }

  /** The amount that seems to be there is the same in words as in numbers, when it is positive. */
  lemma SeemingAgrees(tail: int, claims: int, over: int)
    requires -HALF <= Seeming(Exact, tail, claims, over) < HALF
    ensures var d := Seeming(Words, tail % WORD, claims % WORD, over % WORD);
            && (Positive(Words, d) <==> Seeming(Exact, tail, claims, over) > 0)
            && (Positive(Words, d) ==> d == Seeming(Exact, tail, claims, over))
  {
    SeemingWraps(tail, claims, over);
    ComparisonIsExact(Seeming(Exact, tail, claims, over));
  }

  lemma GoWraps(c: Counters, pc: Pc)
    requires Near(c, pc)
    ensures var l := Go(Exact, c, pc);
            Go(Words, WrapCounters(c), WrapPc(pc)) == Local(WrapCounters(l.c), WrapPc(l.pc))
  {
    match pc
    case SawOvercommit(_, tail, over) => SeemingAgrees(tail, c.optimistic, over);
    case Claimed(my, _, over) => SeemingAgrees(c.tail, my, over);
    case Claiming(count, _) => SumWraps(c.optimistic, count);
    case GivingBack(_, count, actual, _) => SumWraps(c.overcommit, count - actual);
    case Taking(_, actual, _) => SumWraps(c.head, actual);
    case _ =>
  }

  /** The counters and consumers as the program has them, in 64-bit words. */
  datatype Machine = Machine(c: Counters, threads: map<nat, Pc>)

  function Wrap<T>(s: State<T>): Machine {
    Machine(WrapCounters(s.c), map t | t in s.threads :: WrapPc(s.threads[t]))
  }

  predicate WordsEnabled<T>(w: Machine, m: Move<T>) {
    match m
    case Enqueue(_) => true
    case Start(t, _) => t in w.threads && w.threads[t].Idle?
    case Step(t) => t in w.threads && !w.threads[t].Idle?
  }

  function WordsNext<T>(w: Machine, m: Move<T>): Machine
    requires WordsEnabled(w, m)
  {
    match m
    case Enqueue(elements) => w.(c := w.c.(tail := Norm(Words, w.c.tail + |elements|)))
    case Start(t, max) => w.(threads := w.threads[t := SawTail(max, w.c.tail)])
    case Step(t) =>
      var l := Go(Words, w.c, w.threads[t]);
      Machine(l.c, w.threads[t := l.pc])
  }

  lemma NextWraps<T>(s: State<T>, m: Move<T>)
    requires Enabled(s, m) && (m.Step? ==> Near(s.c, s.threads[m.thread]))
    ensures WordsEnabled(Wrap(s), m) && WordsNext(Wrap(s), m) == Wrap(Next(s, m))
  {
    if m.Step? { GoWraps(s.c, s.threads[m.thread]); }
  }

  /**
     What stands between the sides of a comparison: the elements in the queue, the open
     claims, and what the others did since the consumer read its values.
   */
  function Spread<T>(s: State<T>, pc: Pc): int {
    s.c.tail - s.c.head + Count(s.slots, Open) +
    match pc
    case SawOvercommit(_, tail, over) => s.c.tail - tail + s.c.overcommit - over
    case Claimed(my, _, over) => s.c.optimistic - my + s.c.overcommit - over
    case _ => 0
  }

  lemma SmallSpreadIsNear<T>(s: State<T>, t: nat)
    requires Inv(s) && t in s.threads && Spread(s, s.threads[t]) < HALF
    ensures Near(s.c, s.threads[t])
  {
    Bounded(s);
    assert PcOk(s.threads[t], s.c, s.slots);
    if s.threads[t].Claimed? { CountsBefore(s.slots, s.threads[t].my); }
  }

  /** Up to a slot, each count is at most the whole count, and together they are the slots. */
  lemma CountsBefore(slots: seq<Slot>, my: nat)
    requires my <= |slots|
    ensures var before := slots[..my];
            && Count(before, Open) + Count(before, Given) + Count(before, Back) == my
            && Count(before, Open) <= Count(slots, Open) && Count(before, Given) <= Count(slots, Given)
            && Count(before, Back) <= Count(slots, Back)
  {
    assert slots[..|slots|] == slots;
    CountsAddUp(slots[..my]);
    CountPrefix(slots, my, |slots|, Open);
    CountPrefix(slots, my, |slots|, Given);
    CountPrefix(slots, my, |slots|, Back);
  }

  /**
     As long as that spread stays below half a turn, the program's 64-bit counters go
     through the very run of the unbounded ones, modulo the word size, however often
     they wrap.
   */
  lemma {:induction false} WordsFollowNumbers<T(!new)>(
      states: seq<State<T>>, moves: seq<Move<T>>, words: seq<Machine>, i: nat)
    requires IsRun(states, moves) && |words| == |states| && i < |states|
    requires words[0] == Wrap(states[0])
    requires forall k :: 0 <= k < |moves| && WordsEnabled(words[k], moves[k]) ==>
               words[k + 1] == WordsNext(words[k], moves[k])
    requires forall k :: 0 <= k < |moves| && moves[k].Step? ==>
               Spread(states[k], states[k].threads[moves[k].thread]) < HALF
    ensures words[i] == Wrap(states[i])
  {
    if i > 0 {
      WordsFollowNumbers(states, moves, words, i - 1);
      RunKeepsInv(states, moves, i - 1);
      var s, m := states[i - 1], moves[i - 1];
      if m.Step? { SmallSpreadIsNear(s, m.thread); }
      NextWraps(s, m);
    }
  }
}
