/**
 The elements behind the indices. They live in blocks of 32 that the producer puts into
 the index and consumers take out again when every element of the block was moved out.
 Blocks are used over and over, so nobody may look into one too late.
 */
module Elements {
  import opened Orders
  import opened Sums
  import D = Dequeue

  const BLOCK := 32

  /**
     `live` maps block numbers to the blocks that hold them, below `begun`; `emptied` is
     each block's count of elements moved out, `cells` its storage. `pending` elements are
     constructed but not published, `closing` blocks are for some consumer to take out.
     `read` and `gone` record what was read under each index, and which are counted.
   */
  datatype State<T> = State(
    queue: D.State<T>, begun: nat, live: map<nat, nat>, emptied: map<nat, nat>, cells: map<(nat, nat), T>,
    pending: seq<T>, closing: set<nat>, read: map<nat, Option<T>>, gone: set<nat>)

  datatype Move<T> =
    | Open(block: nat)         // the producer puts the next block into the index
    | Construct(x: T)          // ... an element into a block
    | Publish                  // ... moves the tail past what it constructed
    | Abandon                  // ... or gives that up, as when an allocation fails
    | Revert                   // ... and takes a block it did not use out again
    | Consume(m: D.Move<T>)    // a consumer makes a step of its dequeue
    | Read(k: nat, i: nat)     // ... moves the element at an index of its grant out
    | Empty(i: nat)            // ... and counts it in the block
    | Release(b: nat)          // ... and takes the block out when it counted the last one

  function End<T>(s: State<T>): int {
    s.queue.c.tail + |s.pending|
  }

  /** The element found under an index, if its block is in the index and the cell was written. */
  function Fetch<T>(s: State<T>, i: nat): Option<T> {
    if i / BLOCK in s.live && (s.live[i / BLOCK], i % BLOCK) in s.cells then Some(s.cells[(s.live[i / BLOCK], i % BLOCK)])
    else None
  }

  /** The pool hands out blocks that are not in the index; a grant is read index by index. */
  predicate Enabled<T>(s: State<T>, m: Move<T>) {
    match m
    case Open(p) => forall b :: b in s.live ==> s.live[b] != p
    case Construct(_) => 0 <= End(s) < s.begun * BLOCK
    case Publish => true
    case Abandon => true
    case Revert => s.begun > 0 && (s.begun - 1) * BLOCK >= End(s)
    case Consume(d) => !d.Enqueue? && D.Enabled(s.queue, d)
    case Read(k, i) => k < |s.queue.grants| && D.Covers(s.queue.grants[k], i) && i !in s.read
    case Empty(i) => i in s.read && i !in s.gone
    case Release(b) => b in s.closing
  }

  function Constructed<T>(s: State<T>, i: nat, x: T): State<T> {
    var s' := s.(pending := s.pending + [x]);
    if i / BLOCK in s.live then s'.(cells := s.cells[(s.live[i / BLOCK], i % BLOCK) := x]) else s'
  }

  function Counted<T>(s: State<T>, i: nat): State<T> {
    var b := i / BLOCK;
    var s' := s.(gone := s.gone + {i});
    if b !in s.live || s.live[b] !in s.emptied then s'
    else
      var n := s.emptied[s.live[b]] + 1;
      s'.(emptied := s.emptied[s.live[b] := n], closing := if n == BLOCK then s.closing + {b} else s.closing)
  }

  function Next<T>(s: State<T>, m: Move<T>): State<T>
    requires Enabled(s, m)
  {
    match m
    case Open(p) => s.(live := s.live[s.begun := p], emptied := s.emptied[p := 0], begun := s.begun + 1)
    case Construct(x) => Constructed(s, End(s), x)
    case Publish => s.(queue := D.Next(s.queue, D.Enqueue(s.pending)), pending := [])
    case Abandon => s.(pending := [])
    case Revert => s.(live := s.live - {s.begun - 1}, begun := s.begun - 1)
    case Consume(d) => s.(queue := D.Next(s.queue, d))
    case Read(_, i) => s.(read := s.read[i := Fetch(s, i)])
    case Empty(i) => Counted(s, i)
    case Release(b) => s.(live := s.live - {b}, closing := s.closing - {b})
  }

  predicate Init<T>(s: State<T>) {
    && D.Init(s.queue) && s.begun == 0 && s.live == map[] && s.closing == {}
    && s.pending == [] && s.read == map[] && s.gone == {}
  }

  ghost predicate IsRun<T(!new)>(states: seq<State<T>>, moves: seq<Move<T>>) {
    && |states| == |moves| + 1 && Init(states[0])
    && forall i :: 0 <= i < |moves| ==> Enabled(states[i], moves[i]) && states[i + 1] == Next(states[i], moves[i])
  }

  // ---------------------------------------------------------------- invariant

  function GoneOf(gone: set<nat>, b: nat): set<nat> {
    set i | i in gone && i / BLOCK == b
  }

  /** A block in the index counts exactly the elements moved out of it; at 32 it is taken out. */
  ghost predicate BlockOk<T>(s: State<T>, b: nat) {
    b in s.live ==>
      && b < s.begun && s.live[b] in s.emptied
      && s.emptied[s.live[b]] == |GoneOf(s.gone, b)|
      && (b in s.closing <==> |GoneOf(s.gone, b)| == BLOCK)
  }

  /** An element that was not moved out is where a lookup finds it. */
  ghost predicate CellOk<T>(s: State<T>, i: nat) {
    && (i / BLOCK < s.begun && i !in s.gone ==> i / BLOCK in s.live)
    && (i < |s.queue.items + s.pending| && i !in s.gone ==> Fetch(s, i) == Some((s.queue.items + s.pending)[i]))
  }

  /** Only what a dequeue was granted is read, and what is read is what was enqueued. */
  ghost predicate ReadOk<T>(s: State<T>, i: nat) {
    i in s.read ==> i < s.queue.c.head && i < |s.queue.items| && s.read[i] == Some(s.queue.items[i])
  }

  ghost predicate Inv<T>(s: State<T>) {
    && D.Inv(s.queue) && End(s) <= s.begun * BLOCK
    && (forall b :: BlockOk(s, b))
    && (forall b, c :: b in s.live && c in s.live && b != c ==> s.live[b] != s.live[c])
    && (forall i :: CellOk(s, i))
    && (forall i :: ReadOk(s, i))
    && s.gone <= s.read.Keys && s.closing <= s.live.Keys
  }

  // ------------------------------------------------------------ counting a block

  function Range(lo: nat, n: nat): (r: set<nat>)
    ensures forall i :: i in r <==> lo <= i < lo + n
    ensures |r| == n
  {
    if n == 0 then {} else Range(lo, n - 1) + {lo + n - 1}
  }

  lemma SubsetSize(a: set<nat>, b: set<nat>)
    requires a <= b
    ensures |a| <= |b| && (|a| == |b| ==> a == b)
  {
    assert b == a + (b - a);
  }

  /** At most 32 indices of a block are gone; if there are 32, all of them are. */
  lemma BlockSize(gone: set<nat>, b: nat)
    ensures |GoneOf(gone, b)| <= BLOCK
    ensures |GoneOf(gone, b)| == BLOCK ==> forall i: nat :: i / BLOCK == b ==> i in gone
  {
    var all := Range(b * BLOCK, BLOCK);
    SubsetSize(GoneOf(gone, b), all);
    if |GoneOf(gone, b)| == BLOCK {
      forall i: nat | i / BLOCK == b ensures i in gone {
        assert i in all;
      }
    }
  }

  lemma OneMore(gone: set<nat>, i: nat, b: nat)
    requires i !in gone
    ensures |GoneOf(gone + {i}, b)| == |GoneOf(gone, b)| + if i / BLOCK == b then 1 else 0
  {
    assert GoneOf(gone + {i}, b) == GoneOf(gone, b) + if i / BLOCK == b then {i} else {};
  }

  // ------------------------------------------------------------- the producer

  lemma NothingGone<T>(s: State<T>, b: nat)
    requires Inv(s) && End(s) <= b * BLOCK
    ensures GoneOf(s.gone, b) == {}
  {
    D.Bounded(s.queue);
    forall i | i in s.gone ensures i / BLOCK != b {
      assert ReadOk(s, i);
    }
  }

  lemma OpenKeeps<T>(s: State<T>, p: nat)
    requires Inv(s) && Enabled(s, Open(p))
    ensures Inv(Next(s, Open(p)))
  {
    var n := Next(s, Open(p));
    NothingGone(s, s.begun);
    assert BlockOk(s, s.begun);
    forall b ensures BlockOk(n, b) { assert BlockOk(s, b); }
    forall i: nat ensures CellOk(n, i) { assert CellOk(s, i); }
    forall i ensures ReadOk(n, i) { assert ReadOk(s, i); }
  }

  lemma ConstructKeeps<T>(s: State<T>, x: T)
    requires Inv(s) && Enabled(s, Construct(x))
    ensures Inv(Next(s, Construct(x)))
  {
    var n, e := Next(s, Construct(x)), End(s);
    D.Bounded(s.queue);
    assert ReadOk(s, e) && CellOk(s, e);
    assert e !in s.gone && e / BLOCK in s.live;
    forall b ensures BlockOk(n, b) { assert BlockOk(s, b); }
    forall i: nat ensures CellOk(n, i) {
      assert CellOk(s, i);
      if i != e && i / BLOCK in s.live {
        assert (s.live[i / BLOCK], i % BLOCK) != (s.live[e / BLOCK], e % BLOCK);
      }
    }
    forall i ensures ReadOk(n, i) { assert ReadOk(s, i); }
  }

  lemma PublishKeeps<T>(s: State<T>)
    requires Inv(s)
    ensures Inv(Next(s, Publish))
  {
    var n := Next(s, Publish);
    D.MoveKeepsInv(s.queue, D.Enqueue(s.pending));
    assert n.queue.items + n.pending == s.queue.items + s.pending;
    forall b ensures BlockOk(n, b) { assert BlockOk(s, b); }
    forall i: nat ensures CellOk(n, i) { assert CellOk(s, i); }
    forall i ensures ReadOk(n, i) { assert ReadOk(s, i); }
  }

  lemma WithdrawKeeps<T>(s: State<T>, m: Move<T>)
    requires Inv(s) && (m.Abandon? || m.Revert?) && Enabled(s, m)
    ensures Inv(Next(s, m))
  {
    var n := Next(s, m);
    D.Bounded(s.queue);
    if m.Revert? {
      NothingGone(s, s.begun - 1);
      assert BlockOk(s, s.begun - 1);
    }
    forall b ensures BlockOk(n, b) { assert BlockOk(s, b); }
    forall i: nat ensures CellOk(n, i) { assert CellOk(s, i); }
    forall i ensures ReadOk(n, i) { assert ReadOk(s, i); }
  }

  /** A block that was put in for an insertion that is given up is taken out again, and all is as before. */
  lemma GivingUpRestores<T>(s: State<T>, p: nat, xs: seq<T>)
    requires Inv(s) && Enabled(s, Open(p)) && s.pending == [] && End(s) <= s.begun * BLOCK
    ensures var filled := Next(s, Open(p)).(pending := xs);
            var left := Next(filled, Abandon);
            && Enabled(left, Revert)
            && Next(left, Revert) == s.(emptied := s.emptied[p := 0])
  {
    assert BlockOk(s, s.begun);
    assert s.live[s.begun := p] - {s.begun} == s.live;
  }

  // ------------------------------------------------------------- the consumers

  lemma ConsumeKeeps<T>(s: State<T>, d: D.Move<T>)
    requires Inv(s) && Enabled(s, Consume(d))
    ensures Inv(Next(s, Consume(d)))
  {
    var n := Next(s, Consume(d));
    D.MoveKeepsInv(s.queue, d);
    HeadGrows(s.queue, d);
    forall b ensures BlockOk(n, b) { assert BlockOk(s, b); }
    forall i: nat ensures CellOk(n, i) { assert CellOk(s, i); }
    forall i ensures ReadOk(n, i) { assert ReadOk(s, i); }
  }

  lemma HeadGrows<T>(q: D.State<T>, d: D.Move<T>)
    requires D.Inv(q) && !d.Enqueue? && D.Enabled(q, d)
    ensures var r := D.Next(q, d); r.items == q.items && r.c.tail == q.c.tail && r.c.head >= q.c.head
  {
    if d.Step? { assert D.PcOk(q.threads[d.thread], q.c, q.slots); }
  }

  /** Whoever has a grant for an index and did not count it yet finds its element. */
  lemma GrantedIsFound<T>(s: State<T>, k: nat, i: nat)
    requires Inv(s) && k < |s.queue.grants| && D.Covers(s.queue.grants[k], i) && i !in s.gone
    ensures i < s.queue.c.head && i < |s.queue.items|
    ensures i / BLOCK in s.live && Fetch(s, i) == Some(s.queue.items[i])
  {
    D.Bounded(s.queue);
    D.CoveredOnce(s.queue.grants, s.queue.c.head, i);
    assert CellOk(s, i);
  }

  lemma ReadKeeps<T>(s: State<T>, k: nat, i: nat)
    requires Inv(s) && Enabled(s, Read(k, i))
    ensures Inv(Next(s, Read(k, i)))
  {
    var n := Next(s, Read(k, i));
    GrantedIsFound(s, k, i);
    forall b ensures BlockOk(n, b) { assert BlockOk(s, b); }
    forall j: nat ensures CellOk(n, j) { assert CellOk(s, j); }
    forall j ensures ReadOk(n, j) { assert ReadOk(s, j); }
  }

  lemma EmptyKeeps<T>(s: State<T>, i: nat)
    requires Inv(s) && Enabled(s, Empty(i))
    ensures Inv(Next(s, Empty(i)))
  {
    var n := Next(s, Empty(i));
    D.Bounded(s.queue);
    assert ReadOk(s, i) && CellOk(s, i) && BlockOk(s, i / BLOCK);
    assert i / BLOCK in s.live;
    BlockSize(n.gone, i / BLOCK);
    forall b ensures BlockOk(n, b) {
      assert BlockOk(s, b);
      OneMore(s.gone, i, b);
    }
    forall j: nat ensures CellOk(n, j) { assert CellOk(s, j); }
    forall j ensures ReadOk(n, j) { assert ReadOk(s, j); }
  }

  lemma ReleaseKeeps<T>(s: State<T>, b: nat)
    requires Inv(s) && Enabled(s, Release(b))
    ensures Inv(Next(s, Release(b)))
  {
    var n := Next(s, Release(b));
    assert BlockOk(s, b);
    BlockSize(s.gone, b);
    forall c ensures BlockOk(n, c) { assert BlockOk(s, c); }
    forall j: nat ensures CellOk(n, j) { assert CellOk(s, j); }
    forall j ensures ReadOk(n, j) { assert ReadOk(s, j); }
  }

  lemma MoveKeepsInv<T>(s: State<T>, m: Move<T>)
    requires Inv(s) && Enabled(s, m)
    ensures Inv(Next(s, m))
  {
    match m
    case Open(p) => OpenKeeps(s, p);
    case Construct(x) => ConstructKeeps(s, x);
    case Publish => PublishKeeps(s);
    case Abandon => WithdrawKeeps(s, m);
    case Revert => WithdrawKeeps(s, m);
    case Consume(d) => ConsumeKeeps(s, d);
    case Read(k, i) => ReadKeeps(s, k, i);
    case Empty(i) => EmptyKeeps(s, i);
    case Release(b) => ReleaseKeeps(s, b);
  }

  lemma InitIsInv<T>(s: State<T>)
    requires Init(s)
    ensures Inv(s)
  {
    SumMapZero(s.queue.threads, D.Pending);
  }

  lemma {:induction false} RunKeepsInv<T(!new)>(states: seq<State<T>>, moves: seq<Move<T>>, i: nat)
    requires IsRun(states, moves) && i < |states|
    ensures Inv(states[i])
  {
    if i == 0 {
      InitIsInv(states[0]);
    } else {
      RunKeepsInv(states, moves, i - 1);
      MoveKeepsInv(states[i - 1], moves[i - 1]);
    }
  }

  // ------------------------------------------------------------ main results

  /**
     A block stays in the index until all of its elements are moved out: every index that
     a dequeue was granted and did not count yet has its block there, with the element in it.
   */
  lemma GrantedStaysLive<T(!new)>(states: seq<State<T>>, moves: seq<Move<T>>, n: nat, k: nat, i: nat)
    requires IsRun(states, moves) && n < |states|
    requires k < |states[n].queue.grants| && D.Covers(states[n].queue.grants[k], i) && i !in states[n].gone
    ensures i / BLOCK in states[n].live
    ensures i < |states[n].queue.items| && Fetch(states[n], i) == Some(states[n].queue.items[i])
  {
    RunKeepsInv(states, moves, n);
    GrantedIsFound(states[n], k, i);
  }

  /** What was read under an index, at any time before, is the element enqueued there. */
  lemma ReadsAreRight<T(!new)>(states: seq<State<T>>, moves: seq<Move<T>>, n: nat, i: nat)
    requires IsRun(states, moves) && n < |states| && i in states[n].read
    ensures i < |states[n].queue.items| && states[n].read[i] == Some(states[n].queue.items[i])
  {
    RunKeepsInv(states, moves, n);
    assert ReadOk(states[n], i);
  }

  /** The producer's cell is free: its block is in the index, and no element in use is overwritten. */
  lemma ConstructIsSafe<T(!new)>(states: seq<State<T>>, moves: seq<Move<T>>, n: nat, i: nat)
    requires IsRun(states, moves) && n < |moves| && moves[n].Construct?
    ensures End(states[n]) >= 0 && End(states[n]) / BLOCK in states[n].live
    ensures i < End(states[n]) && i !in states[n].gone ==> Fetch(states[n + 1], i) == Fetch(states[n], i)
  {
    var s := states[n];
    RunKeepsInv(states, moves, n);
    RunKeepsInv(states, moves, n + 1);
    D.Bounded(s.queue);
    assert ReadOk(s, End(s)) && CellOk(s, End(s)) && CellOk(s, i) && CellOk(states[n + 1], i);
  }

  /** A block in the index counts at most 32 elements, and is up for release exactly when all 32 are out. */
  lemma ReleasedWhenEmpty<T(!new)>(states: seq<State<T>>, moves: seq<Move<T>>, n: nat, b: nat)
    requires IsRun(states, moves) && n < |states| && b in states[n].live
    ensures states[n].live[b] in states[n].emptied && states[n].emptied[states[n].live[b]] <= BLOCK
    ensures b in states[n].closing <==> forall i: nat :: i / BLOCK == b ==> i in states[n].gone
  {
    var s := states[n];
    RunKeepsInv(states, moves, n);
    assert BlockOk(s, b);
    BlockSize(s.gone, b);
    if forall i: nat :: i / BLOCK == b ==> i in s.gone {
      assert GoneOf(s.gone, b) == Range(b * BLOCK, BLOCK);
    }
  }
}
