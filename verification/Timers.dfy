/**
 Connection timers. Refreshing or cancelling a timer leaves its old entry in the
 heap; a timeout pass tells stale entries apart by the table of latest deadlines.
 */
module Timers {

  /** Time points are counted in clock ticks; `DEFAULT` is a time point no deadline has. */
  const DEFAULT := 0

  datatype TimerNode = TimerNode(fd: int, expire: int)

  // ------------------------------------------------- the plain map, and runs

  type Deadlines = map<int, int>

  datatype Op = Add(fd: int, expire: int) | Cancel(fd: int) | Pass(now: int)

  ghost predicate Due(live: Deadlines, fd: int, now: int) {
    fd in live && live[fd] <= now
  }

  ghost function Waiting(live: Deadlines, now: int): Deadlines {
    map fd | fd in live && !Due(live, fd, now) :: live[fd]
  }

  ghost function Step(live: Deadlines, op: Op): Deadlines {
    match op
    case Add(fd, expire) => live[fd := expire]
    case Cancel(fd) => live - {fd}
    case Pass(now) => Waiting(live, now)
  }

  ghost function Run(ops: seq<Op>): Deadlines {
    if ops == [] then map[] else Step(Run(ops[..|ops| - 1]), ops[|ops| - 1])
  }

  /** An operation that ends a timer set for `expire`, or replaces it. */
  predicate Ends(op: Op, fd: int, expire: int) {
    match op
    case Add(f, _) => f == fd
    case Cancel(f) => f == fd
    case Pass(now) => expire <= now
  }

  /** The timer was set by the `i`th operation and nothing ended it since. */
  ghost predicate SetAt(ops: seq<Op>, i: nat, fd: int, expire: int) {
    && i < |ops| && ops[i] == Add(fd, expire)
    && forall j :: i < j < |ops| ==> !Ends(ops[j], fd, expire)
  }

  /** A timer is live exactly when some call set it and no later call ended it. */
  lemma {:induction false} LiveIsLatest(ops: seq<Op>, fd: int, expire: int)
    ensures fd in Run(ops) && Run(ops)[fd] == expire <==> exists i: nat :: SetAt(ops, i, fd, expire)
  {
    if ops != [] {
      var n := |ops| - 1;
      var before, last := ops[..n], ops[n];
      LiveIsLatest(before, fd, expire);
      if last == Add(fd, expire) {
        assert SetAt(ops, n, fd, expire);
      } else if i: nat :| SetAt(ops, i, fd, expire) {
        assert SetAt(before, i, fd, expire);
        assert !Ends(ops[n], fd, expire);
      } else if i: nat :| SetAt(before, i, fd, expire) {
        assert !SetAt(ops, i, fd, expire);
      }
    }
  }

  /** How often the run closes a descriptor. */
  ghost function Closings(ops: seq<Op>, fd: int): nat {
    if ops == [] then 0
    else
      var before, last := ops[..|ops| - 1], ops[|ops| - 1];
      Closings(before, fd) + if last.Pass? && Due(Run(before), fd, last.now) then 1 else 0
  }

  ghost function Adds(ops: seq<Op>, fd: int): nat {
    if ops == [] then 0
    else
      var last := ops[|ops| - 1];
      Adds(ops[..|ops| - 1], fd) + if last.Add? && last.fd == fd then 1 else 0
  }

  /** However often a descriptor is reused, each timer closes it at most once. */
  lemma {:induction false} ClosedAtMostOncePerTimer(ops: seq<Op>, fd: int)
    ensures Closings(ops, fd) + (if fd in Run(ops) then 1 else 0) <= Adds(ops, fd)
  {
    if ops != [] {
      ClosedAtMostOncePerTimer(ops[..|ops| - 1], fd);
    }
  }

  // ------------------------------------------------------------ the manager

  /** One closing for each due timer, earliest deadline first. */
  ghost predicate ClosesDue(closed: seq<int>, live: Deadlines, now: int) {
    && (forall fd :: fd in closed <==> Due(live, fd, now))
    && InOrder(closed, live)
  }

  /** Distinct descriptors, earliest deadline first. */
  ghost predicate InOrder(closed: seq<int>, live: Deadlines) {
    && (forall fd :: fd in closed ==> fd in live)
    && (forall i, j :: 0 <= i < j < |closed| ==>
          closed[i] != closed[j] && live[closed[i]] <= live[closed[j]])
  }

  /** Between two closings of a pass: what was closed was due, and the rest is still live. */
  ghost predicate PartlyPassed(closed: seq<int>, live: Deadlines, left: Deadlines, now: int) {
    && InOrder(closed, live)
    && (forall fd :: fd in closed ==> Due(live, fd, now))
    && (forall fd :: fd in left <==> fd in live && fd !in closed)
    && (forall fd :: fd in left ==> left[fd] == live[fd])
  }

  lemma ClosesOne(closed: seq<int>, live: Deadlines, left: Deadlines, now: int, fd: int)
    requires PartlyPassed(closed, live, left, now) && Due(left, fd, now)
    requires forall f :: f in closed ==> live[f] <= left[fd]
    ensures PartlyPassed(closed + [fd], live, left - {fd}, now)
  {
  }

  lemma PassEnds(closed: seq<int>, live: Deadlines, left: Deadlines, now: int)
    requires PartlyPassed(closed, live, left, now) && forall fd :: fd in left ==> left[fd] > now
    ensures left == Waiting(live, now) && ClosesDue(closed, live, now)
  {
    assert forall fd :: fd in live ==> fd in left || fd in closed;
    assert forall fd :: Due(live, fd, now) <==> fd in closed;
    forall fd ensures fd in left <==> fd in Waiting(live, now) {
      assert fd in left ==> left[fd] == live[fd] > now;
    }
  }

  lemma EarliestExists(heap: multiset<TimerNode>) returns (top: TimerNode)
    requires |heap| > 0
    ensures top in heap && forall n :: n in heap ==> top.expire <= n.expire
    decreases |heap|
  {
    top :| top in heap;
    var others := heap - multiset{top};
    if |others| > 0 {
      var best := EarliestExists(others);
      if best.expire < top.expire { top := best; }
      assert forall n :: n in heap && n != top ==> n in others || n == best || n.expire >= top.expire;
    }
  }

  class TimerManager {
    var minHeap: multiset<TimerNode>
    var secretTable: map<int, int>

    /** Every live timer has its entry in the heap. */
    ghost predicate Valid()
      reads this
    {
      && (forall n :: n in minHeap ==> n.expire != DEFAULT)
      && forall fd :: fd in Live() ==> TimerNode(fd, Live()[fd]) in minHeap
    }

    /** The table without the default entries that looking up a dead timer leaves behind. */
    ghost function Live(): Deadlines
      reads this
    {
      map fd | fd in secretTable && secretTable[fd] != DEFAULT :: secretTable[fd]
    }

    constructor ()
      ensures Valid() && Live() == Run([])
    {
      minHeap, secretTable := multiset{}, map[];
    }

    method AddTimer(fd: int, now: int, timeout: int)
      requires Valid() && now + timeout != DEFAULT
      modifies this
      ensures Valid() && Live() == Step(old(Live()), Add(fd, now + timeout))
    {
      var expire := now + timeout;
      minHeap := minHeap + multiset{TimerNode(fd, expire)};
      secretTable := secretTable[fd := expire];
      assert forall f :: f in Live() && f != fd ==> f in old(Live()) && Live()[f] == old(Live())[f];
    }

    /** Reading the table by key inserts the default time point when the key is missing. */
    method Lookup(fd: int) returns (expire: int)
      modifies this`secretTable
      ensures Live() == old(Live())
      ensures expire == if fd in Live() then Live()[fd] else DEFAULT
    {
      if fd !in secretTable {
        secretTable := secretTable[fd := DEFAULT];
      }
      expire := secretTable[fd];
    }

    method Top() returns (top: TimerNode)
      requires |minHeap| > 0
      ensures top in minHeap && forall n :: n in minHeap ==> top.expire <= n.expire
    {
      ghost var earliest := EarliestExists(minHeap);
      top :| top in minHeap && forall n :: n in minHeap ==> top.expire <= n.expire;
    }

    /** A stale entry is dropped. */
    method Discard(top: TimerNode)
      requires Valid() && top in minHeap && (top.fd in Live() ==> Live()[top.fd] != top.expire)
      modifies this`minHeap
      ensures Valid() && Live() == old(Live()) && minHeap == old(minHeap) - multiset{top}
    {
      minHeap := minHeap - multiset{top};
      assert forall n :: n in old(minHeap) && n != top ==> n in minHeap;
    }

    /** A live entry leaves the heap and the table. */
    method Expire(top: TimerNode)
      requires Valid() && top in minHeap
      modifies this
      ensures Valid() && Live() == old(Live()) - {top.fd} && minHeap == old(minHeap) - multiset{top}
    {
      minHeap := minHeap - multiset{top};
      secretTable := secretTable - {top.fd};
      assert forall n :: n in old(minHeap) && n != top ==> n in minHeap;
      assert forall fd :: fd in Live() ==> fd in old(Live()) && Live()[fd] == old(Live())[fd];
    }

    /** A pass closes exactly the live timers that are due, once each and in deadline order. */
    method HandleTimeouts(now: int) returns (closed: seq<int>)
      requires Valid()
      modifies this
      ensures Valid() && Live() == Step(old(Live()), Pass(now))
      ensures ClosesDue(closed, old(Live()), now)
    {
      ghost var live := Live();
      closed := [];
      while |minHeap| > 0
        invariant Valid() && PartlyPassed(closed, live, Live(), now)
        invariant forall fd, n :: fd in closed && n in minHeap ==> live[fd] <= n.expire
        decreases |minHeap|
      {
        var top := Top();
        if top.expire > now { break; }
        var latest := Lookup(top.fd);
        if top.expire != latest {
          Discard(top);
          continue;
        }
        ClosesOne(closed, live, Live(), now, top.fd);
        closed := closed + [top.fd];
        Expire(top);
      }
      assert forall n :: n in minHeap ==> n.expire > now;
      assert forall fd :: fd in Live() ==> TimerNode(fd, Live()[fd]).expire > now;
      PassEnds(closed, live, Live(), now);
    }

    method CancelTimer(fd: int)
      requires Valid()
      modifies this
      ensures Valid() && Live() == Step(old(Live()), Cancel(fd))
    {
      secretTable := secretTable - {fd};
      assert forall f :: f in Live() ==> f in old(Live()) && Live()[f] == old(Live())[f];
    }
  }
}
