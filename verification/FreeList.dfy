/**
 The reference-counted free list of blocks: a stack of nodes that threads push and pop
 with compare-and-swap. A temporary reference keeps a node from being linked again, so
 the next pointer read under it is still right when the swap of the head succeeds.
 */
module FreeList {
  import opened Sums

  const SHOULD := 0x8000_0000
  const TWO32 := 0x1_0000_0000

  datatype Ptr = Null | At(node: nat)

  /** Where a node is, and which thread is responsible for it; kept for the proofs only. */
  datatype Status =
    | Out                     // in the hands of a client
    | Returning(owner: nat)      // given back, flag not yet set
    | Linking(owner: nat)        // flag set and unreferenced: about to be linked
    | Joining(owner: nat)        // counted as listed, head not yet swung
    | Waiting                 // flag set, whoever drops the last reference will link it
    | Listed
    | Leaving(owner: nat)        // off the list, references not yet dropped

  datatype Node = Node(refs: int, next: Ptr, status: Status)

  /** What a thread does after linking: return from `add`, or go on in `try_get`. */
  datatype Then = Return | Resume(head: Ptr)

  datatype Pc =
    | Idle
    | Adds(n: nat)                                 // add: sets the flag
    | LoadsHead(n: nat, then_: Then)
    | StoresNext(n: nat, head: Ptr, then_: Then)
    | StoresRefs(n: nat, head: Ptr, then_: Then)
    | Links(n: nat, head: Ptr, then_: Then)
    | Defers(n: nat, head: Ptr, then_: Then)       // the link failed
    | Begins                                       // try_get: loads the head
    | Looks(head: Ptr)                             // ... loads its reference count
    | Acquires(n: nat, seen: int)                  // ... takes a reference
    | ReadsNext(n: nat)
    | Unlinks(n: nat, next: Ptr)
    | DropsBoth(n: nat)                            // took the node: drops its own and the list's reference
    | Drops(n: nat, head: Ptr)                     // lost the race: drops its own

  /** What one atomic operation does to the head, to the one node it touches, and to its thread. */
  datatype Effect = Effect(head: Ptr, node: Node, pc: Pc)

  function Word(x: int): int {
    x % TWO32
  }

  predicate Unreferenced(refs: int) {
    refs % SHOULD == 0
  }

  function After(then_: Then): Pc {
    match then_
    case Return => Idle
    case Resume(head) => Looks(head)
  }

  predicate HasTarget(pc: Pc) {
    !pc.Idle? && !pc.Begins? && !pc.Looks?
  }

  function Act(head: Ptr, x: Node, pc: Pc, t: nat): Effect
    requires HasTarget(pc)
  {
    match pc
    case Adds(n) =>
      var y := x.(refs := Word(x.refs + SHOULD));
      if x.refs == 0 then Effect(head, y.(status := Linking(t)), LoadsHead(n, Return))
      else Effect(head, y.(status := Waiting), Idle)
    case LoadsHead(n, k) => Effect(head, x, StoresNext(n, head, k))
    case StoresNext(n, h, k) => Effect(head, x.(next := h), StoresRefs(n, h, k))
    case StoresRefs(n, h, k) => Effect(head, x.(refs := 1, status := Joining(t)), Links(n, h, k))
    case Links(n, h, k) =>
      if head == h then Effect(At(n), x.(status := Listed), After(k))
      else Effect(head, x, Defers(n, head, k))
    case Defers(n, h, k) =>
      var y := x.(refs := Word(x.refs + SHOULD - 1));
      if x.refs == 1 then Effect(head, y.(status := Linking(t)), StoresNext(n, h, k))
      else Effect(head, y.(status := Waiting), After(k))
    case Acquires(n, seen) =>
      if Unreferenced(seen) || x.refs != seen then Effect(head, x, Begins)
      else Effect(head, x.(refs := Word(seen + 1)), ReadsNext(n))
    case ReadsNext(n) => Effect(head, x, Unlinks(n, x.next))
    case Unlinks(n, next) =>
      if head == At(n) then Effect(next, x.(status := Leaving(t)), DropsBoth(n))
      else Effect(head, x, Drops(n, head))
    case DropsBoth(n) => Effect(head, x.(refs := Word(x.refs - 2), status := Out), Idle)
    case Drops(n, h) =>
      var y := x.(refs := Word(x.refs - 1));
      if x.refs == SHOULD + 1 then Effect(head, y.(status := Linking(t)), LoadsHead(n, Resume(h)))
      else Effect(head, y, Looks(h))
  }

  // ------------------------------------------------------- all the threads

  /** `list` is the stack as it hangs from the head; `adds` and `takes` count what happened to each node. */
  datatype State = State(
    head: Ptr, nodes: map<nat, Node>, list: seq<nat>, threads: map<nat, Pc>,
    adds: map<nat, nat>, takes: map<nat, nat>)

  datatype Move = Add(thread: nat, n: nat) | TryGet(thread: nat) | Step(thread: nat)

  /** Only a node in the hands of a client may be given back. */
  predicate Enabled(s: State, m: Move) {
    && m.thread in s.threads
    && match m
       case Add(t, n) => s.threads[t].Idle? && n in s.nodes && s.nodes[n].status.Out?
       case TryGet(t) => s.threads[t].Idle?
       case Step(t) =>
         && !s.threads[t].Idle?
         && (HasTarget(s.threads[t]) ==> s.threads[t].n in s.nodes)
         && (s.threads[t].Looks? && s.threads[t].head.At? ==> s.threads[t].head.node in s.nodes)
  }

  function NewList(head: Ptr, list: seq<nat>, pc: Pc): seq<nat> {
    if pc.Links? && head == pc.head then [pc.n] + list
    else if pc.Unlinks? && head == At(pc.n) && list != [] then list[1..]
    else list
  }

  function Bump(m: map<nat, nat>, n: nat): map<nat, nat> {
    m[n := 1 + if n in m then m[n] else 0]
  }

  function StepNode(s: State, t: nat): State
    requires Enabled(s, Step(t)) && HasTarget(s.threads[t])
  {
    var pc := s.threads[t];
    var e := Act(s.head, s.nodes[pc.n], pc, t);
    State(e.head, s.nodes[pc.n := e.node], NewList(s.head, s.list, pc), s.threads[t := e.pc],
      s.adds, if pc.DropsBoth? then Bump(s.takes, pc.n) else s.takes)
  }

  /** Loading the head, or the reference count of the node it showed. */
  function StepLook(s: State, t: nat): State
    requires Enabled(s, Step(t)) && !HasTarget(s.threads[t])
  {
    var pc := s.threads[t];
    if pc.Begins? then s.(threads := s.threads[t := Looks(s.head)])
    else if pc.head.Null? then s.(threads := s.threads[t := Idle])
    else s.(threads := s.threads[t := Acquires(pc.head.node, s.nodes[pc.head.node].refs)])
  }

  function Next(s: State, m: Move): State
    requires Enabled(s, m)
  {
    match m
    case Add(t, n) =>
      s.(threads := s.threads[t := Adds(n)], nodes := s.nodes[n := s.nodes[n].(status := Returning(t))],
         adds := Bump(s.adds, n))
    case TryGet(t) => s.(threads := s.threads[t := Begins])
    case Step(t) => if HasTarget(s.threads[t]) then StepNode(s, t) else StepLook(s, t)
  }

  /** Fewer threads than a count has room for; every node starts out in the hands of a client. */
  predicate Init(s: State) {
    && s.head == Null && s.list == [] && s.adds == map[] && s.takes == map[]
    && |s.threads| < SHOULD - 1 && (forall t :: t in s.threads ==> s.threads[t] == Idle)
    && forall n :: n in s.nodes ==> s.nodes[n] == Node(0, Null, Out)
  }

  ghost predicate IsRun(states: seq<State>, moves: seq<Move>) {
    && |states| == |moves| + 1 && Init(states[0])
    && forall i :: 0 <= i < |moves| ==> Enabled(states[i], moves[i]) && states[i + 1] == Next(states[i], moves[i])
  }

  // ---------------------------------------------------------------- invariant

  /** The node a thread holds a temporary reference to. */
  predicate Holds(pc: Pc, n: nat) {
    (pc.ReadsNext? || pc.Unlinks? || pc.DropsBoth? || pc.Drops?) && pc.n == n
  }

  ghost function Weight(n: nat): Pc -> int {
    (pc: Pc) => if Holds(pc, n) then 1 else 0
  }

  ghost function Temps(threads: map<nat, Pc>, n: nat): int {
    SumMap(threads, Weight(n))
  }

  /** The thread that alone may act on a node, by where it stands. */
  predicate Responsible(pc: Pc) {
    pc.Adds? || pc.LoadsHead? || pc.StoresNext? || pc.StoresRefs? || pc.Links? || pc.Defers? || pc.DropsBoth?
  }

  function Role(pc: Pc, t: nat): Status
    requires Responsible(pc)
  {
    match pc
    case Adds(_) => Returning(t)
    case Links(_, _, _) => Joining(t)
    case Defers(_, _, _) => Joining(t)
    case DropsBoth(_) => Leaving(t)
    case _ => Linking(t)
  }

  predicate Flagged(s: Status) {
    s.Linking? || s.Waiting?
  }

  predicate Counted(s: Status) {
    s.Joining? || s.Listed? || s.Leaving?
  }

  predicate HasOwner(s: Status) {
    s.Returning? || s.Linking? || s.Joining? || s.Leaving?
  }

  /** The count is the flag, the list's reference and the temporary ones. */
  predicate NodeOk(x: Node, temps: int) {
    && 0 <= temps < SHOULD - 1
    && x.refs == (if Flagged(x.status) then SHOULD else 0) + (if Counted(x.status) then 1 else 0) + temps
    && (x.status.Linking? ==> temps == 0)
    && (x.status.Waiting? ==> temps > 0)
  }

  predicate PcOk(x: Node, pc: Pc, t: nat)
    requires HasTarget(pc)
  {
    && (Responsible(pc) ==> x.status == Role(pc, t))
    && (pc.StoresRefs? || pc.Links? ==> x.next == pc.head)
    && (pc.Unlinks? ==> x.next == pc.next)
  }

  predicate Known(nodes: map<nat, Node>, p: Ptr) {
    p.At? ==> p.node in nodes
  }

  /** Every pointer a thread keeps leads to a node. */
  predicate Knows(nodes: map<nat, Node>, pc: Pc) {
    && (HasTarget(pc) ==> pc.n in nodes)
    && (pc.StoresNext? || pc.StoresRefs? || pc.Links? || pc.Defers? || pc.Looks? || pc.Drops? ==> Known(nodes, pc.head))
    && ((pc.LoadsHead? || pc.StoresNext? || pc.StoresRefs? || pc.Links? || pc.Defers?) && pc.then_.Resume? ==>
          Known(nodes, pc.then_.head))
    && (pc.Unlinks? ==> Known(nodes, pc.next))
  }

  function First(list: seq<nat>): Ptr {
    if list == [] then Null else At(list[0])
  }

  predicate Chain(nodes: map<nat, Node>, list: seq<nat>) {
    list == [] || (
      && list[0] in nodes && nodes[list[0]].next == First(list[1..]) && list[0] !in list[1..]
      && Chain(nodes, list[1..]))
  }

  ghost predicate ThreadOk(s: State, t: nat)
    requires t in s.threads
  {
    && Knows(s.nodes, s.threads[t])
    && (HasTarget(s.threads[t]) ==> PcOk(s.nodes[s.threads[t].n], s.threads[t], t))
  }

  function CountOf(m: map<nat, nat>, n: nat): nat {
    if n in m then m[n] else 0
  }

  ghost predicate PlaceOk(s: State, n: nat)
    requires n in s.nodes
  {
    var x := s.nodes[n];
    && NodeOk(x, Temps(s.threads, n))
    && Known(s.nodes, x.next)
    && (x.status.Listed? <==> n in s.list)
    && (HasOwner(x.status) ==>
          && x.status.owner in s.threads && Responsible(s.threads[x.status.owner]) && s.threads[x.status.owner].n == n)
  }

  /** Every hand-out of a node was followed by at most one return, and the other way round. */
  ghost predicate Alternates(s: State, n: nat)
    requires n in s.nodes
  {
    CountOf(s.adds, n) == CountOf(s.takes, n) + if s.nodes[n].status.Out? then 0 else 1
  }

  ghost predicate Inv(s: State) {
    && |s.threads| < SHOULD - 1
    && (forall n :: n in s.nodes ==> PlaceOk(s, n))
    && (forall n :: n in s.nodes ==> Alternates(s, n))
    && (forall t :: t in s.threads ==> ThreadOk(s, t))
    && s.head == First(s.list) && Chain(s.nodes, s.list)
  }

  // -------------------------------------------------------------- each step

  lemma {:induction false} TempsBounded(threads: map<nat, Pc>, n: nat)
    ensures 0 <= Temps(threads, n) <= |threads|
    decreases |threads|
  {
    if threads != map[] {
      var t :| t in threads;
      SumMapPick(threads, t, Weight(n));
      TempsBounded(threads - {t}, n);
    }
  }

  lemma TempsPositive(threads: map<nat, Pc>, t: nat, n: nat)
    requires t in threads && Holds(threads[t], n)
    ensures Temps(threads, n) > 0
  {
    SumMapBounds(threads, Weight(n));
    assert Weight(n)(threads[t]) <= Temps(threads, n);
  }

  /** The count of the touched node stays right, and the thread knows what its next step needs. */
  lemma ActKeepsNode(head: Ptr, x: Node, pc: Pc, t: nat, temps: int)
    requires HasTarget(pc) && NodeOk(x, temps) && PcOk(x, pc, t)
    requires Holds(pc, pc.n) ==> temps > 0
    requires pc.Unlinks? && head == At(pc.n) ==> x.status.Listed?
    ensures var e := Act(head, x, pc, t);
            var now := temps + Weight(pc.n)(e.pc) - Weight(pc.n)(pc);
            && (0 <= now < SHOULD - 1 ==> NodeOk(e.node, now))
            && (HasTarget(e.pc) ==> e.pc.n == pc.n && PcOk(e.node, e.pc, t))
  {
  }

  /** A node changes hands only through the thread that acts on it. */
  lemma ActKeepsOwner(head: Ptr, x: Node, pc: Pc, t: nat)
    requires HasTarget(pc) && PcOk(x, pc, t) && (HasOwner(x.status) && x.status.owner == t ==> Responsible(pc))
    ensures var e := Act(head, x, pc, t);
            HasOwner(e.node.status) ==>
              if e.node.status.owner == t then Responsible(e.pc) && e.pc.n == pc.n
              else e.node.status == x.status
    ensures var e := Act(head, x, pc, t); e.node.next == x.next || (pc.StoresNext? && e.node.next == pc.head)
  {
  }

  /** Another thread at the same node is not disturbed. */
  lemma ActKeepsOther(head: Ptr, x: Node, pc: Pc, t: nat, temps: int, other: Pc, u: nat)
    requires t != u && HasTarget(pc) && HasTarget(other) && pc.n == other.n
    requires NodeOk(x, temps) && PcOk(x, pc, t) && PcOk(x, other, u)
    requires Holds(pc, pc.n) || Holds(other, pc.n) ==> temps > 0
    requires pc.Unlinks? && head == At(pc.n) ==> x.status.Listed?
    ensures PcOk(Act(head, x, pc, t).node, other, u)
  {
  }

  lemma {:induction false} ChainFrame(nodes: map<nat, Node>, after: map<nat, Node>, list: seq<nat>)
    requires Chain(nodes, list)
    requires forall n :: n in list && n in nodes ==> n in after && after[n].next == nodes[n].next
    ensures Chain(after, list)
  {
    if list != [] {
      ChainFrame(nodes, after, list[1..]);
    }
  }

  lemma {:induction false} ChainInNodes(nodes: map<nat, Node>, list: seq<nat>, n: nat)
    requires Chain(nodes, list) && n in list
    ensures n in nodes
  {
    if n != list[0] {
      ChainInNodes(nodes, list[1..], n);
    }
  }

  lemma HeadListed(s: State)
    requires Inv(s) && s.head.At?
    ensures s.list != [] && s.head.node == s.list[0] && s.head.node in s.nodes && s.nodes[s.head.node].status.Listed?
    ensures s.nodes[s.head.node].next == First(s.list[1..])
  {
  }

  /** What a step at a node may rely on. */
  ghost predicate Ready(s: State, t: nat)
    requires t in s.threads && HasTarget(s.threads[t])
  {
    var pc := s.threads[t];
    && pc.n in s.nodes && PlaceOk(s, pc.n) && PcOk(s.nodes[pc.n], pc, t)
    && (Holds(pc, pc.n) ==> Temps(s.threads, pc.n) > 0)
    && (pc.Unlinks? && s.head == At(pc.n) ==> s.nodes[pc.n].status.Listed?)
  }

  lemma AtNode(s: State, t: nat)
    requires Inv(s) && t in s.threads && HasTarget(s.threads[t])
    ensures Ready(s, t) && ThreadOk(s, t) && Known(s.nodes, s.head)
  {
    var pc := s.threads[t];
    assert ThreadOk(s, t);
    if Holds(pc, pc.n) { TempsPositive(s.threads, t, pc.n); }
    if s.head.At? { HeadListed(s); }
  }

  lemma TempsAfter(s: State, t: nat, pc: Pc, n: nat)
    requires t in s.threads
    ensures Temps(s.threads[t := pc], n) == Temps(s.threads, n) + Weight(n)(pc) - Weight(n)(s.threads[t])
  {
    SumMapUpdate(s.threads, t, pc, Weight(n));
  }

  lemma StepList(s: State, t: nat)
    requires Inv(s) && Enabled(s, Step(t)) && HasTarget(s.threads[t])
    ensures var a := StepNode(s, t); a.head == First(a.list) && Chain(a.nodes, a.list)
    ensures var a := StepNode(s, t); var pc := s.threads[t];
            && (forall m :: m != pc.n ==> (m in a.list <==> m in s.list))
            && (pc.n in a.list <==> a.nodes[pc.n].status.Listed?)
  {
    AtNode(s, t);
    var pc := s.threads[t];
    var a := StepNode(s, t);
    if pc.Unlinks? && s.head == At(pc.n) {
      HeadListed(s);
      assert s.list == [pc.n] + s.list[1..];
      ChainFrame(s.nodes, a.nodes, s.list[1..]);
    } else {
      ChainFrame(s.nodes, a.nodes, s.list);
      if pc.Links? && s.head == pc.head {
        assert a.list[1..] == s.list;
      }
    }
  }

  lemma SameThreads(s: State, t: nat, pc: Pc)
    requires t in s.threads
    ensures |s.threads[t := pc]| == |s.threads|
  {
    assert s.threads[t := pc].Keys == s.threads.Keys;
  }

  lemma StepTarget(s: State, t: nat)
    requires Inv(s) && Enabled(s, Step(t)) && HasTarget(s.threads[t])
    ensures PlaceOk(StepNode(s, t), s.threads[t].n)
  {
    AtNode(s, t);
    StepList(s, t);
    var pc := s.threads[t];
    var e := Act(s.head, s.nodes[pc.n], pc, t);
    ActKeepsNode(s.head, s.nodes[pc.n], pc, t, Temps(s.threads, pc.n));
    ActKeepsOwner(s.head, s.nodes[pc.n], pc, t);
    TempsAfter(s, t, e.pc, pc.n);
    TempsBounded(s.threads[t := e.pc], pc.n);
    SameThreads(s, t, e.pc);
    assert ThreadOk(s, t);
  }

  /** A node stays as it is when a thread that is not responsible for it moves. */
  lemma PlaceStays(s: State, a: State, t: nat, m: nat)
    requires m in s.nodes && PlaceOk(s, m) && s.nodes.Keys <= a.nodes.Keys && a.nodes[m] == s.nodes[m]
    requires Temps(a.threads, m) == Temps(s.threads, m) && (m in a.list <==> m in s.list)
    requires forall u :: u in s.threads && u != t ==> u in a.threads && a.threads[u] == s.threads[u]
    requires t in s.threads && (Responsible(s.threads[t]) ==> s.threads[t].n != m)
    ensures PlaceOk(a, m)
  {
  }

  lemma StepPlace(s: State, t: nat, m: nat)
    requires Enabled(s, Step(t)) && HasTarget(s.threads[t]) && m in s.nodes && m != s.threads[t].n
    requires PlaceOk(s, m) && (m in NewList(s.head, s.list, s.threads[t]) <==> m in s.list)
    ensures PlaceOk(StepNode(s, t), m)
  {
    var pc := s.threads[t];
    TempsAfter(s, t, Act(s.head, s.nodes[pc.n], pc, t).pc, m);
    PlaceStays(s, StepNode(s, t), t, m);
  }

  lemma StepThread(s: State, t: nat, u: nat)
    requires Enabled(s, Step(t)) && HasTarget(s.threads[t]) && u in s.threads
    requires Ready(s, t) && (HasTarget(s.threads[u]) ==> Ready(s, u))
    requires ThreadOk(s, t) && ThreadOk(s, u) && Known(s.nodes, s.head)
    ensures ThreadOk(StepNode(s, t), u)
  {
    var pc, other := s.threads[t], s.threads[u];
    var x := s.nodes[pc.n];
    if u == t {
      ActKeepsNode(s.head, x, pc, t, Temps(s.threads, pc.n));
    } else if HasTarget(other) && other.n == pc.n {
      ActKeepsOther(s.head, x, pc, t, Temps(s.threads, pc.n), other, u);
    }
  }

  lemma StepAlternates(s: State, t: nat, m: nat)
    requires Enabled(s, Step(t)) && HasTarget(s.threads[t]) && m in s.nodes && Ready(s, t) && Alternates(s, m)
    ensures Alternates(StepNode(s, t), m)
  {
  }

  lemma StepNodeKeepsInv(s: State, t: nat)
    requires Inv(s) && Enabled(s, Step(t)) && HasTarget(s.threads[t])
    ensures Inv(StepNode(s, t))
  {
    var a := StepNode(s, t);
    assert |a.threads| == |s.threads| by { assert a.threads.Keys == s.threads.Keys; }
    StepList(s, t);
    AtNode(s, t);
    assert a.nodes.Keys == s.nodes.Keys;
    StepTarget(s, t);
    forall m | m in a.nodes && m != s.threads[t].n ensures PlaceOk(a, m) {
      assert PlaceOk(s, m);
      StepPlace(s, t, m);
    }
    forall m | m in a.nodes ensures Alternates(a, m) {
      assert Alternates(s, m);
      StepAlternates(s, t, m);
    }
    forall u | u in a.threads ensures ThreadOk(a, u) {
      assert ThreadOk(s, u);
      if HasTarget(s.threads[u]) { AtNode(s, u); }
      StepThread(s, t, u);
    }
  }

  /** Steps that change only where a thread stands, and neither give nor drop a reference. */
  lemma MoveThread(s: State, t: nat, pc: Pc)
    requires Inv(s) && t in s.threads && !Responsible(s.threads[t]) && !Responsible(pc)
    requires forall n :: Weight(n)(pc) == Weight(n)(s.threads[t])
    requires Knows(s.nodes, pc) && !pc.Unlinks?
    ensures Inv(s.(threads := s.threads[t := pc]))
  {
    var a := s.(threads := s.threads[t := pc]);
    SameThreads(s, t, pc);
    forall n | n in a.nodes ensures PlaceOk(a, n) {
      TempsAfter(s, t, pc, n);
      assert PlaceOk(s, n);
    }
    forall n | n in a.nodes ensures Alternates(a, n) {
      assert Alternates(s, n);
    }
    forall u | u in a.threads ensures ThreadOk(a, u) {
      assert ThreadOk(s, u);
    }
  }

  lemma AddPlace(s: State, t: nat, n: nat, m: nat)
    requires Enabled(s, Add(t, n)) && m in s.nodes && PlaceOk(s, m)
    ensures PlaceOk(Next(s, Add(t, n)), m)
  {
    TempsAfter(s, t, Adds(n), m);
    if m != n { PlaceStays(s, Next(s, Add(t, n)), t, m); }
  }

  lemma AddKeepsInv(s: State, t: nat, n: nat)
    requires Inv(s) && Enabled(s, Add(t, n))
    ensures Inv(Next(s, Add(t, n)))
  {
    var a := Next(s, Add(t, n));
    SameThreads(s, t, Adds(n));
    forall m | m in a.nodes ensures PlaceOk(a, m) {
      assert PlaceOk(s, m);
      AddPlace(s, t, n, m);
    }
    forall m | m in a.nodes ensures Alternates(a, m) {
      assert Alternates(s, m) && Alternates(s, n);
    }
    forall u | u in a.threads ensures ThreadOk(a, u) {
      assert ThreadOk(s, u) && PlaceOk(s, n);
    }
    ChainFrame(s.nodes, a.nodes, s.list);
  }

  /** Looking changes only where the thread stands, and what it knows then. */
  lemma LookMoves(s: State, t: nat)
    requires Enabled(s, Step(t)) && !HasTarget(s.threads[t]) && ThreadOk(s, t) && Known(s.nodes, s.head)
    ensures var pc := StepLook(s, t).threads[t];
            && StepLook(s, t) == s.(threads := s.threads[t := pc])
            && !Responsible(pc) && !pc.Unlinks? && Knows(s.nodes, pc)
            && forall n :: Weight(n)(pc) == Weight(n)(s.threads[t])
  {
  }

  lemma LookKeepsInv(s: State, t: nat)
    requires Inv(s) && Enabled(s, Step(t)) && !HasTarget(s.threads[t])
    ensures Inv(StepLook(s, t))
  {
    if s.head.At? { HeadListed(s); }
    assert ThreadOk(s, t);
    LookMoves(s, t);
    MoveThread(s, t, StepLook(s, t).threads[t]);
  }

  lemma MoveKeepsInv(s: State, m: Move)
    requires Inv(s) && Enabled(s, m)
    ensures Inv(Next(s, m))
  {
    match m
    case Add(t, n) => AddKeepsInv(s, t, n);
    case TryGet(t) => MoveThread(s, t, Begins);
    case Step(t) =>
      if HasTarget(s.threads[t]) {
        StepNodeKeepsInv(s, t);
      } else {
        LookKeepsInv(s, t);
      }
  }

  lemma InitHasInv(s: State)
    requires Init(s)
    ensures Inv(s)
  {
    forall n | n in s.nodes ensures PlaceOk(s, n) {
      SumMapZero(s.threads, Weight(n));
    }
    assert forall n :: n in s.nodes ==> Alternates(s, n);
    assert forall t :: t in s.threads ==> ThreadOk(s, t);
  }

  lemma {:induction false} RunKeepsInv(states: seq<State>, moves: seq<Move>, i: nat)
    requires IsRun(states, moves) && i < |states|
    ensures Inv(states[i])
  {
    if i == 0 {
      InitHasInv(states[0]);
    } else {
      RunKeepsInv(states, moves, i - 1);
      MoveKeepsInv(states[i - 1], moves[i - 1]);
    }
  }

  // ------------------------------------------------------------ main results

  /**
     When the swap of the head is about to succeed, the node is the top of the list and
     the next pointer read earlier is still the second node: exactly one node is popped.
   */
  lemma NextPointerIsRight(states: seq<State>, moves: seq<Move>, i: nat, t: nat)
    requires IsRun(states, moves) && i < |states| && t in states[i].threads
    requires states[i].threads[t].Unlinks? && states[i].head == At(states[i].threads[t].n)
    ensures var s := states[i];
            var pc := s.threads[t];
            && s.list != [] && s.list[0] == pc.n && pc.next == First(s.list[1..])
            && Enabled(s, Step(t)) && Next(s, Step(t)).list == s.list[1..]
  {
    RunKeepsInv(states, moves, i);
    AtNode(states[i], t);
    HeadListed(states[i]);
  }

  /** A node about to be linked is not on the list, so none is linked twice; the list has no cycle. */
  lemma LinkedOnce(states: seq<State>, moves: seq<Move>, i: nat, t: nat)
    requires IsRun(states, moves) && i < |states| && t in states[i].threads && states[i].threads[t].Links?
    ensures states[i].threads[t].n !in states[i].list
    ensures forall j, k :: 0 <= j < k < |states[i].list| ==> states[i].list[j] != states[i].list[k]
  {
    RunKeepsInv(states, moves, i);
    AtNode(states[i], t);
    ChainDistinct(states[i].nodes, states[i].list);
  }

  lemma {:induction false} ChainDistinct(nodes: map<nat, Node>, list: seq<nat>)
    requires Chain(nodes, list)
    ensures forall j, k :: 0 <= j < k < |list| ==> list[j] != list[k]
  {
    if list != [] {
      ChainDistinct(nodes, list[1..]);
      assert forall k :: 0 < k < |list| ==> list[k] == list[1..][k - 1] && list[k] in list[1..];
    }
  }

  /** No two threads are ever given, or entrusted with, the same node. */
  lemma OneResponsible(states: seq<State>, moves: seq<Move>, i: nat, t: nat, u: nat)
    requires IsRun(states, moves) && i < |states| && t in states[i].threads && u in states[i].threads && t != u
    requires Responsible(states[i].threads[t]) && Responsible(states[i].threads[u])
    ensures states[i].threads[t].n != states[i].threads[u].n
  {
    RunKeepsInv(states, moves, i);
    AtNode(states[i], t);
    AtNode(states[i], u);
  }

  /** Returns and hand-outs of a node alternate: it is handed out again only after it was given back. */
  lemma HandOutsAlternate(states: seq<State>, moves: seq<Move>, i: nat, n: nat)
    requires IsRun(states, moves) && i < |states| && n in states[i].nodes
    ensures var s := states[i];
            CountOf(s.adds, n) - CountOf(s.takes, n) == if s.nodes[n].status.Out? then 0 else 1
  {
    RunKeepsInv(states, moves, i);
    assert Alternates(states[i], n);
  }

  /** A thread that took a node finds its flag clear, whatever the other references. */
  lemma TakenNodeIsUnflagged(states: seq<State>, moves: seq<Move>, i: nat, t: nat)
    requires IsRun(states, moves) && i < |states| && t in states[i].threads && states[i].threads[t].DropsBoth?
    ensures states[i].threads[t].n in states[i].nodes
    ensures 2 <= states[i].nodes[states[i].threads[t].n].refs < SHOULD
  {
    RunKeepsInv(states, moves, i);
    AtNode(states[i], t);
  }

  /** When nobody is at work, every node is with a client or on the list: none was lost. */
  lemma NoNodeIsLost(states: seq<State>, moves: seq<Move>, i: nat, n: nat)
    requires IsRun(states, moves) && i < |states| && n in states[i].nodes
    requires forall t :: t in states[i].threads ==> states[i].threads[t].Idle?
    ensures states[i].nodes[n].status.Out? || n in states[i].list
  {
    RunKeepsInv(states, moves, i);
    assert PlaceOk(states[i], n);
    SumMapZero(states[i].threads, Weight(n));
  }

  // ----------------------------------------------- a thread that runs undisturbed

  /** One thread goes on alone for some steps. */
  function Alone(s: State, t: nat, steps: nat): State
    requires t in s.threads
    decreases steps
  {
    if steps == 0 || !Enabled(s, Step(t)) then s else Alone(Next(s, Step(t)), t, steps - 1)
  }

  /** What such a thread changes while it is at one node: head, node and its own place, the list, and hand-outs. */
  datatype Solo = Solo(e: Effect, list: seq<nat>, took: bool)

  function SoloStep(v: Solo, t: nat): Solo
    requires HasTarget(v.e.pc)
  {
    Solo(Act(v.e.head, v.e.node, v.e.pc, t), NewList(v.e.head, v.list, v.e.pc), v.took || v.e.pc.DropsBoth?)
  }

  /** These steps at node `n` lead from the one to the other. */
  predicate Goes(v: Solo, t: nat, n: nat, steps: nat, w: Solo)
    decreases steps
  {
    if steps == 0 then v == w
    else HasTarget(v.e.pc) && v.e.pc.n == n && !v.took && Goes(SoloStep(v, t), t, n, steps - 1, w)
  }

  /** The state in which nothing else is different. */
  function With(s: State, t: nat, n: nat, v: Solo): State {
    s.(head := v.e.head, nodes := s.nodes[n := v.e.node], list := v.list, threads := s.threads[t := v.e.pc],
       takes := if v.took then Bump(s.takes, n) else s.takes)
  }

  function Now(s: State, t: nat, n: nat): Solo
    requires t in s.threads && n in s.nodes
  {
    Solo(Effect(s.head, s.nodes[n], s.threads[t]), s.list, false)
  }

  lemma WithNext(s: State, t: nat, n: nat, v: Solo)
    requires t in s.threads && n in s.nodes && HasTarget(v.e.pc) && v.e.pc.n == n && !v.took
    ensures Next(With(s, t, n, v), Step(t)) == With(s, t, n, SoloStep(v, t))
  {
    var a, b := Next(With(s, t, n, v), Step(t)), With(s, t, n, SoloStep(v, t));
    assert a.nodes == b.nodes;
    assert a.threads == b.threads;
  }

  lemma {:induction false} WithGoes(s: State, t: nat, n: nat, v: Solo, steps: nat, w: Solo)
    requires t in s.threads && n in s.nodes && Goes(v, t, n, steps, w)
    ensures Alone(With(s, t, n, v), t, steps) == With(s, t, n, w)
    decreases steps
  {
    if steps > 0 {
      WithNext(s, t, n, v);
      WithGoes(s, t, n, SoloStep(v, t), steps - 1, w);
    }
  }

  lemma AloneGoes(s: State, t: nat, n: nat, steps: nat, w: Solo)
    requires t in s.threads && n in s.nodes && Goes(Now(s, t, n), t, n, steps, w)
    ensures Alone(s, t, steps) == With(s, t, n, w)
  {
    WithGoes(s, t, n, Now(s, t, n), steps, w);
    assert s.nodes[n := s.nodes[n]] == s.nodes && s.threads[t := s.threads[t]] == s.threads;
    assert s == With(s, t, n, Now(s, t, n));
  }

  // ... and what it does then

  /** With a reference acquired, the top of the list is unlinked and handed out. */
  lemma SoloUnlinks(y: Node, list: seq<nat>, t: nat)
    requires list != [] && 2 <= y.refs < TWO32
    ensures var n := list[0];
            Goes(Solo(Effect(At(n), y, Unlinks(n, y.next)), list, false), t, n, 2,
                 Solo(Effect(y.next, y.(refs := y.refs - 2, status := Out), Idle), list[1..], true))
  {
    var n := list[0];
    var v := Solo(Effect(y.next, y.(status := Leaving(t)), DropsBoth(n)), list[1..], false);
    var w := Solo(Effect(y.next, y.(refs := y.refs - 2, status := Out), Idle), list[1..], true);
    assert SoloStep(v, t) == w && Goes(w, t, n, 0, w);
    assert Goes(v, t, n, 1, w);
  }

  /** A listed node that is acquired is handed out. */
  lemma SoloTakes(x: Node, list: seq<nat>, t: nat)
    requires list != [] && 0 < x.refs < SHOULD && x.status.Listed?
    ensures var n := list[0];
            Goes(Solo(Effect(At(n), x, Acquires(n, x.refs)), list, false), t, n, 4,
                 Solo(Effect(x.next, x.(refs := x.refs - 1, status := Out), Idle), list[1..], true))
  {
    var n, y := list[0], x.(refs := x.refs + 1);
    var v := Solo(Effect(At(n), x, Acquires(n, x.refs)), list, false);
    var v' := Solo(Effect(At(n), y, ReadsNext(n)), list, false);
    SoloUnlinks(y, list, t);
    assert SoloStep(v, t) == v';
    assert SoloStep(v', t) == Solo(Effect(At(n), y, Unlinks(n, x.next)), list, false);
  }

  /** A node about to be linked becomes the top of the list. */
  lemma SoloLinks(head: Ptr, x: Node, list: seq<nat>, n: nat, k: Then, t: nat)
    ensures Goes(Solo(Effect(head, x, LoadsHead(n, k)), list, false), t, n, 4,
                 Solo(Effect(At(n), Node(1, head, Listed), After(k)), [n] + list, false))
  {
    var y := x.(next := head);
    var v3 := Solo(Effect(head, y.(refs := 1, status := Joining(t)), Links(n, head, k)), list, false);
    var v4 := Solo(Effect(At(n), Node(1, head, Listed), After(k)), [n] + list, false);
    assert Goes(v4, t, n, 0, v4) && SoloStep(v3, t) == v4;
    assert Goes(v3, t, n, 1, v4);
    assert Goes(Solo(Effect(head, y, StoresRefs(n, head, k)), list, false), t, n, 2, v4);
    assert Goes(Solo(Effect(head, x, StoresNext(n, head, k)), list, false), t, n, 3, v4);
  }

  lemma TopIsListed(s: State)
    requires Inv(s) && s.list != []
    ensures var n := s.list[0];
            && n in s.nodes && s.head == At(n) && 0 < s.nodes[n].refs < SHOULD && s.nodes[n].status.Listed?
            && s.nodes[n].next == First(s.list[1..])
  {
    HeadListed(s);
    assert PlaceOk(s, s.list[0]);
  }

  /** Undisturbed, `try_get` takes the top of the list, and gets nothing only from an empty one. */
  lemma AloneTryGet(s: State, t: nat)
    requires Inv(s) && Enabled(s, TryGet(t))
    ensures s.list == [] ==> Alone(Next(s, TryGet(t)), t, 2) == s
    ensures s.list != [] ==>
              var n := s.list[0];
              && n in s.nodes
              && Alone(Next(s, TryGet(t)), t, 6)
                 == With(s, t, n, Solo(Effect(First(s.list[1..]), s.nodes[n].(refs := s.nodes[n].refs - 1, status := Out), Idle),
                                       s.list[1..], true))
  {
    if s.list == [] {
      LooksAtNothing(s, t);
    } else {
      TopIsListed(s);
      TakesTheTop(s, t);
    }
  }

  lemma LooksAtNothing(s: State, t: nat)
    requires Enabled(s, TryGet(t)) && s.head == Null
    ensures Alone(Next(s, TryGet(t)), t, 2) == s
  {
    var s1 := Next(s, TryGet(t));
    var s2 := Next(s1, Step(t));
    assert s2.threads == s.threads[t := Looks(Null)];
    assert s.threads[t := Idle] == s.threads;
    assert Next(s2, Step(t)) == s;
    assert Alone(s2, t, 1) == Alone(s, t, 0);
  }

  lemma WithMoved(s: State, pc: Pc, t: nat, n: nat, w: Solo)
    ensures With(s.(threads := s.threads[t := pc]), t, n, w) == With(s, t, n, w)
  {
    assert s.threads[t := pc][t := w.e.pc] == s.threads[t := w.e.pc];
  }

  lemma LooksAtTop(s: State, t: nat, n: nat)
    requires Enabled(s, TryGet(t)) && s.head == At(n) && n in s.nodes
    ensures Alone(Next(s, TryGet(t)), t, 6) == Alone(s.(threads := s.threads[t := Acquires(n, s.nodes[n].refs)]), t, 4)
  {
    var s1 := Next(s, TryGet(t));
    var s2 := Next(s1, Step(t));
    assert s2.threads == s.threads[t := Looks(At(n))];
    var s3 := Next(s2, Step(t));
    assert s3.threads == s.threads[t := Acquires(n, s.nodes[n].refs)];
    assert Alone(s1, t, 6) == Alone(s2, t, 5) == Alone(s3, t, 4);
  }

  lemma TakesTheTop(s: State, t: nat)
    requires Enabled(s, TryGet(t)) && s.list != [] && s.list[0] in s.nodes && s.head == At(s.list[0])
    requires var x := s.nodes[s.list[0]]; 0 < x.refs < SHOULD && x.status.Listed?
    ensures var n := s.list[0];
            Alone(Next(s, TryGet(t)), t, 6)
            == With(s, t, n, Solo(Effect(s.nodes[n].next, s.nodes[n].(refs := s.nodes[n].refs - 1, status := Out), Idle),
                                  s.list[1..], true))
  {
    var n := s.list[0];
    var s3 := s.(threads := s.threads[t := Acquires(n, s.nodes[n].refs)]);
    LooksAtTop(s, t, n);
    SoloTakes(s.nodes[n], s.list, t);
    var w := Solo(Effect(s.nodes[n].next, s.nodes[n].(refs := s.nodes[n].refs - 1, status := Out), Idle), s.list[1..], true);
    assert Now(s3, t, n).e == Effect(At(n), s.nodes[n], Acquires(n, s.nodes[n].refs));
    AloneGoes(s3, t, n, 4, w);
    WithMoved(s, s3.threads[t], t, n, w);
  }

  /** From the moment a thread is entrusted with linking a node: it becomes the top. */
  lemma AloneLinks(s: State, t: nat)
    requires t in s.threads && s.threads[t].LoadsHead? && s.threads[t].n in s.nodes
    ensures var n := s.threads[t].n;
            Alone(s, t, 4)
            == With(s, t, n, Solo(Effect(At(n), Node(1, s.head, Listed), After(s.threads[t].then_)), [n] + s.list, false))
  {
    var pc := s.threads[t];
    var w := Solo(Effect(At(pc.n), Node(1, s.head, Listed), After(pc.then_)), [pc.n] + s.list, false);
    SoloLinks(s.head, s.nodes[pc.n], s.list, pc.n, pc.then_, t);
    AloneGoes(s, t, pc.n, 4, w);
  }

  /** Undisturbed, `add` puts the node on top, or leaves that to whoever drops the last reference to it. */
  lemma AloneAdd(s: State, t: nat, n: nat)
    requires Enabled(s, Add(t, n)) && 0 <= s.nodes[n].refs < SHOULD
    ensures var begun := Next(s, Add(t, n)).(threads := s.threads);
            Alone(Next(s, Add(t, n)), t, if s.nodes[n].refs == 0 then 5 else 1)
            == if s.nodes[n].refs == 0 then
                 With(begun, t, n, Solo(Effect(At(n), Node(1, s.head, Listed), Idle), [n] + s.list, false))
               else
                 With(begun, t, n, Solo(Effect(s.head, s.nodes[n].(refs := s.nodes[n].refs + SHOULD, status := Waiting), Idle),
                                        s.list, false))
  {
    var x := s.nodes[n];
    var s1 := Next(s, Add(t, n));
    var begun := s1.(threads := s.threads);
    var v := Solo(Effect(s.head, x.(status := Returning(t)), Adds(n)), s.list, false);
    if x.refs == 0 {
      var w := Solo(Effect(At(n), Node(1, s.head, Listed), Idle), [n] + s.list, false);
      SoloLinks(s.head, x.(refs := SHOULD, status := Linking(t)), s.list, n, Return, t);
      assert Goes(v, t, n, 5, w);
      WithGoes(begun, t, n, v, 5, w);
    } else {
      var w := Solo(Effect(s.head, x.(refs := x.refs + SHOULD, status := Waiting), Idle), s.list, false);
      assert Goes(w, t, n, 0, w) && SoloStep(v, t) == w;
      assert Goes(v, t, n, 1, w);
      WithGoes(begun, t, n, v, 1, w);
    }
    assert s1 == With(begun, t, n, v);
  }

  /** Whoever drops the last reference to a node that is to be listed puts it on top, and then looks on. */
  lemma AloneDrop(s: State, t: nat)
    requires t in s.threads && s.threads[t].Drops? && s.threads[t].n in s.nodes
    requires s.nodes[s.threads[t].n].refs == SHOULD + 1
    ensures var n := s.threads[t].n;
            Alone(s, t, 5)
            == With(s, t, n, Solo(Effect(At(n), Node(1, s.head, Listed), Looks(s.threads[t].head)), [n] + s.list, false))
  {
    var pc := s.threads[t];
    var x := s.nodes[pc.n];
    var w := Solo(Effect(At(pc.n), Node(1, s.head, Listed), Looks(pc.head)), [pc.n] + s.list, false);
    SoloLinks(s.head, x.(refs := SHOULD, status := Linking(t)), s.list, pc.n, Resume(pc.head), t);
    assert Goes(Now(s, t, pc.n), t, pc.n, 5, w);
    AloneGoes(s, t, pc.n, 5, w);
  }

  // -------------------------------------------- a search that ends with nothing

  /** Inside `try_get`, before a node is taken. */
  predicate Searching(pc: Pc) {
    || pc.Begins? || pc.Looks? || pc.Acquires? || pc.ReadsNext? || pc.Unlinks? || pc.Drops?
    || ((pc.LoadsHead? || pc.StoresNext? || pc.StoresRefs? || pc.Links? || pc.Defers?) && pc.then_.Resume?)
  }

  /** The head that such a thread will look at next, if it has read one, was null. */
  predicate RemembersNull(pc: Pc) {
    || ((pc.Looks? || pc.Drops?) && pc.head.Null?)
    || ((pc.LoadsHead? || pc.StoresNext? || pc.StoresRefs? || pc.Links? || pc.Defers?)
          && pc.then_.Resume? && pc.then_.head.Null?)
  }

  /** The list was empty at some point of the search that goes on up to here. */
  ghost predicate SawEmpty(states: seq<State>, t: nat, i: nat) {
    exists j: nat :: j <= i < |states| && states[j].list == []
      && forall k :: j <= k <= i ==> t in states[k].threads && Searching(states[k].threads[t])
  }

  /** A null head is remembered from a step at which it was null, or from the state before. */
  lemma StepRemembers(s: State, m: Move, t: nat)
    requires Enabled(s, m) && t in Next(s, m).threads && RemembersNull(Next(s, m).threads[t])
    ensures t in s.threads && Searching(s.threads[t]) && (RemembersNull(s.threads[t]) || s.head == Null)
  {
    if m != Step(t) {
      assert m.thread != t;
      assert Next(s, m).threads[t] == s.threads[t];
    }
  }

  lemma RunRemembers(states: seq<State>, moves: seq<Move>, t: nat, i: nat)
    requires IsRun(states, moves) && i < |moves| && t in states[i + 1].threads && RemembersNull(states[i + 1].threads[t])
    ensures t in states[i].threads && Searching(states[i].threads[t])
    ensures RemembersNull(states[i].threads[t]) || states[i].head == Null
  {
    assert Enabled(states[i], moves[i]) && states[i + 1] == Next(states[i], moves[i]);
    StepRemembers(states[i], moves[i], t);
  }

  lemma SawEmptyNow(states: seq<State>, t: nat, i: nat)
    requires i + 1 < |states| && states[i].list == []
    requires t in states[i].threads && Searching(states[i].threads[t])
    requires t in states[i + 1].threads && Searching(states[i + 1].threads[t])
    ensures SawEmpty(states, t, i + 1)
  {
    forall k | i <= k <= i + 1 ensures t in states[k].threads && Searching(states[k].threads[t]) {}
  }

  lemma SawEmptyBefore(states: seq<State>, t: nat, i: nat)
    requires i + 1 < |states| && SawEmpty(states, t, i)
    requires t in states[i + 1].threads && Searching(states[i + 1].threads[t])
    ensures SawEmpty(states, t, i + 1)
  {
    var j: nat :| j <= i && states[j].list == []
      && forall k :: j <= k <= i ==> t in states[k].threads && Searching(states[k].threads[t]);
    assert forall k :: j <= k <= i + 1 ==> t in states[k].threads && Searching(states[k].threads[t]);
  }

  lemma {:induction false} NullWasSeen(states: seq<State>, moves: seq<Move>, t: nat, i: nat)
    requires IsRun(states, moves) && i < |states| && t in states[i].threads && RemembersNull(states[i].threads[t])
    ensures SawEmpty(states, t, i)
  {
    if i > 0 {
      RunRemembers(states, moves, t, i - 1);
      if RemembersNull(states[i - 1].threads[t]) {
        NullWasSeen(states, moves, t, i - 1);
        SawEmptyBefore(states, t, i - 1);
      } else {
        NullIsEmpty(states, moves, i - 1);
        SawEmptyNow(states, t, i - 1);
      }
    }
  }

  lemma NullIsEmpty(states: seq<State>, moves: seq<Move>, i: nat)
    requires IsRun(states, moves) && i < |states| && states[i].head == Null
    ensures states[i].list == []
  {
    RunKeepsInv(states, moves, i);
  }

  /** However the others interfere, `try_get` ends with nothing only if the list was empty at some point of the call. */
  lemma NothingMeansEmpty(states: seq<State>, moves: seq<Move>, t: nat, i: nat)
    requires IsRun(states, moves) && i < |moves| && moves[i] == Step(t)
    requires t in states[i].threads && Searching(states[i].threads[t]) && states[i + 1].threads[t].Idle?
    ensures SawEmpty(states, t, i)
  {
    assert states[i].threads[t] == Looks(Null);
    NullWasSeen(states, moves, t, i);
  }
}
