/**
 The block index of a producer as the program has it: headers that share their entries.
 A full index is replaced by one of twice the size; consumers may go on using the old.
 */
module BlockIndexes {
  import opened Arithmetic
  import opened Orders
  import opened BlockRing

  const INITIAL_SIZE := 32

  class Entry {
    var key: int
    var value: Option<nat>

    /** The block pointer of a new entry is not initialised. */
    constructor (garbage: Option<nat>)
      ensures key == INVALID
    {
      key, value := INVALID, garbage;
    }
  }

  ghost function Keys(entries: seq<Entry>): (keys: seq<int>)
    reads entries
    ensures |keys| == |entries| && forall i :: 0 <= i < |entries| ==> keys[i] == entries[i].key
  {
    if entries == [] then [] else Keys(entries[..|entries| - 1]) + [entries[|entries| - 1].key]
  }

  ghost function Values(entries: seq<Entry>): (values: seq<Option<nat>>)
    reads entries
    ensures |values| == |entries| && forall i :: 0 <= i < |entries| ==> values[i] == entries[i].value
  {
    if entries == [] then [] else Values(entries[..|entries| - 1]) + [entries[|entries| - 1].value]
  }

  class Header {
    const entries: seq<Entry>
    var tail: nat

    constructor (entries: seq<Entry>, tail: nat)
      ensures this.entries == entries && this.tail == tail
    {
      this.entries, this.tail := entries, tail;
    }

    ghost function View(): Ring
      reads this, entries
    {
      Ring(tail, Keys(entries), Values(entries))
    }
  }

  ghost predicate Shares(entries: seq<Entry>, with_: seq<Entry>) {
    forall i :: 0 <= i < |entries| ==> entries[i] in with_
  }

  /** A key that belongs to slot `q` of a ring of `n` slots. */
  predicate Slotted(key: int, shift: int, q: nat, n: nat) {
    n > 0 && IsKey(key) && (key / BLOCK + shift - q) % n == 0
  }

  /** An index that was replaced: all of its slots are in use, by entries the current one shares. */
  ghost predicate OldOk(o: Header, shift: int, entries: seq<Entry>, keys: seq<int>)
    requires |keys| == |entries|
    reads o
  {
    && Capacity(|o.entries|) && o.tail < |o.entries| && |entries| % |o.entries| == 0
    && Shares(o.entries, entries)
    && forall q, i :: 0 <= q < |o.entries| && 0 <= i < |entries| && o.entries[q] == entries[i] ==>
         Slotted(keys[i], shift, q, |o.entries|)
  }

  /** All indexes that were ever replaced, by one with these entries. */
  ghost predicate OldsOk(olds: seq<Header>, shifts: seq<int>, entries: seq<Entry>, keys: seq<int>)
    requires |keys| == |entries|
    reads olds
  {
    |shifts| == |olds| && forall k :: 0 <= k < |olds| ==> OldOk(olds[k], shifts[k], entries, keys)
  }

  /** Writing the next base into a slot disturbs no index that shares the slot's entry. */
  lemma OldStays(o: Header, small: int, entries: seq<Entry>, keys: seq<int>, r: Ring, shift: int, p: nat, start: int)
    requires |keys| == |entries| && keys == r.keys && OldOk(o, small, entries, keys)
    requires p < |keys| && InPlace(r, shift, p) && Slotted(start, shift, p, |keys|)
    ensures OldOk(o, small, entries, keys[p := start])
  {
    var n := |o.entries|;
    forall q, i | 0 <= q < n && 0 <= i < |entries| && o.entries[q] == entries[i]
      ensures Slotted(keys[p := start][i], small, q, n)
    {
      assert Slotted(keys[i], small, q, n);
      if i == p {
        KeysAgree(keys[p] / BLOCK, start / BLOCK, shift, p, |keys|, small, q, n);
      }
    }
  }

  lemma OldIsPlaced(o: Header, shift: int, entries: seq<Entry>)
    requires OldOk(o, shift, entries, Keys(entries))
    ensures Placed(o.View(), shift) && forall q :: 0 <= q < |o.entries| ==> o.entries[q].key != INVALID
  {
    forall q: nat | q < |o.entries| ensures InPlace(o.View(), shift, q) && o.entries[q].key != INVALID {
      assert o.entries[q] in entries;
      var i :| 0 <= i < |entries| && entries[i] == o.entries[q];
      assert Slotted(Keys(entries)[i], shift, q, |o.entries|);
    }
  }

  ghost function Set(entries: seq<Entry>): set<Entry> {
    set e | e in entries
  }

  /** The same entries, beginning after position `tail`. */
  ghost predicate Rotated(entries: seq<Entry>, tail: nat, index: seq<Entry>) {
    && |index| == |entries|
    && forall j :: 0 <= j < |index| ==> index[j] == entries[(tail + 1 + j) % |entries|]
  }

  lemma NextPosition(p: int, n: nat)
    requires n > 0
    ensures (p % n + 1) % n == (p + 1) % n
  {
    Remainder(p % n + 1 - (p + 1), -(p / n), n, 0);
    SameRemainder(p % n + 1, p + 1, n);
  }

  lemma RotatedDistinct(entries: seq<Entry>, tail: nat, index: seq<Entry>)
    requires Distinct(entries) && Rotated(entries, tail, index)
    ensures Distinct(index)
  {
    forall i, j | 0 <= i < j < |index| ensures index[i] != index[j] {
      PositionsDiffer(tail + 1 + i, tail + 1 + j, |entries|);
    }
  }

  lemma PositionsDiffer(i: nat, j: nat, n: nat)
    requires 0 < j - i < n
    ensures i % n != j % n
  {
    SameRemainder(j, i, n);
    Remainder(j - i, 0, n, j - i);
  }

  ghost predicate Distinct(entries: seq<Entry>) {
    forall i, j :: 0 <= i < j < |entries| ==> entries[i] != entries[j]
  }

  /** What the proofs keep about an index: `live` maps the number of each block in use to the block. */
  datatype Book = Book(log: nat, shift: int, next: int, m: nat, live: map<int, nat>, olds: seq<Header>, shifts: seq<int>)

  ghost predicate Sound(h: Header, nextCapacity: nat, g: Book)
    reads h, h.entries, g.olds
  {
    && RingOk(h.View(), g.shift, g.next, g.m, g.live) && Distinct(h.entries)
    && nextCapacity == 2 * |h.entries| == Pow2(g.log)
    && h !in g.olds && OldsOk(g.olds, g.shifts, h.entries, Keys(h.entries))
  }

  class BlockIndex {
    var header: Header
    var nextCapacity: nat
    ghost var g: Book

    ghost predicate Valid()
      reads this, header, header.entries, g.olds
    {
      Sound(header, nextCapacity, g)
    }

    constructor (garbage: Option<nat>)
      ensures Valid() && g.live == map[] && g.next == 0
    {
      var index: seq<Entry> := [];
      for i := 0 to INITIAL_SIZE
        invariant |index| == i && Distinct(index) && forall j :: 0 <= j < i ==> index[j].key == INVALID && fresh(index[j])
      {
        var entry := new Entry(garbage);
        index := index + [entry];
      }
      header := new Header(index, INITIAL_SIZE - 1);
      nextCapacity := 2 * INITIAL_SIZE;
      g := Book(6, 0, 0, 0, map[], [], []);
      new;
      EmptyOk(header.View());
    }

    /** The entry a lookup ends in, through the current index or one that was replaced. */
    method EntryForIndex(h: Header, index: nat) returns (entry: Entry)
      requires |h.entries| > 0 && h.tail < |h.entries|
      ensures entry == h.entries[Locate(h.View(), index)]
    {
      var start := index - index % BLOCK;
      var tailBase := h.entries[h.tail].key;
      var offset := Signed((start - tailBase) % TWO64) / BLOCK;
      entry := h.entries[(h.tail + offset) % |h.entries|];
    }

    ghost function EntryOf(b: int): Entry
      requires |header.entries| > 0
      reads this
    {
      header.entries[SlotAt(|header.entries|, g.shift, b)]
    }

    /** Every live block is found, whatever was inserted, taken back, reused or doubled before. */
    method Find(e: nat) returns (block: Option<nat>)
      requires Valid() && e / BLOCK in g.live
      ensures block == Some(g.live[e / BLOCK])
    {
      LiveIsFound(header.View(), g.shift, g.next, g.m, g.live, e);
      var entry := EntryForIndex(header, e % TWO64);
      block := entry.value;
    }

    /** A consumer that still holds an index since replaced finds the same entry in it. */
    method FindThrough(ghost k: nat, h: Header, e: nat) returns (block: Option<nat>)
      requires Valid() && e / BLOCK in g.live
      requires k < |g.olds| && g.olds[k] == h && EntryOf(e / BLOCK) in h.entries
      ensures block == Some(g.live[e / BLOCK])
    {
      LiveIsFound(header.View(), g.shift, g.next, g.m, g.live, e);
      ghost var p :| 0 <= p < |h.entries| && h.entries[p] == EntryOf(e / BLOCK);
      OldIsPlaced(h, g.shifts[k], header.entries);
      LocateFinds(h.View(), g.shifts[k], e, p);
      var entry := EntryForIndex(h, e % TWO64);
      block := entry.value;
    }

    /** The entries in the order of their blocks, the oldest first. */
    method CopyFromTail() returns (index: seq<Entry>)
      requires |header.entries| > 0 && header.tail < |header.entries|
      ensures Rotated(header.entries, header.tail, index) && Set(index) <= Set(header.entries)
    {
      index := [];
      var pos := header.tail;
      for i := 0 to |header.entries|
        invariant |index| == i && pos == (header.tail + i) % |header.entries|
        invariant forall j :: 0 <= j < i ==> index[j] == header.entries[(header.tail + 1 + j) % |header.entries|]
        invariant Set(index) <= Set(header.entries)
      {
        NextPosition(header.tail + i, |header.entries|);
        pos := (pos + 1) % |header.entries|;
        index := index + [header.entries[pos]];
      }
    }

    method AddEntries(index: seq<Entry>, count: nat, garbage: Option<nat>) returns (more: seq<Entry>)
      requires Distinct(index)
      ensures |more| == |index| + count && Distinct(more)
      ensures forall j :: 0 <= j < |index| ==> more[j] == index[j]
      ensures forall j :: |index| <= j < |more| ==> more[j].key == INVALID
      ensures fresh(Set(more) - Set(index))
    {
      more := index;
      for i := 0 to count
        invariant |more| == |index| + i && Distinct(more)
        invariant forall j :: 0 <= j < |index| ==> more[j] == index[j]
        invariant forall j :: |index| <= j < |more| ==> more[j].key == INVALID
        invariant fresh(Set(more) - Set(index))
      {
        var entry := new Entry(garbage);
        more := more + [entry];
      }
    }

    /** What holds of an index of twice the size that takes over all entries. */
    lemma GrownOk(h: Header)
      requires Valid() && !Reusable(header.View()) && nextCapacity <= TURN
      requires Doubled(header.View(), h.View())
      ensures g.m == |header.entries| && RingOk(h.View(), g.m - g.next, g.next, g.m, g.live) && Reusable(h.View())
    {
      PowerIsCapacity(g.log);
      DoubleOk(header.View(), h.View(), g.shift, g.next, g.m, g.live);
    }

    /** The replaced index is full, and its entries are all in the new one. */
    lemma ReplacedOk(h: Header)
      requires Valid() && g.m == |header.entries|
      requires |h.entries| == 2 * g.m && Rotated(header.entries, header.tail, h.entries[..g.m])
      ensures OldOk(header, g.shift, h.entries, Keys(h.entries))
    {
      Remainder(2 * g.m, 2, g.m, 0);
      forall p: nat | p < g.m
        ensures Slotted(header.entries[p].key, g.shift, p, g.m) && header.entries[p] in h.entries
      {
        var i := FullIsWritten(header.View(), g.shift, g.next, g.m, g.live, p);
        assert h.entries[..g.m][i] == header.entries[p];
        assert InPlace(header.View(), g.shift, p);
      }
    }

    lemma AllReplacedOk(h: Header)
      requires Valid() && g.m == |header.entries| && |h.entries| == 2 * g.m
      requires OldOk(header, g.shift, h.entries, Keys(h.entries))
      ensures OldsOk(g.olds + [header], g.shifts + [g.shift], h.entries, Keys(h.entries))
    {
      forall k | 0 <= k < |g.olds| ensures OldOk(g.olds[k], g.shifts[k], h.entries, Keys(h.entries)) {
        OlderOk(g.olds[k], g.shifts[k], h);
      }
    }

    lemma OlderOk(o: Header, shift: int, h: Header)
      requires g.m == |header.entries| && |h.entries| == 2 * g.m && Shares(header.entries, h.entries)
      requires OldOk(o, shift, header.entries, Keys(header.entries))
      ensures OldOk(o, shift, h.entries, Keys(h.entries))
    {
      MultipleSum(g.m, g.m, |o.entries|);
      forall q, i | 0 <= q < |o.entries| && 0 <= i < |h.entries| && o.entries[q] == h.entries[i]
        ensures Slotted(Keys(h.entries)[i], shift, q, |o.entries|)
      {
        assert o.entries[q] in header.entries;
        var j :| 0 <= j < |header.entries| && header.entries[j] == o.entries[q];
        assert Slotted(Keys(header.entries)[j], shift, q, |o.entries|);
      }
    }

    lemma EntryMoves(h: Header, b: int)
      requires Valid() && g.m == |header.entries| && b in g.live
      requires |h.entries| == 2 * g.m && Rotated(header.entries, header.tail, h.entries[..g.m])
      ensures SameEntry(h.entries, b)
    {
      var i := b - g.next + g.m;
      assert Present(header.View(), g.shift, g.live, b);
      FromTail(header.View(), g.shift, g.next, g.m, g.live, i);
      DoubledSlot(h.View(), g.m, g.next, i);
      assert h.entries[..g.m][i] == h.entries[i];
    }

    lemma TakesOver(h: Header)
      requires header.tail < |header.entries| && h.tail == |header.entries| - 1
      requires |h.entries| == 2 * |header.entries|
      requires Rotated(header.entries, header.tail, h.entries[..|header.entries|])
      requires forall j :: |header.entries| <= j < |h.entries| ==> h.entries[j].key == INVALID
      ensures Doubled(header.View(), h.View())
    {
      var n := |header.entries|;
      forall i: nat | i < n ensures h.entries[i] == header.entries[(header.tail + 1 + i) % n] {
        assert h.entries[..n][i] == h.entries[i];
      }
    }

    /** A header that takes over all entries and adds as many new ones. */
    method BuildIndex(garbage: Option<nat>) returns (h: Header)
      requires Valid() && g.m == |header.entries|
      ensures fresh(h) && Distinct(h.entries) && fresh(Set(h.entries) - Set(header.entries))
      ensures Doubled(header.View(), h.View())
      ensures Rotated(header.entries, header.tail, h.entries[..g.m])
    {
      var n := |header.entries|;
      var copied := CopyFromTail();
      RotatedDistinct(header.entries, header.tail, copied);
      var index := AddEntries(copied, n, garbage);
      Remainder(n - 1, 0, nextCapacity, n - 1);
      h := new Header(index, (n - 1) % nextCapacity);
      assert h.entries[..g.m] == copied;
      TakesOver(h);
    }

    /** The bookkeeping after the index was replaced. */
    ghost function Grown(): Book
      reads this
    {
      Book(g.log + 1, g.m - g.next, g.next, g.m, g.live, g.olds + [header], g.shifts + [g.shift])
    }

    /** The block keeps its entry, in the slot it has in a ring twice the size. */
    ghost predicate SameEntry(entries: seq<Entry>, b: int)
      requires |header.entries| > 0 && |entries| > 0
      reads this
    {
      entries[SlotAt(|entries|, g.m - g.next, b)] == EntryOf(b)
    }

    /** A header may take the place of the current one. */
    ghost predicate Successor(h: Header)
      reads this, header, g.olds, h, h.entries
    {
      && |header.entries| > 0 && |h.entries| > 0
      && Sound(h, 2 * nextCapacity, Grown())
      && Reusable(h.View())
      && (forall b :: b in g.live ==> SameEntry(h.entries, b))
    }

    lemma SoundGrown(h: Header)
      requires nextCapacity == |h.entries| == Pow2(g.log)
      requires RingOk(h.View(), g.m - g.next, g.next, g.m, g.live) && Distinct(h.entries)
      requires h != header && h !in g.olds && OldsOk(g.olds + [header], g.shifts + [g.shift], h.entries, Keys(h.entries))
      ensures Sound(h, 2 * nextCapacity, Grown())
    {
    }

    /** The new index is sound, with the bookkeeping brought up to date. */
    lemma BuiltIsSound(h: Header)
      requires Valid() && !Reusable(header.View()) && nextCapacity <= TURN
      requires Distinct(h.entries) && Doubled(header.View(), h.View())
      requires h != header && h !in g.olds && OldsOk(g.olds + [header], g.shifts + [g.shift], h.entries, Keys(h.entries))
      ensures Sound(h, 2 * nextCapacity, Grown()) && Reusable(h.View())
    {
      GrownOk(h);
      SoundGrown(h);
    }

    lemma EntriesMove(h: Header)
      requires Valid() && g.m == |header.entries|
      requires |h.entries| == 2 * g.m && Rotated(header.entries, header.tail, h.entries[..g.m])
      ensures forall b :: b in g.live ==> SameEntry(h.entries, b)
    {
      forall b | b in g.live ensures SameEntry(h.entries, b) {
        EntryMoves(h, b);
      }
    }

    lemma BuiltIsSuccessor(h: Header)
      requires Valid() && !Reusable(header.View()) && nextCapacity <= TURN && g.m == |header.entries|
      requires h != header && h !in g.olds && Distinct(h.entries) && Doubled(header.View(), h.View())
      requires Rotated(header.entries, header.tail, h.entries[..g.m])
      ensures Successor(h)
    {
      ReplacedOk(h);
      AllReplacedOk(h);
      BuiltIsSound(h);
      EntriesMove(h);
    }

    /** The new header is published. */
    method Publish(h: Header)
      requires |header.entries| > 0 && Successor(h)
      modifies this
      ensures Valid() && g.live == old(g.live) && g.next == old(g.next)
      ensures header == h && g.olds == old(g.olds + [header]) && Reusable(h.View())
      ensures forall b :: b in g.live ==> EntryOf(b) == old(EntryOf(b))
    {
      g := Grown();
      header, nextCapacity := h, 2 * nextCapacity;
      forall b | b in g.live ensures EntryOf(b) == old(EntryOf(b)) {
        assert old(SameEntry(h.entries, b));
      }
    }

    /** The index is replaced by one of twice the size. */
    method Grow(garbage: Option<nat>)
      requires Valid() && !Reusable(header.View()) && nextCapacity <= TURN
      modifies this
      ensures fresh(Set(header.entries) - old(Set(header.entries)))
      ensures Valid() && g.live == old(g.live) && g.next == old(g.next)
      ensures fresh(header) && Reusable(header.View()) && g.olds == old(g.olds + [header])
      ensures forall b :: b in g.live ==> EntryOf(b) == old(EntryOf(b))
    {
      FullRing(header.View(), g.shift, g.next, g.m, g.live);
      var h := BuildIndex(garbage);
      BuiltIsSuccessor(h);
      Publish(h);
    }

    /** ... if memory can be had. */
    method NewBlockIndex(memory: bool, garbage: Option<nat>) returns (ok: bool)
      requires Valid() && !Reusable(header.View())
      modifies this
      ensures fresh(Set(header.entries) - old(Set(header.entries)))
      ensures Valid() && g.live == old(g.live) && g.next == old(g.next)
      ensures ok == (memory && old(nextCapacity) <= TURN)
      ensures if ok then fresh(header) && Reusable(header.View()) && g.olds == old(g.olds + [header])
              else header == old(header) && g.olds == old(g.olds)
      ensures forall b :: b in g.live ==> EntryOf(b) == old(EntryOf(b))
    {
      ok := memory && nextCapacity <= TURN;
      if ok { Grow(garbage); }
    }

    /** A free slot after the tail, if need be in a larger index. */
    method EnsureRoom(memory: bool, garbage: Option<nat>) returns (ok: bool)
      requires Valid()
      modifies this
      ensures fresh(Set(header.entries) - old(Set(header.entries)))
      ensures Valid() && g.live == old(g.live) && g.next == old(g.next)
      ensures ok ==> Reusable(header.View())
      ensures ok || !memory || old(nextCapacity) > TURN
      ensures header == old(header) || fresh(header)
      ensures forall b :: b in g.live ==> EntryOf(b) == old(EntryOf(b))
    {
      var entry := header.entries[(header.tail + 1) % |header.entries|];
      ok := true;
      if entry.key != INVALID && entry.value != None {
        ok := NewBlockIndex(memory, garbage);
      }
    }

    /** The base goes into the slot after the tail. */
    method InsertEntry(start: int) returns (entry: Entry)
      requires Distinct(header.entries) && header.tail < |header.entries|
      modifies header, header.entries
      ensures var r := old(header.View());
              && entry == header.entries[NextSlot(r)]
              && header.View() == Ring(NextSlot(r), r.keys[NextSlot(r) := start], r.values)
    {
      var newTail := (header.tail + 1) % |header.entries|;
      entry := header.entries[newTail];
      entry.key := start;
      header.tail := newTail;
    }

    method SetValue(entry: Entry, value: Option<nat>)
      requires Distinct(header.entries) && header.tail < |header.entries| && entry in header.entries
      modifies entry
      ensures forall p :: 0 <= p < |header.entries| && header.entries[p] == entry ==>
                header.View() == old(header.View()).(values := old(header.View()).values[p := value])
      ensures entry.key == old(entry.key)
    {
      entry.value := value;
    }

    method RewindTail()
      requires header.tail < |header.entries|
      modifies header
      ensures header.View() == old(header.View()).(tail := (old(header.tail) - 1) % |header.entries|)
    {
      header.tail := (header.tail - 1) % |header.entries|;
    }

    /** Writing the next base disturbs none of the indexes that were replaced. */
    lemma WriteKeepsOlds()
      requires Valid()
      ensures var r := header.View();
              OldsOk(g.olds, g.shifts, header.entries, r.keys[NextSlot(r) := Key(g.next)])
    {
      var r := header.View();
      NextSlotIs(r, g.shift, g.next, g.m, g.live);
      KeyInPlace(r, g.shift, g.next);
      KeyIsKey(g.next);
      forall k | 0 <= k < |g.olds|
        ensures OldOk(g.olds[k], g.shifts[k], header.entries, r.keys[NextSlot(r) := Key(g.next)])
      {
        OldStays(g.olds[k], g.shifts[k], header.entries, r.keys, r, g.shift, NextSlot(r), Key(g.next));
      }
    }

    /** The base and its block go into the slot after the tail. */
    method WriteBlock(start: int, block: nat, ghost b: Book)
      requires Distinct(header.entries) && header.tail < |header.entries|
      requires var r := header.View(); Ready(Write(r, start, Some(block)).(tail := NextSlot(r)), b)
      modifies header, header.entries
      ensures Ready(header.View(), b)
    {
      var entry := InsertEntry(start);
      SetValue(entry, Some(block));
    }

    method InsertAndRewind(start: int) returns (entry: Entry)
      requires Distinct(header.entries) && header.tail < |header.entries|
      modifies header, header.entries
      ensures var r := old(header.View());
              && entry == header.entries[NextSlot(r)]
              && header.View() == Ring(r.tail, r.keys[NextSlot(r) := start], r.values)
    {
      ghost var tail, n := header.tail, |header.entries|;
      entry := InsertEntry(start);
      RewindTail();
      assert header.tail == tail by { BackAgain(tail, n); }
    }

    /** The base goes into the slot after the tail, and the insertion is taken back. */
    method WriteAndRewind(start: int, ghost b: Book)
      requires Distinct(header.entries) && header.tail < |header.entries|
      requires Ready(Write(header.View(), start, None), b)
      modifies header, header.entries
      ensures Ready(header.View(), b)
    {
      var entry := InsertAndRewind(start);
      SetValue(entry, None);
    }

    /** What the bookkeeping must be for an index that is about to become this ring. */
    ghost predicate Ready(w: Ring, b: Book)
      reads this, header, b.olds
    {
      && RingOk(w, b.shift, b.next, b.m, b.live) && |w.keys| == |header.entries| && Distinct(header.entries)
      && nextCapacity == 2 * |header.entries| == Pow2(b.log)
      && header !in b.olds && OldsOk(b.olds, b.shifts, header.entries, w.keys)
    }

    ghost function Inserted(block: nat): Book
      reads this, header
    {
      Book(g.log, g.shift, g.next + 1, Least(g.m + 1, |header.entries|), g.live[g.next := block], g.olds, g.shifts)
    }

    ghost function Refused(): Book
      requires |header.entries| > 0
      reads this, header
    {
      Book(g.log, g.shift, g.next, Least(g.m, |header.entries| - 1), g.live, g.olds, g.shifts)
    }

    lemma ReadyToInsert(block: nat)
      requires Valid() && Reusable(header.View())
      ensures var r := header.View(); Ready(Write(r, Key(g.next), Some(block)).(tail := NextSlot(r)), Inserted(block))
    {
      InsertOk(header.View(), g.shift, g.next, g.m, g.live, block);
      WriteKeepsOlds();
    }

    lemma ReadyToRefuse()
      requires Valid() && Reusable(header.View())
      ensures |header.entries| > 0 && Ready(Write(header.View(), Key(g.next), None), Refused())
    {
      FailedInsertOk(header.View(), g.shift, g.next, g.m, g.live);
      WriteKeepsOlds();
    }

    lemma ReadyIsValid()
      requires Ready(header.View(), g)
      ensures Valid()
    {
    }

    method Insert(start: int, block: nat)
      requires Valid() && Reusable(header.View()) && start == Key(g.next)
      modifies this, header, header.entries
      ensures Valid() && header == old(header) && g == old(Inserted(block))
    {
      ReadyToInsert(block);
      ghost var b := Inserted(block);
      WriteBlock(start, block, b);
      g := b;
      ReadyIsValid();
    }

    method Refuse(start: int)
      requires Valid() && Reusable(header.View()) && start == Key(g.next)
      modifies this, header, header.entries
      ensures Valid() && header == old(header) && g == old(Refused())
    {
      ReadyToRefuse();
      ghost var b := Refused();
      WriteAndRewind(start, b);
      g := b;
      ReadyIsValid();
    }

    /**
     A new block is put into the index, which is doubled when it is full. Without
     memory for the index, or without a block, nothing changes. No live block moves
     to another entry.
     */
    method NewBlock(start: int, block: Option<nat>, memory: bool, garbage: Option<nat>) returns (ok: bool)
      requires Valid() && start == Key(g.next)
      modifies this, header, header.entries
      ensures Valid()
      ensures ok ==> block.Some? && g.live == old(g.live[g.next := block.value]) && g.next == old(g.next) + 1
      ensures !ok ==> g.live == old(g.live) && g.next == old(g.next)
      ensures ok || block.None? || !memory || old(nextCapacity) > TURN
      ensures forall b :: b in old(g.live) ==> EntryOf(b) == old(EntryOf(b))
    {
      ok := EnsureRoom(memory, garbage);
      if !ok { return; }
      if block.None? {
        Refuse(start);
        return false;
      }
      Insert(start, block.value);
    }

    /** Consumers have emptied a block: its entry may be used again. */
    method Release(entry: Entry, ghost b: int)
      requires Valid() && b in g.live && entry == EntryOf(b)
      modifies this, entry
      ensures Valid() && header == old(header)
      ensures g == old(Book(g.log, g.shift, g.next, g.m, g.live - {b}, g.olds, g.shifts))
    {
      RemoveOk(header.View(), g.shift, g.next, g.m, g.live, b);
      ghost var after := Book(g.log, g.shift, g.next, g.m, g.live - {b}, g.olds, g.shifts);
      SetValue(entry, None);
      g := after;
    }

    /** One block of a failed bulk insertion is looked up, emptied, and the tail taken back by one. */
    method RevertOne(index: int, ghost r: Ring, ghost shift: int, ghost b: nat, ghost top: int)
      requires Distinct(header.entries) && Placed(r, shift) && |r.values| == |r.keys| == |header.entries|
      requires header.View() == r.(tail := SlotOf(r, shift, top)) && r.keys[SlotOf(r, shift, top)] != INVALID
      requires r.keys[SlotOf(r, shift, b)] == Key(b) && index == b * BLOCK % TWO64
      modifies header, header.entries
      ensures header.View() == Ring(SlotOf(r, shift, top - 1), r.keys, r.values[SlotOf(r, shift, b) := None])
    {
      RevertFinds(header.View(), r, shift, b, top);
      SlotBefore(r, shift, top);
      var entry := EntryForIndex(header, index);
      SetValue(entry, None);
      RewindTail();
    }

    /** After `i` steps back: the ring is in order but for its tail, and `i` blocks from `start` on are gone. */
    ghost predicate Reverting(b: Book, keys: seq<int>, r: Ring, left: map<int, nat>, start: nat, i: nat)
      reads this, header, header.entries
    {
      && RingOk(r, b.shift, b.next, b.m, left) && r.keys == keys
      && header.View() == r.(tail := SlotOf(r, b.shift, b.next - 1 - i))
      && Reverted(b.live, left, start, start + i)
    }

    /** Emptying one block more keeps the ring in order. */
    lemma StepBack(b: Book, r: Ring, left: map<int, nat>, start: nat, i: nat)
      requires RingOk(r, b.shift, b.next, b.m, left) && Reverted(b.live, left, start, start + i)
      requires i < b.m && start + i in left
      ensures var after := r.(values := r.values[SlotOf(r, b.shift, start + i) := None]);
              && RingOk(after, b.shift, b.next, b.m, left - {start + i})
              && Reverted(b.live, left - {start + i}, start, start + i + 1)
      ensures Placed(r, b.shift) && r.keys[SlotOf(r, b.shift, start + i)] == Key(start + i)
      ensures r.keys[SlotOf(r, b.shift, b.next - 1 - i)] != INVALID
    {
      KeyIsKey(b.next - 1 - i);
      RemoveOk(r, b.shift, b.next, b.m, left, start + i);
      RevertedMore(b.live, left, start, start + i);
    }

    method RevertStep(index: int, ghost b: Book, ghost keys: seq<int>, ghost r: Ring, ghost left: map<int, nat>,
                      ghost start: nat, ghost i: nat)
      returns (ghost after: Ring, ghost rest: map<int, nat>)
      requires Distinct(header.entries) && Reverting(b, keys, r, left, start, i)
      requires i < b.m && start + i in left && index == (start + i) * BLOCK % TWO64
      modifies header, header.entries
      ensures Reverting(b, keys, after, rest, start, i + 1)
    {
      StepBack(b, r, left, start, i);
      after := r.(values := r.values[SlotOf(r, b.shift, start + i) := None]);
      rest := left - {start + i};
      RevertOne(index, r, b.shift, start + i, b.next - 1 - i);
    }

    method RevertAll(start: nat, k: nat, ghost b: Book) returns (ghost r: Ring, ghost left: map<int, nat>)
      requires Distinct(header.entries) && RingOk(header.View(), b.shift, b.next, b.m, b.live)
      requires start == b.next - k && k <= b.m && forall c :: start <= c < b.next ==> c in b.live
      modifies header, header.entries
      ensures Reverting(b, old(header.View()).keys, r, left, start, k)
    {
      ghost var keys := header.View().keys;
      r, left := header.View(), b.live;
      for i := 0 to k
        invariant Reverting(b, keys, r, left, start, i)
      {
        assert start + i in left;
        r, left := RevertStep((start + i) * BLOCK % TWO64, b, keys, r, left, start, i);
      }
    }

    /** The blocks that a failed bulk insertion had put in are taken out again, the first one first. */
    method RevertBulk(start: nat, k: nat)
      requires Valid() && start == g.next - k
      requires forall b :: start <= b < g.next ==> b in g.live
      modifies this, header, header.entries
      ensures Valid() && header == old(header)
      ensures g.next == start && g.live == old(Below(g.live, start))
    {
      InWindow(start, k);
      ghost var r, left := RevertAll(start, k, g);
      UndoneOk(r, left, start, k);
      g := Book(g.log, g.shift, start, g.m - k, Below(g.live, start), g.olds, g.shifts);
    }

    lemma InWindow(start: nat, k: nat)
      requires Valid() && start == g.next - k && forall b :: start <= b < g.next ==> b in g.live
      ensures k <= g.m && header.tail < |header.entries| && forall b :: b in g.live ==> b < g.next
    {
      if k > 0 { assert start in g.live; }
    }

    lemma UndoneOk(r: Ring, left: map<int, nat>, start: nat, k: nat)
      requires start == g.next - k && k <= g.m && forall b :: b in g.live ==> b < g.next
      requires exists keys :: Reverting(g, keys, r, left, start, k)
      ensures RingOk(header.View(), g.shift, start, g.m - k, Below(g.live, start))
    {
      forall b ensures b in left <==> b in Below(g.live, start) {
        assert b in g.live ==> b < g.next;
      }
      assert left == Below(g.live, start);
      RewindOk(r, g.shift, g.next, g.m, left, k);
    }
  }

  ghost function Below(live: map<int, nat>, end: int): map<int, nat> {
    map b | b in live && b < end :: live[b]
  }

  /** What is left of the live blocks when those from `first` up to `end` are gone. */
  ghost predicate Reverted(live: map<int, nat>, left: map<int, nat>, first: int, end: int) {
    && (forall b :: b in left <==> b in live && !(first <= b < end))
    && (forall b :: b in left ==> left[b] == live[b])
  }

  /** A block is found whatever written slot the tail is at. */
  lemma RevertFinds(v: Ring, r: Ring, shift: int, b: nat, top: int)
    requires Placed(r, shift) && |r.values| == |r.keys| && v == r.(tail := SlotOf(r, shift, top))
    requires r.keys[SlotOf(r, shift, top)] != INVALID && r.keys[SlotOf(r, shift, b)] == Key(b)
    ensures Locate(v, b * BLOCK % TWO64) == SlotOf(r, shift, b)
  {
    forall p: nat | p < |r.keys| ensures InPlace(v, shift, p) {
      assert InPlace(r, shift, p);
    }
    LocateFinds(v, shift, b * BLOCK, SlotOf(r, shift, b));
  }

  lemma RevertedMore(live: map<int, nat>, left: map<int, nat>, first: int, end: int)
    requires Reverted(live, left, first, end) && first <= end
    ensures Reverted(live, left - {end}, first, end + 1)
  {
  }

  lemma BackAgain(t: nat, n: nat)
    requires t < n
    ensures ((t + 1) % n - 1) % n == t
  {
    if t + 1 == n {
      Remainder(t + 1, 1, n, 0);
      Remainder(-1, -1, n, n - 1);
    } else {
      Remainder(t + 1, 0, n, t + 1);
      Remainder(t, 0, n, t);
    }
  }
}
