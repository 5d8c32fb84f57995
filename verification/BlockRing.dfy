/**
 The circular index from block bases to blocks, as a value: a ring of keys and block
 pointers, and a tail. Bases are 64-bit words that wrap; `shift` relates block numbers
 to slots and never changes while the ring is not doubled.
 */
module BlockRing {
  import opened Arithmetic
  import opened Orders

  const BLOCK := 32
  /** Blocks before the 64-bit element index wraps. */
  const TURN := 0x800_0000_0000_0000
  const HALF_WORD := 0x8000_0000_0000_0000
  /** No multiple of the block size is odd. */
  const INVALID := 1

  datatype Ring = Ring(tail: nat, keys: seq<int>, values: seq<Option<nat>>)

  /** The base of the `b`th block, as a word. */
  function Key(b: int): int {
    b % TURN * BLOCK
  }

  /** A word as a signed number. */
  function Signed(x: int): int {
    if x >= HALF_WORD then x - TWO64 else x
  }

  /**
     Where to look for an element: the signed distance of its block from the tail's.
     Adding it to the tail as words and masking is taking the remainder.
   */
  function Locate(r: Ring, index: int): (slot: nat)
    requires r.tail < |r.keys|
    ensures slot < |r.keys|
  {
    var start := index - index % BLOCK;
    var offset := Signed((start - r.keys[r.tail]) % TWO64) / BLOCK;
    (r.tail + offset) % |r.keys|
  }

  /** The slot of a block in a ring of `n` slots. */
  function SlotAt(n: nat, shift: int, b: int): (slot: nat)
    requires n > 0
    ensures slot < n
  {
    (b + shift) % n
  }

  function SlotOf(r: Ring, shift: int, b: int): (slot: nat)
    requires |r.keys| > 0
    ensures slot < |r.keys|
  {
    SlotAt(|r.keys|, shift, b)
  }

  predicate Capacity(n: nat) {
    n > 0 && TURN % n == 0
  }

  predicate IsKey(key: int) {
    0 <= key < TWO64 && key % BLOCK == 0
  }

  /** A key that was ever written to a slot stands in a slot it belongs to. */
  predicate InPlace(r: Ring, shift: int, p: nat)
    requires p < |r.keys|
  {
    r.keys[p] == INVALID || (IsKey(r.keys[p]) && (r.keys[p] / BLOCK + shift - p) % |r.keys| == 0)
  }

  ghost predicate Placed(r: Ring, shift: int) {
    Capacity(|r.keys|) && r.tail < |r.keys| && forall p: nat :: p < |r.keys| ==> InPlace(r, shift, p)
  }

  /** Occupied slots hold live blocks. */
  ghost predicate Occupied(r: Ring, shift: int, live: map<int, nat>, p: nat)
    requires p < |r.keys| == |r.values|
  {
    r.keys[p] != INVALID && r.values[p] != None ==> exists b :: b in live && SlotOf(r, shift, b) == p
  }

  ghost predicate Present(r: Ring, shift: int, live: map<int, nat>, b: int)
    requires 0 < |r.keys| == |r.values| && b in live
  {
    r.values[SlotOf(r, shift, b)] == Some(live[b])
  }

  /**
     The last `m` blocks before `next` stand in consecutive slots up to the tail, and
     the live ones are among them.
   */
  ghost predicate RingOk(r: Ring, shift: int, next: int, m: nat, live: map<int, nat>) {
    && Placed(r, shift) && |r.values| == |r.keys| && m <= |r.keys| && m <= next
    && r.tail == SlotOf(r, shift, next - 1)
    && (forall b :: next - m <= b < next ==> r.keys[SlotOf(r, shift, b)] == Key(b))
    && (forall b :: b in live ==> next - m <= b < next && Present(r, shift, live, b))
    && (forall p: nat :: p < |r.keys| ==> Occupied(r, shift, live, p))
  }

  // ------------------------------------------------------------------ lookup

  lemma KeyIsKey(b: int)
    ensures IsKey(Key(b)) && Key(b) / BLOCK == b % TURN && Key(b) != INVALID
  {
  }

  /** The signed distance between two bases is right up to whole turns of the index. */
  lemma SignedDistance(x: int, y: int)
    requires IsKey(x) && IsKey(y)
    ensures (Signed((x - y) % TWO64) / BLOCK - (x / BLOCK - y / BLOCK)) % TURN == 0
  {
    var a, c := x / BLOCK, y / BLOCK;
    assert x == a * BLOCK && y == c * BLOCK;
    var d := (x - y) % TWO64;
    assert d == if x >= y then x - y else x - y + TWO64;
    if x >= y {
      assert d == (a - c) * BLOCK;
      assert Signed(d) == (if d >= HALF_WORD then a - c - TURN else a - c) * BLOCK;
    } else {
      assert d == (a - c + TURN) * BLOCK;
      assert Signed(d) == (if d >= HALF_WORD then a - c else a - c + TURN) * BLOCK;
    }
  }

  /** The word of an element leads to the base of its block. */
  lemma StartOfBlock(e: nat)
    ensures var index := e % TWO64; index - index % BLOCK == Key(e / BLOCK)
  {
    var w := e % TWO64;
    assert e == e / TWO64 * TWO64 + w;
    var b, v := e / BLOCK, w / BLOCK;
    assert b == e / TWO64 * TURN + v && 0 <= v < TURN;
    Remainder(b, e / TWO64, TURN, v);
  }

  /**
     Wherever the tail stands, a lookup ends in the slot that holds the block's base,
     if any does, across wraps of the index in either direction.
   */
  lemma LocateFinds(r: Ring, shift: int, e: nat, p: nat)
    requires Placed(r, shift) && r.keys[r.tail] != INVALID
    requires p < |r.keys| && r.keys[p] == Key(e / BLOCK)
    ensures Locate(r, e % TWO64) == p
  {
    var n := |r.keys|;
    var x, y := r.keys[p], r.keys[r.tail];
    assert InPlace(r, shift, p) && InPlace(r, shift, r.tail);
    KeyIsKey(e / BLOCK);
    StartOfBlock(e);
    SignedDistance(x, y);
    var offset := Signed((x - y) % TWO64) / BLOCK;
    MultipleOf(offset - (x / BLOCK - y / BLOCK), TURN, n);
    MultipleSum(x / BLOCK + shift - p, y / BLOCK + shift - r.tail, n);
    MultipleSum(offset - (x / BLOCK - y / BLOCK), (x / BLOCK + shift - p) - (y / BLOCK + shift - r.tail), n);
    assert (r.tail + offset - p) % n == 0;
    SameRemainder(r.tail + offset, p, n);
    Remainder(p, 0, n, p);
  }

  /** Every live block is found. */
  lemma LiveIsFound(r: Ring, shift: int, next: int, m: nat, live: map<int, nat>, e: nat)
    requires RingOk(r, shift, next, m, live) && e / BLOCK in live
    ensures var p := Locate(r, e % TWO64);
            p == SlotOf(r, shift, e / BLOCK) && r.keys[p] == Key(e / BLOCK) && r.values[p] == Some(live[e / BLOCK])
  {
    var b := e / BLOCK;
    assert Present(r, shift, live, b);
    KeyIsKey(next - 1);
    LocateFinds(r, shift, e, SlotOf(r, shift, b));
  }

  // ------------------------------------------------------------------ changes

  function NextSlot(r: Ring): (slot: nat)
    requires |r.keys| > 0
    ensures slot < |r.keys|
  {
    (r.tail + 1) % |r.keys|
  }

  /** The slot after the tail was never used, or its block is gone. */
  predicate Reusable(r: Ring)
    requires 0 < |r.keys| == |r.values|
  {
    r.keys[NextSlot(r)] == INVALID || r.values[NextSlot(r)] == None
  }

  function Write(r: Ring, key: int, value: Option<nat>): Ring
    requires 0 < |r.keys| == |r.values|
  {
    r.(keys := r.keys[NextSlot(r) := key], values := r.values[NextSlot(r) := value])
  }

  lemma NextSlotIs(r: Ring, shift: int, next: int, m: nat, live: map<int, nat>)
    requires RingOk(r, shift, next, m, live)
    ensures NextSlot(r) == SlotOf(r, shift, next)
  {
    var n := |r.keys|;
    var q := (next - 1 + shift) / n;
    assert next - 1 + shift == q * n + r.tail;
    assert next + shift == q * n + (r.tail + 1);
    SameRemainder(next + shift, r.tail + 1, n);
    Remainder(next + shift - (r.tail + 1), q, n, 0);
  }

  /** Different blocks less than a ring apart have different slots. */
  lemma SlotsApart(r: Ring, shift: int, b: int, c: int)
    requires |r.keys| > 0 && b < c < b + |r.keys|
    ensures SlotOf(r, shift, b) != SlotOf(r, shift, c)
  {
    SameRemainder(c + shift, b + shift, |r.keys|);
    Remainder(c - b, 0, |r.keys|, c - b);
  }

  lemma KeyInPlace(r: Ring, shift: int, b: int)
    requires Capacity(|r.keys|)
    ensures (Key(b) / BLOCK + shift - SlotOf(r, shift, b)) % |r.keys| == 0
  {
    var n := |r.keys|;
    KeyIsKey(b);
    var q := b / TURN;
    Remainder(q * TURN, q, TURN, 0);
    MultipleOf(q * TURN, TURN, n);
    assert b == q * TURN + b % TURN;
    Remainder(b + shift - SlotOf(r, shift, b), (b + shift) / n, n, 0);
    MultipleSum(b + shift - SlotOf(r, shift, b), q * TURN, n);
  }

  /** Writing a base into the slot after the tail keeps every written key in place. */
  lemma WritePlaced(r: Ring, shift: int, next: int, m: nat, live: map<int, nat>, v: Option<nat>)
    requires RingOk(r, shift, next, m, live)
    ensures Placed(Write(r, Key(next), v), shift)
  {
    NextSlotIs(r, shift, next, m, live);
    KeyIsKey(next);
    KeyInPlace(r, shift, next);
    var w := Write(r, Key(next), v);
    forall p: nat | p < |w.keys| ensures InPlace(w, shift, p) {
      assert InPlace(r, shift, p);
    }
  }

  /** A reusable slot holds no live block. */
  lemma ReusableIsFree(r: Ring, shift: int, next: int, m: nat, live: map<int, nat>, b: int)
    requires RingOk(r, shift, next, m, live) && Reusable(r) && b in live
    ensures SlotOf(r, shift, b) != NextSlot(r) && next - |r.keys| < b
  {
    assert Present(r, shift, live, b);
    KeyIsKey(b);
    assert r.keys[SlotOf(r, shift, b)] == Key(b);
    if b == next - |r.keys| {
      NextSlotIs(r, shift, next, m, live);
      SameRemainder(next + shift, b + shift, |r.keys|);
      Remainder(next - b, 1, |r.keys|, 0);
      assert false;
    }
  }

  function Least(a: int, b: int): int {
    if a < b then a else b
  }

  /** Inserting the next block. */
  lemma InsertOk(r: Ring, shift: int, next: int, m: nat, live: map<int, nat>, v: nat)
    requires RingOk(r, shift, next, m, live) && Reusable(r)
    ensures RingOk(Write(r, Key(next), Some(v)).(tail := NextSlot(r)), shift, next + 1,
              Least(m + 1, |r.keys|), live[next := v])
  {
    var n := |r.keys|;
    var w := Write(r, Key(next), Some(v)).(tail := NextSlot(r));
    NextSlotIs(r, shift, next, m, live);
    WritePlaced(r, shift, next, m, live, Some(v));
    forall p: nat | p < n ensures InPlace(w, shift, p) {
      assert InPlace(Write(r, Key(next), Some(v)), shift, p);
    }
    forall b | next + 1 - Least(m + 1, n) <= b < next + 1 ensures w.keys[SlotOf(w, shift, b)] == Key(b) {
      if b < next { SlotsApart(r, shift, b, next); }
    }
    var more := live[next := v];
    forall b | b in more ensures next + 1 - Least(m + 1, n) <= b < next + 1 && Present(w, shift, more, b) {
      if b != next {
        assert b in live && Present(r, shift, live, b);
        ReusableIsFree(r, shift, next, m, live, b);
      }
    }
    forall p: nat | p < n ensures Occupied(w, shift, more, p) {
      if p == NextSlot(r) {
        assert next in more;
      } else {
        assert Occupied(r, shift, live, p);
        if r.keys[p] != INVALID && r.values[p] != None {
          var b :| b in live && SlotOf(r, shift, b) == p;
          assert b in more && SlotOf(w, shift, b) == p;
        }
      }
    }
  }

  /** Without a block to store, the insertion is taken back: the slot stays free. */
  lemma FailedInsertOk(r: Ring, shift: int, next: int, m: nat, live: map<int, nat>)
    requires RingOk(r, shift, next, m, live) && Reusable(r)
    ensures RingOk(Write(r, Key(next), None), shift, next, Least(m, |r.keys| - 1), live)
  {
    var n := |r.keys|;
    var w := Write(r, Key(next), None);
    NextSlotIs(r, shift, next, m, live);
    WritePlaced(r, shift, next, m, live, None);
    forall b | next - Least(m, n - 1) <= b < next ensures w.keys[SlotOf(w, shift, b)] == Key(b) {
      SlotsApart(r, shift, b, next);
    }
    forall b | b in live ensures next - Least(m, n - 1) <= b < next && Present(w, shift, live, b) {
      assert Present(r, shift, live, b);
      ReusableIsFree(r, shift, next, m, live, b);
    }
    forall p: nat | p < n ensures Occupied(w, shift, live, p) {
      assert Occupied(r, shift, live, p);
      if p != NextSlot(r) && r.keys[p] != INVALID && r.values[p] != None {
        var b :| b in live && SlotOf(r, shift, b) == p;
        assert b in live && SlotOf(w, shift, b) == p;
      }
    }
  }

  /** The block of a slot is gone: emptied by consumers, or given up by the producer. */
  lemma RemoveOk(r: Ring, shift: int, next: int, m: nat, live: map<int, nat>, b: int)
    requires RingOk(r, shift, next, m, live) && b in live
    ensures RingOk(r.(values := r.values[SlotOf(r, shift, b) := None]), shift, next, m, live - {b})
  {
    var w := r.(values := r.values[SlotOf(r, shift, b) := None]);
    forall p: nat | p < |w.keys| ensures InPlace(w, shift, p) {
      assert InPlace(r, shift, p);
    }
    forall c | c in live - {b} ensures next - m <= c < next && Present(w, shift, live - {b}, c) {
      assert Present(r, shift, live, c);
      if b < c { SlotsApart(r, shift, b, c); } else { SlotsApart(r, shift, c, b); }
    }
    forall p: nat | p < |w.keys| ensures Occupied(w, shift, live - {b}, p) {
      assert Occupied(r, shift, live, p);
      if w.keys[p] != INVALID && w.values[p] != None {
        var c :| c in live && SlotOf(r, shift, c) == p;
        assert c in live - {b} && SlotOf(w, shift, c) == p;
      }
    }
  }

  /** The tail moves back over blocks that are gone. */
  lemma RewindOk(r: Ring, shift: int, next: int, m: nat, live: map<int, nat>, k: nat)
    requires RingOk(r, shift, next, m, live) && k <= m
    requires forall b :: b in live ==> b < next - k
    ensures RingOk(r.(tail := SlotOf(r, shift, next - k - 1)), shift, next - k, m - k, live)
  {
    var w := r.(tail := SlotOf(r, shift, next - k - 1));
    forall p: nat | p < |w.keys| ensures InPlace(w, shift, p) {
      assert InPlace(r, shift, p);
    }
    forall b | b in live ensures Present(w, shift, live, b) {
      assert Present(r, shift, live, b);
    }
    forall p: nat | p < |w.keys| ensures Occupied(w, shift, live, p) {
      assert Occupied(r, shift, live, p);
      if w.keys[p] != INVALID && w.values[p] != None {
        var c :| c in live && SlotOf(r, shift, c) == p;
        assert c in live && SlotOf(w, shift, c) == p;
      }
    }
  }

  // ----------------------------------------------------------------- doubling

  /** The old slots in the order of their blocks, then as many that were never used. */
  ghost predicate Doubled(r: Ring, d: Ring)
    requires r.tail < |r.keys| == |r.values|
  {
    var n := |r.keys|;
    && |d.keys| == |d.values| == 2 * n && d.tail == n - 1
    && (forall i: nat :: i < n ==> d.keys[i] == r.keys[(r.tail + 1 + i) % n] && d.values[i] == r.values[(r.tail + 1 + i) % n])
    && (forall i: nat :: n <= i < 2 * n ==> d.keys[i] == INVALID)
  }

  /** A slot that is not reusable means a full ring: its block is the oldest. */
  lemma FullRing(r: Ring, shift: int, next: int, m: nat, live: map<int, nat>)
    requires RingOk(r, shift, next, m, live) && !Reusable(r)
    ensures m == |r.keys|
  {
    NextSlotIs(r, shift, next, m, live);
    assert Occupied(r, shift, live, NextSlot(r));
    var b :| b in live && SlotOf(r, shift, b) == NextSlot(r);
    if next - b < |r.keys| { SlotsApart(r, shift, b, next); }
  }

  /** In a full ring the slots after the tail hold the blocks in order. */
  lemma FromTail(r: Ring, shift: int, next: int, m: nat, live: map<int, nat>, i: nat)
    requires RingOk(r, shift, next, m, live) && m == |r.keys| && i < m
    ensures (r.tail + 1 + i) % m == SlotOf(r, shift, next - m + i)
  {
    var q := (next - 1 + shift) / m;
    assert next - 1 + shift == q * m + r.tail;
    assert r.tail + 1 + i - (next - m + i + shift) == (1 - q) * m;
    Remainder(r.tail + 1 + i - (next - m + i + shift), 1 - q, m, 0);
    SameRemainder(r.tail + 1 + i, next - m + i + shift, m);
  }

  lemma DoubledSlot(d: Ring, n: nat, next: int, i: nat)
    requires |d.keys| == 2 * n && i < n
    ensures SlotOf(d, n - next, next - n + i) == i
  {
    Remainder(i, 0, 2 * n, i);
  }

  lemma DoubledKey(r: Ring, d: Ring, shift: int, next: int, m: nat, live: map<int, nat>, i: nat)
    requires RingOk(r, shift, next, m, live) && m == |r.keys| && i < m && Doubled(r, d)
    ensures d.keys[i] == Key(next - m + i) && SlotOf(d, m - next, next - m + i) == i
    ensures d.values[i] == r.values[SlotOf(r, shift, next - m + i)]
  {
    FromTail(r, shift, next, m, live, i);
    DoubledSlot(d, m, next, i);
  }

  /** Doubling a full ring keeps every block where a lookup finds it. */
  lemma DoubleOk(r: Ring, d: Ring, shift: int, next: int, m: nat, live: map<int, nat>)
    requires RingOk(r, shift, next, m, live) && !Reusable(r)
    requires Doubled(r, d) && Capacity(|d.keys|)
    ensures m == |r.keys| && RingOk(d, m - next, next, m, live) && Reusable(d)
  {
    FullRing(r, shift, next, m, live);
    var turned := m - next;
    forall b | next - m <= b < next ensures d.keys[SlotOf(d, turned, b)] == Key(b) {
      DoubledKey(r, d, shift, next, m, live, b - next + m);
    }
    DoubledPlaced(r, d, shift, next, m, live);
    DoubledPresent(r, d, shift, next, m, live);
    forall p: nat | p < |d.keys| ensures Occupied(d, turned, live, p) {
      if p < m && d.values[p] != None { DoubledOccupied(r, d, shift, next, m, live, p); }
    }
    DoubledSlot(d, m, next, m - 1);
    Remainder(m, 0, 2 * m, m);
  }

  lemma DoubledPlaced(r: Ring, d: Ring, shift: int, next: int, m: nat, live: map<int, nat>)
    requires RingOk(r, shift, next, m, live) && m == |r.keys| && Doubled(r, d) && Capacity(|d.keys|)
    ensures Placed(d, m - next)
  {
    var turned := m - next;
    forall p: nat | p < |d.keys| ensures InPlace(d, turned, p) {
      if p < m {
        DoubledKey(r, d, shift, next, m, live, p);
        KeyIsKey(next - m + p);
        KeyInPlace(d, m - next, next - m + p);
      }
    }
  }

  lemma DoubledPresent(r: Ring, d: Ring, shift: int, next: int, m: nat, live: map<int, nat>)
    requires RingOk(r, shift, next, m, live) && m == |r.keys| && Doubled(r, d) && Capacity(|d.keys|)
    ensures forall b :: b in live ==> Present(d, m - next, live, b)
  {
    forall b | b in live ensures Present(d, m - next, live, b) {
      assert Present(r, shift, live, b);
      DoubledKey(r, d, shift, next, m, live, b - next + m);
    }
  }

  lemma DoubledOccupied(r: Ring, d: Ring, shift: int, next: int, m: nat, live: map<int, nat>, p: nat)
    requires RingOk(r, shift, next, m, live) && m == |r.keys| && p < m && Doubled(r, d) && d.values[p] != None
    ensures exists b :: b in live && SlotOf(d, m - next, b) == p
  {
    var b := next - m + p;
    DoubledKey(r, d, shift, next, m, live, p);
    KeyIsKey(b);
    assert Occupied(r, shift, live, SlotOf(r, shift, b));
    var c :| c in live && SlotOf(r, shift, c) == SlotOf(r, shift, b);
    assert Present(r, shift, live, c);
    if c < b { SlotsApart(r, shift, c, b); }
    if b < c { SlotsApart(r, shift, b, c); }
  }

  /** Two keys that belong to one slot of a ring belong to one slot of every smaller ring. */
  lemma KeysAgree(key: int, now: int, shift: int, p: int, n: nat, small: int, q: int, k: nat)
    requires n > 0 && k > 0 && n % k == 0
    requires (key + shift - p) % n == 0 && (now + shift - p) % n == 0
    requires (key + small - q) % k == 0
    ensures (now + small - q) % k == 0
  {
    MultipleSum(now + shift - p, key + shift - p, n);
    MultipleOf(now - key, n, k);
    MultipleSum(now - key, key + small - q, k);
  }

  /** An empty ring. */
  lemma EmptyOk(r: Ring)
    requires Capacity(|r.keys|) && |r.values| == |r.keys| && r.tail == |r.keys| - 1
    requires forall p: nat :: p < |r.keys| ==> r.keys[p] == INVALID
    ensures RingOk(r, 0, 0, 0, map[])
  {
    Remainder(-1, -1, |r.keys|, |r.keys| - 1);
  }

  /** How far a slot is behind the one after the tail. */
  lemma Steps(tail: nat, p: nat, m: nat) returns (i: nat)
    requires p < m
    ensures i < m && p == (tail + 1 + i) % m
  {
    i := (p - tail - 1) % m;
    var q := (p - tail - 1) / m;
    assert p - tail - 1 == q * m + i;
    Remainder(tail + 1 + i, -q, m, p);
  }

  /** Every slot of a full ring is in use. */
  lemma FullIsWritten(r: Ring, shift: int, next: int, m: nat, live: map<int, nat>, p: nat) returns (i: nat)
    requires RingOk(r, shift, next, m, live) && m == |r.keys| && p < m
    ensures i < m && p == (r.tail + 1 + i) % m && r.keys[p] != INVALID
  {
    i := Steps(r.tail, p, m);
    FromTail(r, shift, next, m, live, i);
    KeyIsKey(next - m + i);
  }

  /** One step back from a slot is the slot of the block before. */
  lemma SlotBefore(r: Ring, shift: int, b: int)
    requires |r.keys| > 0
    ensures (SlotOf(r, shift, b) - 1) % |r.keys| == SlotOf(r, shift, b - 1)
  {
    var n := |r.keys|;
    var q := (b + shift) / n;
    assert b + shift == q * n + SlotOf(r, shift, b);
    Remainder(SlotOf(r, shift, b) - 1 - (b - 1 + shift), -q, n, 0);
    SameRemainder(SlotOf(r, shift, b) - 1, b - 1 + shift, n);
  }

  lemma {:induction false} Pow2Sum(j: nat, k: nat)
    ensures Pow2(j + k) == Pow2(j) * Pow2(k)
  {
    if k > 0 { Pow2Sum(j, k - 1); }
  }

  lemma TurnIsPower()
    ensures Pow2(59) == TURN
  {
    assert Pow2(7) == 128;
    Pow2Sum(7, 7);
    Pow2Sum(14, 14);
    Pow2Sum(28, 28);
    assert Pow2(3) == 8;
    Pow2Sum(56, 3);
  }

  /** Capacities are powers of two, so they divide a turn of the index. */
  lemma PowerIsCapacity(k: nat)
    requires Pow2(k) <= TURN
    ensures Capacity(Pow2(k))
  {
    TurnIsPower();
    if k <= 59 {
      Pow2Divides(k, 59);
    } else {
      Pow2Grows(59, k);
    }
  }

  lemma {:induction false} Pow2Grows(j: nat, k: nat)
    requires j < k
    ensures Pow2(j) < Pow2(k)
  {
    if j + 1 < k { Pow2Grows(j, k - 1); }
  }
}
