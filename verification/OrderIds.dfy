/**
 The generator of order ids: milliseconds since an epoch, a node number and the low
 bits of a wrapping counter, packed into 64 bits.
 */
module OrderIds {
  import opened Arithmetic
  import opened Orders
  import opened FlatBook
  import opened Words
  import BookLaws

  const EPOCH := 1767225600000
  const NODE := 1
  const SEQUENCES := 0x1000
  const NODES := 0x400
  const SHIFT := 0x40_0000
  const WINDOW := 0x400_0000_0000

  /**
     The three fields side by side. Disjoint bit fields are joined by addition, and a
     left shift by 22 drops what does not fit 64 bits; see OrIsPlus.
   */
  function Pack(timestamp: nat, count: nat): nat {
    (timestamp - EPOCH) % TWO64 * SHIFT % TWO64 + NODE * SEQUENCES + count % SEQUENCES
  }

  lemma FieldsAreOred(t: nat, low: nat)
    requires low < 0x1000
    ensures Or(Or(t * 0x40_0000, 0x1000), low) == t * 0x40_0000 + 0x1000 + low
  {
    assert Pow2(12) == 0x1000 && Pow2(22) == 0x40_0000;
    OrDisjoint(t, 0x1000, 22);
    assert t * 0x40_0000 + 0x1000 == (t * 0x400 + 1) * 0x1000;
    OrDisjoint(t * 0x400 + 1, low, 12);
  }

  // The widths of the fields are parameters here, so that nothing is computed bit by bit.

  lemma TimeField(x: nat, width: nat) returns (t: nat)
    requires x < TWO64 && width == 22
    ensures ShiftLeft(x, width) == x * SHIFT % TWO64 == t * 0x40_0000
  {
    Pow22();
    ShiftIsProduct(x, width);
    Remainder(x, 0, TWO64, x);
    ShiftDropsHighBits(x);
    t := x % WINDOW;
  }

  lemma NodeField(one: nat, width: nat)
    requires one == 1 && width == 12
    ensures ShiftLeft(one, width) == 0x1000
  {
    Pow12();
    ShiftIsProduct(one, width);
  }

  lemma CounterField(count: nat, width: nat, mask: nat)
    requires width == 12 && mask == 0xFFF
    ensures And(count, mask) == count % 0x1000
  {
    Pow12();
    AndMask(count, width);
  }

  lemma Pow12()
    ensures Pow2(12) == 0x1000
  {
  }

  lemma Pow22()
    ensures Pow2(22) == SHIFT
  {
    Pow12();
    assert Pow2(22) == 1024 * Pow2(12);
  }

  lemma WordIsSum(x: nat, time: nat, node: nat, one: nat, mask: nat, count: nat)
    requires x < TWO64 && time == 22 && node == 12 && one == 1 && mask == 0xFFF
    ensures Or(Or(ShiftLeft(x, time), ShiftLeft(one, node)), And(count, mask)) == x * SHIFT % TWO64 + 0x1000 + count % 0x1000
  {
    var t := TimeField(x, time);
    NodeField(one, node);
    CounterField(count, node, mask);
    FieldsAreOred(t, count % 0x1000);
  }

  /** An id is the very word that the program puts together by shifting, masking and or-ing. */
  lemma PackIsWord(timestamp: nat, count: nat)
    ensures Pack(timestamp, count)
         == Or(Or(ShiftLeft((timestamp - 1767225600000) % TWO64, 22), ShiftLeft(1, 12)), And(count, 0xFFF))
  {
    WordIsSum((timestamp - 1767225600000) % TWO64, 22, 12, 1, 0xFFF, count);
  }

  /** On 64-bit words, or-ing the three shifted fields is adding them. */
  lemma OrIsPlus(elapsed: bv64, count: bv64)
    ensures (elapsed << 22) | (1 << 12) | (count & 0xFFF) == (elapsed << 22) + 0x1000 + (count & 0xFFF)
  {
    var high := elapsed << 22;
    assert high & 0x3F_FFFF == 0;
    assert (high | 0x1000) == high + 0x1000;
  }

  class OrderIdGenerator {
    var sequence: nat

    ghost predicate Valid()
      reads this
    {
      sequence < TWO32
    }

    constructor ()
      ensures Valid() && sequence == 0
    {
      sequence := 0;
    }

    /** The counter is taken and incremented in one atomic step. */
    method Generate(timestamp: nat) returns (id: nat)
      requires Valid() && timestamp < TWO64
      modifies this
      ensures Valid()
      ensures id == Pack(timestamp, old(sequence))
      ensures sequence == (old(sequence) + 1) % TWO32
    {
      var count := sequence;
      sequence := (sequence + 1) % TWO32;
      id := (timestamp - EPOCH) % TWO64 * SHIFT % TWO64 + NODE * SEQUENCES + count % SEQUENCES;
    }
  }

  lemma ShiftDropsHighBits(x: int)
    ensures x % TWO64 * SHIFT % TWO64 == x % WINDOW * SHIFT
  {
    var y := x % TWO64;
    var q := y / WINDOW;
    var w := y % WINDOW;
    assert y == q * WINDOW + w;
    assert y * SHIFT == w * SHIFT + q * TWO64;
    assert 0 <= w * SHIFT < TWO64;
    assert x == x / TWO64 * TWO64 + y == (x / TWO64 * SHIFT + q) * WINDOW + w;
    Remainder(x, x / TWO64 * SHIFT + q, WINDOW, w);
    Remainder(y * SHIFT, q, TWO64, w * SHIFT);
  }

  /** The fields of an id can be read back. */
  lemma PackFields(timestamp: nat, count: nat)
    ensures var id := Pack(timestamp, count);
            && id < TWO64
            && id / SHIFT == (timestamp - EPOCH) % WINDOW
            && id / SEQUENCES % NODES == NODE
            && id % SEQUENCES == count % SEQUENCES
  {
    ShiftDropsHighBits(timestamp - EPOCH);
    var t := (timestamp - EPOCH) % WINDOW;
    var low := count % SEQUENCES;
    var id := t * SHIFT + (NODE * SEQUENCES + low);
    assert Pack(timestamp, count) == id;
    Remainder(id, t, SHIFT, NODE * SEQUENCES + low);
    Remainder(id, t * NODES + NODE, SEQUENCES, low);
    Remainder(t * NODES + NODE, t, NODES, NODE);
  }

  /** Two ids are equal exactly when clocks agree modulo the window and counters modulo 4096. */
  lemma SameId(t: nat, s: nat, t': nat, s': nat)
    ensures Pack(t, s) == Pack(t', s')
       <==> (t - EPOCH) % WINDOW == (t' - EPOCH) % WINDOW && s % SEQUENCES == s' % SEQUENCES
  {
    PackFields(t, s);
    PackFields(t', s');
    ShiftDropsHighBits(t - EPOCH);
    ShiftDropsHighBits(t' - EPOCH);
  }

  /** The id of the `i`th call of a run, given what each call read from the clock. */
  function IdAt(start: nat, clocks: seq<nat>, i: nat): nat
    requires i < |clocks|
  {
    Pack(clocks[i], (start + i) % TWO32)
  }

  ghost predicate AllDistinct(start: nat, clocks: seq<nat>) {
    forall i, j :: 0 <= i < j < |clocks| ==> IdAt(start, clocks, i) != IdAt(start, clocks, j)
  }

  ghost predicate InWindow(clocks: seq<nat>) {
    forall i :: 0 <= i < |clocks| ==> EPOCH <= clocks[i] < EPOCH + WINDOW
  }

  /** Two calls that read the same millisecond and whose counters agree modulo 4096. */
  predicate Clash(clocks: seq<nat>, i: nat, j: nat) {
    i < j < |clocks| && clocks[i] == clocks[j] && (j - i) % SEQUENCES == 0
  }

  lemma CountersAgree(start: nat, i: nat, j: nat)
    requires i < j
    ensures (start + i) % TWO32 % SEQUENCES == (start + j) % TWO32 % SEQUENCES <==> (j - i) % SEQUENCES == 0
  {
    assert (start + i) % TWO32 % SEQUENCES == (start + i) % SEQUENCES;
    assert (start + j) % TWO32 % SEQUENCES == (start + j) % SEQUENCES;
  }

  lemma EqualIds(start: nat, clocks: seq<nat>, i: nat, j: nat)
    requires InWindow(clocks) && i < j < |clocks|
    ensures IdAt(start, clocks, i) == IdAt(start, clocks, j) <==> Clash(clocks, i, j)
  {
    SameId(clocks[i], (start + i) % TWO32, clocks[j], (start + j) % TWO32);
    CountersAgree(start, i, j);
  }

  /**
     Over any run whose clock readings lie in the window, in any order, and across any
     number of wraps of the counter: all ids are distinct if and only if no two calls clash.
   */
  lemma IdsAreDistinct(start: nat, clocks: seq<nat>)
    requires InWindow(clocks)
    ensures AllDistinct(start, clocks) <==> forall i: nat, j: nat :: !Clash(clocks, i, j)
  {
    forall i, j | 0 <= i < j < |clocks|
      ensures IdAt(start, clocks, i) == IdAt(start, clocks, j) <==> Clash(clocks, i, j)
    {
      EqualIds(start, clocks, i, j);
    }
    if i: nat, j: nat :| Clash(clocks, i, j) {
      assert IdAt(start, clocks, i) == IdAt(start, clocks, j);
    }
  }

  ghost predicate NeverBack(clocks: seq<nat>) {
    forall i, j :: 0 <= i <= j < |clocks| ==> clocks[i] <= clocks[j]
  }

  ghost predicate AtMost4096AMillisecond(clocks: seq<nat>) {
    forall i :: 0 <= i < |clocks| - SEQUENCES ==> clocks[i] != clocks[i + SEQUENCES]
  }

  /** With a clock that never runs backwards: distinct if and only if no millisecond serves more than 4096 calls. */
  lemma IdsAreDistinctWhenClockIsMonotone(start: nat, clocks: seq<nat>)
    requires InWindow(clocks) && NeverBack(clocks)
    ensures AllDistinct(start, clocks) <==> AtMost4096AMillisecond(clocks)
  {
    IdsAreDistinct(start, clocks);
    if i: nat, j: nat :| Clash(clocks, i, j) {
      assert j >= i + SEQUENCES;
      assert clocks[i] <= clocks[i + SEQUENCES] <= clocks[j];
    }
    forall i | 0 <= i < |clocks| - SEQUENCES && clocks[i] == clocks[i + SEQUENCES]
      ensures Clash(clocks, i, i + SEQUENCES)
    {
    }
  }

  /** A generated id fits 32 bits only during the first 1024 milliseconds after the epoch. */
  lemma IdFits32Bits(timestamp: nat, count: nat)
    requires EPOCH <= timestamp < EPOCH + WINDOW
    ensures Pack(timestamp, count) < TWO32 <==> timestamp < EPOCH + 1024
  {
    ShiftDropsHighBits(timestamp - EPOCH);
  }

  /** So a user can cancel a resting order by the id it was given only in that first second. */
  lemma CancelReachesOnlyEarlyOrders(b: Book, o: Order, timestamp: nat, count: nat)
    requires Valid(b) && o in b.bids + b.asks
    requires EPOCH <= timestamp < EPOCH + WINDOW && o.id == Pack(timestamp, count)
    ensures Cancel(b, o.id, o.user).order == Some(o) <==> timestamp < EPOCH + 1024
  {
    BookLaws.CancelReaches(b, o);
    IdFits32Bits(timestamp, count);
  }

  /** The first id generated after that: an order resting under it that its owner cannot cancel. */
  lemma CancelMissesLateOrder()
    ensures exists b: Book, o: Order ::
              && Valid(b) && o in b.bids && o.id == Pack(EPOCH + 1024, 0)
              && Cancel(b, o.id, o.user) == Cancelled(b, None)
  {
    var o := Order(Pack(EPOCH + 1024, 0), 1, 7, Buy, 100, 5);
    var b := Book(1, [o], []);
    assert o.id == TWO32 + SEQUENCES;
    assert Valid(b) && o in b.bids && Cancel(b, o.id, o.user) == Cancelled(b, None);
  }
}
