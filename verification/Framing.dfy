/**
 Packets on a byte stream: a header of six bytes in network order, 32 bits of payload
 length and 16 bits of message type, followed by the payload.
 */
module Framing {
  import opened Arithmetic
  import opened Orders
  import opened Sums

  type Byte = x: int | 0 <= x < 256

  const HEADER := 6
  const TWO16 := 0x1_0000
  /** The longest payload a client takes. */
  const RECEIVE_LIMIT := 0x10_0000
  /** The longest payload a client has room to send. */
  const SEND_LIMIT := 1018

  datatype Packet = Packet(kind: nat, payload: seq<Byte>)

  predicate WellFormed(p: Packet) {
    p.kind < TWO16 && |p.payload| < TWO32
  }

  function Header(length: nat, kind: nat): (h: seq<Byte>)
    ensures |h| == HEADER
  {
    [length / 0x100_0000 % 256, length / 0x1_0000 % 256, length / 0x100 % 256, length % 256,
     kind / 0x100 % 256, kind % 256]
  }

  function LengthOf(b: seq<Byte>): (n: nat)
    requires |b| >= HEADER
    ensures n < TWO32
  {
    b[0] as int * 0x100_0000 + b[1] as int * 0x1_0000 + b[2] as int * 0x100 + b[3]
  }

  function KindOf(b: seq<Byte>): (k: nat)
    requires |b| >= HEADER
    ensures k < TWO16
  {
    b[4] as int * 0x100 + b[5]
  }

  function Encode(p: Packet): seq<Byte> {
    Header(|p.payload|, p.kind) + p.payload
  }

  function EncodeAll(ps: seq<Packet>): seq<Byte> {
    if ps == [] then [] else Encode(ps[0]) + EncodeAll(ps[1..])
  }

  /** Too short for a header, or for the payload its header announces. */
  predicate Unfinished(b: seq<Byte>) {
    |b| < HEADER || |b| < HEADER + LengthOf(b)
  }

  /** The first packet of a stream that holds a whole one. */
  function First(b: seq<Byte>): Packet
    requires !Unfinished(b)
  {
    Packet(KindOf(b), b[HEADER..HEADER + LengthOf(b)])
  }

  function AfterFirst(b: seq<Byte>): seq<Byte>
    requires !Unfinished(b)
  {
    b[HEADER + LengthOf(b)..]
  }

  datatype Parsed = Parsed(packets: seq<Packet>, rest: seq<Byte>)

  function Parse(b: seq<Byte>): Parsed
    decreases |b|
  {
    if Unfinished(b) then Parsed([], b)
    else
      var p := Parse(AfterFirst(b));
      Parsed([First(b)] + p.packets, p.rest)
  }

  lemma HeaderRoundTrip(length: nat, kind: nat, tail: seq<Byte>)
    ensures var b := Header(length, kind) + tail;
            LengthOf(b) == length % TWO32 && KindOf(b) == kind % TWO16
  {
    BytesOf(length);
  }

  lemma BytesOf(n: nat)
    ensures n % TWO32 == n / 0x100_0000 % 256 * 0x100_0000 + n / 0x1_0000 % 256 * 0x1_0000 + n / 0x100 % 256 * 0x100 + n % 256
  {
    var a := n / 256;
    var b := a / 256;
    var c := b / 256;
    var low := a % 256 * 256 + n % 256;
    Remainder(n, b, 0x1_0000, low);
    Remainder(n, c, 0x100_0000, b % 256 * 0x1_0000 + low);
    Remainder(n, c / 256, TWO32, c % 256 * 0x100_0000 + b % 256 * 0x1_0000 + low);
  }

  lemma HeaderBack(b: seq<Byte>)
    requires |b| >= HEADER
    ensures Header(LengthOf(b), KindOf(b)) == b[..HEADER]
  {
    var n := LengthOf(b);
    assert n / 0x100 == b[0] as int * 0x1_0000 + b[1] as int * 0x100 + b[2];
    assert n / 0x1_0000 == b[0] as int * 0x100 + b[1];
    assert n / 0x100_0000 == b[0];
  }

  /** On the wire: 32 bits of length, then 16 bits of type, the most significant byte first. */
  lemma NetworkOrder()
    ensures Encode(Packet(0x0102, [7])) == [0, 0, 0, 1, 1, 2, 7]
    ensures Header(0x0A0B_0C0D, 0) == [0x0A, 0x0B, 0x0C, 0x0D, 0, 0]
  {
    assert Header(1, 0x0102) == [0, 0, 0, 1, 1, 2];
  }

  /** A whole packet in front of a stream is the first to be parsed. */
  lemma FirstOfEncoded(p: Packet, tail: seq<Byte>)
    requires WellFormed(p)
    ensures var b := Encode(p) + tail; !Unfinished(b) && First(b) == p && AfterFirst(b) == tail
  {
    var header := Header(|p.payload|, p.kind);
    Slices(header, p.payload, tail);
    HeaderRoundTrip(|p.payload|, p.kind, p.payload + tail);
  }

  lemma Slices(a: seq<Byte>, b: seq<Byte>, c: seq<Byte>)
    ensures var all := a + b + c;
            all == a + (b + c) && all[|a|..|a| + |b|] == b && all[|a| + |b|..] == c
  {
  }

  lemma EncodedFirst(b: seq<Byte>)
    requires !Unfinished(b)
    ensures WellFormed(First(b)) && Encode(First(b)) + AfterFirst(b) == b
  {
    HeaderBack(b);
    assert b == b[..HEADER] + b[HEADER..HEADER + LengthOf(b)] + b[HEADER + LengthOf(b)..];
  }

  /** Parsing loses nothing: packets and tail together are the stream, and the tail holds no whole packet. */
  lemma {:induction false} ParseIsExact(b: seq<Byte>)
    ensures var p := Parse(b);
            && EncodeAll(p.packets) + p.rest == b && Unfinished(p.rest)
            && forall q :: q in p.packets ==> WellFormed(q)
    decreases |b|
  {
    if !Unfinished(b) {
      ParseIsExact(AfterFirst(b));
      EncodedFirst(b);
      var p := Parse(AfterFirst(b));
      assert Parse(b).packets[1..] == p.packets;
      assert Encode(First(b)) + (EncodeAll(p.packets) + p.rest) == Encode(First(b)) + EncodeAll(p.packets) + p.rest;
    }
  }

  /** There is only one way to read a stream. */
  lemma {:induction false} ParseIsUnique(ps: seq<Packet>, rest: seq<Byte>)
    requires Unfinished(rest) && forall p :: p in ps ==> WellFormed(p)
    ensures Parse(EncodeAll(ps) + rest) == Parsed(ps, rest)
  {
    if ps == [] {
      assert EncodeAll(ps) + rest == rest;
    } else {
      var tail := EncodeAll(ps[1..]) + rest;
      assert EncodeAll(ps) + rest == Encode(ps[0]) + tail;
      FirstOfEncoded(ps[0], tail);
      ParseIsUnique(ps[1..], rest);
    }
  }

  lemma {:induction false} EncodeAllConcat(a: seq<Packet>, b: seq<Packet>)
    ensures EncodeAll(a + b) == EncodeAll(a) + EncodeAll(b)
  {
    if a == [] {
      assert a + b == b;
    } else {
      assert (a + b)[1..] == a[1..] + b;
      EncodeAllConcat(a[1..], b);
    }
  }

  /** Reading more later, behind the unfinished tail, gives what reading it all at once gives. */
  lemma ParseResumes(a: seq<Byte>, b: seq<Byte>)
    ensures var p := Parse(a);
            var q := Parse(p.rest + b);
            Parse(a + b) == Parsed(p.packets + q.packets, q.rest)
  {
    var p := Parse(a);
    var q := Parse(p.rest + b);
    ParseIsExact(a);
    ParseIsExact(p.rest + b);
    ConcatAssoc(EncodeAll(p.packets), p.rest, b);
    ConcatAssoc(EncodeAll(p.packets), EncodeAll(q.packets), q.rest);
    EncodeAllConcat(p.packets, q.packets);
    ParseIsUnique(p.packets + q.packets, q.rest);
  }

  // ------------------------------------------------------------- the client

  /** What a client makes of a stream: nothing if the packet is cut off or too long. */
  function Receive(b: seq<Byte>): Option<Packet> {
    if |b| < HEADER || LengthOf(b) > RECEIVE_LIMIT || Unfinished(b) then None else Some(First(b))
  }

  /** All packets a client reads before it gives up. */
  function ReceiveAll(b: seq<Byte>): seq<Packet>
    decreases |b|
  {
    if Receive(b).None? then [] else [First(b)] + ReceiveAll(AfterFirst(b))
  }

  function TooLong(ps: seq<Packet>): (n: nat)
    ensures n <= |ps|
  {
    if ps == [] || |ps[0].payload| > 1048576 then 0 else 1 + TooLong(ps[1..])
  }

  /** A client receives the packets sent to it up to the first that is longer than a mebibyte. */
  lemma {:induction false} ClientReceives(ps: seq<Packet>)
    requires forall p :: p in ps ==> WellFormed(p)
    ensures ReceiveAll(EncodeAll(ps)) == ps[..TooLong(ps)]
  {
    if ps != [] {
      FirstOfEncoded(ps[0], EncodeAll(ps[1..]));
      ClientReceives(ps[1..]);
    }
  }

  // ------------------------------------------------------------ the replies

  /** The reply to the last packet of those dispatched so far; empty means no reply. */
  type Router = seq<Packet> -> seq<Byte>

  /** A reply carries the type after its request's, in 16 bits. */
  function ReplyTo(reply: seq<Byte>, kind: nat): seq<Packet> {
    if reply == [] then [] else [Packet((kind + 1) % TWO16, reply)]
  }

  function Replies(router: Router, ps: seq<Packet>): seq<Packet> {
    if ps == [] then []
    else
      var n := |ps| - 1;
      Replies(router, ps[..n]) + ReplyTo(router(ps), ps[n].kind)
  }

  /** How many of the first `n` requests get an answer. */
  function Answered(router: Router, ps: seq<Packet>, n: nat): nat
    requires n <= |ps|
  {
    if n == 0 then 0 else Answered(router, ps, n - 1) + if router(ps[..n]) == [] then 0 else 1
  }

  /** The answer to each request, if it is not empty, carries the type after the request's. */
  lemma {:induction false} EachAnswerIsSent(router: Router, ps: seq<Packet>, i: nat)
    requires i < |ps|
    ensures |Replies(router, ps)| == Answered(router, ps, |ps|)
    ensures router(ps[..i + 1]) != [] ==>
              var k := Answered(router, ps, i);
              k < |Replies(router, ps)| && Replies(router, ps)[k] == Packet((ps[i].kind + 1) % 0x1_0000, router(ps[..i + 1]))
    decreases |ps|
  {
    var n := |ps| - 1;
    assert ps[..n + 1] == ps;
    AnsweredFront(router, ps, n, n);
    if i < n {
      AnsweredFront(router, ps, n, i);
      assert ps[..n][..i + 1] == ps[..i + 1];
      EachAnswerIsSent(router, ps[..n], i);
    } else if n > 0 {
      EachAnswerIsSent(router, ps[..n], 0);
    }
  }

  lemma {:induction false} AnsweredFront(router: Router, ps: seq<Packet>, n: nat, k: nat)
    requires k <= n <= |ps|
    ensures Answered(router, ps[..n], k) == Answered(router, ps, k)
    decreases k
  {
    if k > 0 {
      assert ps[..n][..k] == ps[..k];
      AnsweredFront(router, ps, n, k - 1);
    }
  }

  ghost predicate ShortReplies(router: Router) {
    forall ps :: |router(ps)| <= RECEIVE_LIMIT
  }

  lemma {:induction false} RepliesWellFormed(router: Router, ps: seq<Packet>)
    requires ShortReplies(router)
    ensures forall p :: p in Replies(router, ps) ==> WellFormed(p) && |p.payload| <= RECEIVE_LIMIT
  {
    if ps != [] {
      RepliesWellFormed(router, ps[..|ps| - 1]);
    }
  }

  lemma {:induction false} NoneTooLong(ps: seq<Packet>)
    requires forall p :: p in ps ==> |p.payload| <= RECEIVE_LIMIT
    ensures TooLong(ps) == |ps|
  {
    if ps != [] {
      NoneTooLong(ps[1..]);
    }
  }

  /**
     From one client to the server and back: every request is dispatched, in order and
     with nothing left over, and every reply that is not empty arrives, in order.
   */
  lemma ConversationArrives(router: Router, requests: seq<Packet>)
    requires ShortReplies(router)
    requires forall p :: p in requests ==> p.kind < TWO16 && |p.payload| <= SEND_LIMIT
    ensures Parse(EncodeAll(requests)) == Parsed(requests, [])
    ensures ReceiveAll(EncodeAll(Replies(router, requests))) == Replies(router, requests)
  {
    ParseIsUnique(requests, []);
    assert EncodeAll(requests) + [] == EncodeAll(requests);
    RepliesWellFormed(router, requests);
    ClientReceives(Replies(router, requests));
    NoneTooLong(Replies(router, requests));
  }

  /** As many packets arrive as requests were answered, and each answer arrives under its request's next type. */
  lemma EachAnswerArrives(router: Router, requests: seq<Packet>, i: nat)
    requires ShortReplies(router) && i < |requests|
    requires forall p :: p in requests ==> p.kind < TWO16 && |p.payload| <= SEND_LIMIT
    ensures var arrived := ReceiveAll(EncodeAll(Replies(router, requests)));
            && |arrived| == Answered(router, requests, |requests|)
            && (router(requests[..i + 1]) != [] ==>
                  var k := Answered(router, requests, i);
                  k < |arrived| && arrived[k] == Packet((requests[i].kind + 1) % 0x1_0000, router(requests[..i + 1])))
  {
    ConversationArrives(router, requests);
    EachAnswerIsSent(router, requests, i);
  }
}
