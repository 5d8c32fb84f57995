/**
 The two ends of a connection: the server's loop over a session's buffer, and the
 client's send and receive loops.
 */
module Connections {
  import opened Orders
  import opened Framing

  /** What one readiness event delivers, receive by receive. */
  datatype Step = Data(bytes: seq<Byte>) | Interrupted
  datatype End = WouldBlock | Closed | Failed
  datatype Reading = Reading(steps: seq<Step>, end: End)

  function Bytes(steps: seq<Step>): seq<Byte> {
    if steps == [] then []
    else
      var n := |steps| - 1;
      Bytes(steps[..n]) + if steps[n].Data? then steps[n].bytes else []
  }

  /** An interruption delivers nothing and loses nothing, and receives follow one another. */
  lemma {:induction false} BytesFollow(a: seq<Step>, b: seq<Step>, x: seq<Byte>)
    ensures Bytes(a + b) == Bytes(a) + Bytes(b)
    ensures Bytes([Data(x)]) == x && Bytes([Interrupted]) == []
  {
    if b == [] {
      assert a + b == a;
    } else {
      var n := |b| - 1;
      assert (a + b)[..|a| + n] == a + b[..n];
      BytesFollow(a, b[..n], x);
    }
  }

  /** The receives carry exactly this stream, piece by piece, with interruptions anywhere. */
  predicate Carries(steps: seq<Step>, b: seq<Byte>) {
    if steps == [] then b == []
    else match steps[0]
      case Data(x) => x <= b && Carries(steps[1..], b[|x|..])
      case Interrupted => Carries(steps[1..], b)
  }

  lemma {:induction false} CarriedIsBytes(steps: seq<Step>, b: seq<Byte>)
    requires Carries(steps, b)
    ensures Bytes(steps) == b
  {
    if steps != [] {
      var x := if steps[0].Data? then steps[0].bytes else [];
      assert steps == [steps[0]] + steps[1..];
      BytesFollow([steps[0]], steps[1..], x);
      CarriedIsBytes(steps[1..], b[|x|..]);
    }
  }

  /** So far the packets of `whole` in front of position `at` were dispatched. */
  ghost predicate PartlyParsed(start: seq<Packet>, dispatched: seq<Packet>, b: seq<Byte>, at: nat)
    requires at <= |b|
  {
    && dispatched + Parse(b[at..]).packets == start + Parse(b).packets
    && Parse(b[at..]).rest == Parse(b).rest
  }

  lemma ParseBegins(start: seq<Packet>, b: seq<Byte>)
    ensures PartlyParsed(start, start, b, 0)
  {
    assert b[0..] == b;
  }

  lemma ParsesOne(start: seq<Packet>, dispatched: seq<Packet>, b: seq<Byte>, at: nat, p: Packet, end: nat)
    requires at <= |b| && !Unfinished(b[at..])
    requires end == at + HEADER + LengthOf(b[at..]) <= |b|
    requires p == Packet(KindOf(b[at..]), b[at + HEADER..end])
    requires PartlyParsed(start, dispatched, b, at)
    ensures PartlyParsed(start, dispatched + [p], b, end)
  {
    var left := b[at..];
    assert left[HEADER..HEADER + LengthOf(left)] == b[at + HEADER..end];
    assert left[HEADER + LengthOf(left)..] == b[end..];
    assert First(left) == p && AfterFirst(left) == b[end..];
    assert dispatched + ([p] + Parse(b[end..]).packets) == dispatched + [p] + Parse(b[end..]).packets;
  }

  lemma ParseEnds(start: seq<Packet>, dispatched: seq<Packet>, b: seq<Byte>, at: nat)
    requires at <= |b| && Unfinished(b[at..]) && PartlyParsed(start, dispatched, b, at)
    ensures dispatched == start + Parse(b).packets && b[at..] == Parse(b).rest
  {
    assert dispatched + [] == dispatched;
  }

  class Session {
    const router: Router
    var open: bool
    var buffer: seq<Byte>
    var dispatched: seq<Packet>
    var sent: seq<Byte>
    /** Everything received in events that ended well. */
    ghost var stream: seq<Byte>

    /** However the stream was cut into receives: its packets are dispatched, its tail is kept. */
    ghost predicate Valid()
      reads this
    {
      && Parse(stream) == Parsed(dispatched, buffer)
      && sent == EncodeAll(Replies(router, dispatched))
    }

    constructor (router: Router)
      ensures Valid() && open && stream == []
      ensures this.router == router
    {
      this.router := router;
      open, buffer, dispatched, sent, stream := true, [], [], [], [];
    }

    method Dispatch(p: Packet) returns (reply: seq<Byte>)
      modifies this`dispatched
      ensures dispatched == old(dispatched) + [p] && reply == router(dispatched)
    {
      dispatched := dispatched + [p];
      reply := router(dispatched);
    }

    method SendReply(reply: seq<Byte>, kind: nat)
      modifies this`sent
      ensures sent == old(sent) + EncodeAll(ReplyTo(reply, kind))
    {
      if reply != [] {
        var packet := Header(|reply|, (kind + 1) % TWO16) + reply;
        sent := sent + packet;
        assert EncodeAll([Packet((kind + 1) % TWO16, reply)]) == packet + [];
      }
    }

    /** One packet is handed to the router and answered. */
    method Serve(p: Packet)
      requires sent == EncodeAll(Replies(router, dispatched))
      modifies this`dispatched, this`sent
      ensures dispatched == old(dispatched) + [p]
      ensures sent == EncodeAll(Replies(router, dispatched))
    {
      var reply := Dispatch(p);
      SendReply(reply, p.kind);
      assert dispatched[..|dispatched| - 1] == old(dispatched);
      EncodeAllConcat(Replies(router, old(dispatched)), ReplyTo(reply, p.kind));
    }

    /** Every whole packet of the buffer is served; the unfinished tail stays. */
    method ProcessBuffer()
      requires sent == EncodeAll(Replies(router, dispatched))
      modifies this`buffer, this`dispatched, this`sent
      ensures var p := Parse(old(buffer)); dispatched == old(dispatched) + p.packets && buffer == p.rest
      ensures sent == EncodeAll(Replies(router, dispatched))
    {
      ghost var start := dispatched;
      var processed := 0;
      ParseBegins(start, buffer);
      while |buffer| - processed >= HEADER
        invariant processed <= |buffer| && buffer == old(buffer)
        invariant PartlyParsed(start, dispatched, buffer, processed)
        invariant sent == EncodeAll(Replies(router, dispatched))
        decreases |buffer| - processed
      {
        var length, kind := LengthOf(buffer[processed..]), KindOf(buffer[processed..]);
        if |buffer| - processed < HEADER + length { break; }
        var payload := buffer[processed + HEADER..processed + HEADER + length];
        var end := processed + HEADER + length;
        ParsesOne(start, dispatched, buffer, processed, Packet(kind, payload), end);
        Serve(Packet(kind, payload));
        processed := end;
      }
      ParseEnds(start, dispatched, buffer, processed);
      if processed > 0 { buffer := buffer[processed..]; }
    }

    /** Reads until nothing is left to read; the bytes count only if the connection still stands. */
    method ReadAll(r: Reading) returns (data: seq<Byte>, ok: bool)
      modifies this`open
      ensures ok == r.end.WouldBlock? && (ok ==> data == Bytes(r.steps))
      ensures open == (old(open) && ok)
    {
      data := [];
      for i := 0 to |r.steps|
        invariant data == Bytes(r.steps[..i])
      {
        assert r.steps[..i + 1][..i] == r.steps[..i];
        match r.steps[i] {
          case Data(bytes) => data := data + bytes;
          case Interrupted =>
        }
      }
      assert r.steps[..|r.steps|] == r.steps;
      ok := r.end.WouldBlock?;
      if !ok { open := false; }
    }

    /**
     One readiness event. Bytes that arrive in the event that also reports the end of
     the connection are dropped.
     */
    method OnReadable(r: Reading) returns (ok: bool)
      requires Valid()
      modifies this
      ensures Valid()
      ensures ok == (old(open) && r.end.WouldBlock?) && open == ok
      ensures stream == old(stream) + if ok then Bytes(r.steps) else []
    {
      if !open { return false; }
      var data;
      data, ok := ReadAll(r);
      if !ok || data == [] { return; }
      ParseResumes(stream, data);
      stream := stream + data;
      buffer := buffer + data;
      ProcessBuffer();
    }
  }

  /** What a connection delivers before it ends. */
  function Delivered(readings: seq<Reading>): seq<Byte> {
    if readings == [] || !readings[0].end.WouldBlock? then []
    else Bytes(readings[0].steps) + Delivered(readings[1..])
  }

  lemma {:induction false} DeliveredMore(readings: seq<Reading>, i: nat)
    requires i < |readings| && forall j :: 0 <= j < i ==> readings[j].end.WouldBlock?
    ensures Delivered(readings[..i + 1])
         == Delivered(readings[..i]) + if readings[i].end.WouldBlock? then Bytes(readings[i].steps) else []
    ensures !readings[i].end.WouldBlock? ==> Delivered(readings) == Delivered(readings[..i])
  {
    if i > 0 {
      assert readings[..i + 1][1..] == readings[1..][..i] && readings[..i][1..] == readings[1..][..i - 1];
      DeliveredMore(readings[1..], i - 1);
    }
  }

  /** These events cut a stream into receives in some way, and the connection stands. */
  ghost predicate Cuts(readings: seq<Reading>, b: seq<Byte>) {
    if readings == [] then b == []
    else
      && readings[0].end.WouldBlock?
      && exists k: nat :: k <= |b| && Carries(readings[0].steps, b[..k]) && Cuts(readings[1..], b[k..])
  }

  lemma {:induction false} CutIsDelivered(readings: seq<Reading>, b: seq<Byte>)
    requires Cuts(readings, b)
    ensures Delivered(readings) == b
  {
    if readings != [] {
      var k: nat :| k <= |b| && Carries(readings[0].steps, b[..k]) && Cuts(readings[1..], b[k..]);
      CarriedIsBytes(readings[0].steps, b[..k]);
      CutIsDelivered(readings[1..], b[k..]);
    }
  }

  /** The event that ends the connection delivers nothing, nor does any after it. */
  lemma {:induction false} NothingAfterTheEnd(readings: seq<Reading>, last: Reading, more: seq<Reading>, b: seq<Byte>)
    requires Cuts(readings, b) && !last.end.WouldBlock?
    ensures Delivered(readings + [last] + more) == b
  {
    if readings == [] {
      assert ([last] + more)[0] == last && [] + [last] + more == [last] + more;
    } else {
      var k: nat :| k <= |b| && Carries(readings[0].steps, b[..k]) && Cuts(readings[1..], b[k..]);
      assert (readings + [last] + more)[1..] == readings[1..] + [last] + more;
      CarriedIsBytes(readings[0].steps, b[..k]);
      NothingAfterTheEnd(readings[1..], last, more, b[k..]);
    }
  }

  /**
     Framing is independent of chunking: for any stream, however it is cut into receives
     and events, the session dispatches the packets of that very stream, keeps its tail
     and sends the replies. If the connection ends, this holds of what came before.
   */
  method ServeConnection(session: Session, readings: seq<Reading>)
    requires session.Valid() && session.open && session.stream == []
    modifies session
    ensures Parse(Delivered(readings)) == Parsed(session.dispatched, session.buffer)
    ensures session.sent == EncodeAll(Replies(session.router, session.dispatched))
    ensures forall b :: Cuts(readings, b) ==>
              && Parse(b) == Parsed(session.dispatched, session.buffer)
              && session.sent == EncodeAll(Replies(session.router, Parse(b).packets))
  {
    forall b | Cuts(readings, b) ensures Delivered(readings) == b { CutIsDelivered(readings, b); }
    for i := 0 to |readings|
      invariant session.Valid() && session.open
      invariant session.stream == Delivered(readings[..i])
      invariant forall j :: 0 <= j < i ==> readings[j].end.WouldBlock?
    {
      DeliveredMore(readings, i);
      var ok := session.OnReadable(readings[i]);
      if !ok {
        assert session.stream == Delivered(readings);
        return;
      }
    }
    assert readings[..|readings|] == readings;
  }

  // -------------------------------------------------------------- the client

  /** A connected socket: what it has yet to deliver, and what was written to it. */
  class Socket {
    var incoming: seq<Byte>
    var outgoing: seq<Byte>

    /** Between one byte and all that is asked for; nothing when the stream has ended. */
    method Recv(max: nat) returns (chunk: seq<Byte>)
      requires max > 0
      modifies this`incoming
      ensures chunk + incoming == old(incoming) && |chunk| <= max
      ensures chunk == [] <==> old(incoming) == []
    {
      var n: nat :| n <= |incoming| && n <= max && (n == 0 <==> incoming == []);
      chunk, incoming := incoming[..n], incoming[n..];
    }

    /** Between one byte and all, or a failure. */
    method Send(bytes: seq<Byte>) returns (n: nat)
      requires bytes != []
      modifies this`outgoing
      ensures n <= |bytes| && outgoing == old(outgoing) + bytes[..n]
    {
      n :| 0 <= n <= |bytes|;
      outgoing := outgoing + bytes[..n];
    }

    constructor (incoming: seq<Byte>)
      ensures this.incoming == incoming && outgoing == []
    {
      this.incoming, outgoing := incoming, [];
    }
  }

  class Client {
    const socket: Socket

    constructor (socket: Socket)
      ensures this.socket == socket
    {
      this.socket := socket;
    }

    method SendAll(bytes: seq<Byte>) returns (ok: bool)
      modifies socket`outgoing
      ensures ok ==> socket.outgoing == old(socket.outgoing) + bytes
      ensures old(socket.outgoing) <= socket.outgoing <= old(socket.outgoing) + bytes
    {
      var total := 0;
      while total < |bytes|
        invariant total <= |bytes| && socket.outgoing == old(socket.outgoing) + bytes[..total]
      {
        var n := socket.Send(bytes[total..]);
        if n == 0 { return false; }
        assert bytes[..total] + bytes[total..][..n] == bytes[..total + n];
        total := total + n;
      }
      ok := true;
    }

    /** The whole length, or a failure when the stream ends before. */
    method RecvAll(length: nat) returns (ok: bool, data: seq<Byte>)
      modifies socket`incoming
      ensures ok == (|old(socket.incoming)| >= length)
      ensures ok ==> data + socket.incoming == old(socket.incoming) && |data| == length
    {
      data := [];
      while |data| < length
        invariant |data| <= length && data + socket.incoming == old(socket.incoming)
      {
        var chunk := socket.Recv(length - |data|);
        if chunk == [] { return false, data; }
        data := data + chunk;
      }
      ok := true;
    }

    /** The server parses what a successful send adds as exactly this packet. */
    method SendPkt(kind: nat, payload: seq<Byte>) returns (ok: bool)
      requires kind < TWO16 && |payload| <= SEND_LIMIT
      modifies socket`outgoing
      ensures ok ==> socket.outgoing == old(socket.outgoing) + Encode(Packet(kind, payload))
      ensures old(socket.outgoing) <= socket.outgoing
    {
      var hdr := Header(|payload|, kind);
      ok := SendAll(hdr + payload);
    }

    method RecvPkt() returns (ok: bool, kind: nat, body: seq<Byte>)
      modifies socket`incoming
      ensures Receive(old(socket.incoming)) == if ok then Some(Packet(kind, body)) else None
      ensures ok ==> socket.incoming == AfterFirst(old(socket.incoming))
    {
      var hdr;
      ok, hdr := RecvAll(HEADER);
      kind, body := 0, [];
      if !ok { return; }
      ghost var all := hdr + socket.incoming;
      kind := KindOf(hdr);
      var length := LengthOf(hdr);
      assert all == old(socket.incoming) && KindOf(all) == kind && LengthOf(all) == length;
      if length > RECEIVE_LIMIT { return false, kind, []; }
      if length > 0 {
        ok, body := RecvAll(length);
        assert ok ==> all[HEADER..] == body + socket.incoming;
      }
      assert ok == !Unfinished(all);
      assert ok ==> First(all).payload == body && AfterFirst(all) == socket.incoming;
    }
  }
}
