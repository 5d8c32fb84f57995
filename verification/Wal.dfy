/**
 The write-ahead log: each event is written as a record before it is routed to
 the book thread of its ticker; the log alone determines the event again.
 */
module Wal {
  import opened Orders
  import opened Sums

  /** Type 0 is a new order, type 1 a cancel; side 0 is buy. */
  datatype WalRecord = WalRecord(typ: nat, id: nat, ticker: nat, user: nat, side: nat, price: nat, qty: nat)

  function Record(e: Event): WalRecord {
    match e
    case NewOrder(o) => WalRecord(0, o.id, o.ticker, o.user, if o.side.Buy? then 0 else 1, o.price, o.qty)
    case CancelOrder(t, id, u) => WalRecord(1, id, t, u, 0, 0, 0)
  }

  /** Reading a log record back. */
  function Decode(r: WalRecord): Event {
    if r.typ == 0 then NewOrder(Order(r.id, r.ticker, r.user, if r.side == 0 then Buy else Sell, r.price, r.qty))
    else CancelOrder(r.ticker, r.id, r.user)
  }

  function RecordAll(es: seq<Event>): (rs: seq<WalRecord>)
    ensures |rs| == |es|
  {
    seq(|es|, i requires 0 <= i < |es| => Record(es[i]))
  }

  function DecodeAll(rs: seq<WalRecord>): (es: seq<Event>)
    ensures |es| == |rs|
  {
    seq(|rs|, i requires 0 <= i < |rs| => Decode(rs[i]))
  }

  /** The log loses nothing: decoding what was recorded gives the events back. */
  lemma LogIsLossless(es: seq<Event>)
    ensures DecodeAll(RecordAll(es)) == es
  {
    assert forall i :: 0 <= i < |es| ==> Decode(Record(es[i])) == es[i];
  }

  function TickerOf(e: Event): nat {
    if e.NewOrder? then e.order.ticker else e.ticker
  }

  /** The events for one ticker, in log order. */
  function Project(es: seq<Event>, ticker: nat): seq<Event> {
    if es == [] then []
    else (if TickerOf(es[0]) == ticker then [es[0]] else []) + Project(es[1..], ticker)
  }

  lemma {:induction false} ProjectConcat(xs: seq<Event>, ys: seq<Event>, ticker: nat)
    ensures Project(xs + ys, ticker) == Project(xs, ticker) + Project(ys, ticker)
  {
    if xs == [] {
      assert xs + ys == ys;
    } else {
      assert (xs + ys)[1..] == xs[1..] + ys;
      ProjectConcat(xs[1..], ys, ticker);
      var first := if TickerOf(xs[0]) == ticker then [xs[0]] else [];
      ConcatAssoc(first, Project(xs[1..], ticker), Project(ys, ticker));
    }
  }

  lemma DecodeConcat(xs: seq<WalRecord>, ys: seq<WalRecord>)
    ensures DecodeAll(xs + ys) == DecodeAll(xs) + DecodeAll(ys)
  {
  }

  lemma {:induction false} ProjectIsForTicker(es: seq<Event>, ticker: nat)
    ensures forall o :: NewOrder(o) in Project(es, ticker) <==> NewOrder(o) in es && o.ticker == ticker
    ensures forall t, id, u :: CancelOrder(t, id, u) in Project(es, ticker) <==> CancelOrder(t, id, u) in es && t == ticker
  {
    if es != [] { ProjectIsForTicker(es[1..], ticker); }
  }
}
