/** Selling is buying in the mirror: sides exchanged and prices negated. */
module MirrorLaws {
  import opened ExchangeTypes
  import opened PriceTime

  function MirrorOrder(o: Order): Order {
    o.(side := o.side.Opposite(), price := -o.price)
  }

  function MirrorQueue(queue: seq<Order>): seq<Order> {
    if queue == [] then [] else [MirrorOrder(queue[0])] + MirrorQueue(queue[1..])
  }

  function MirrorTrade(t: Trade): Trade {
    Trade(t.sellId, t.buyId, -t.price, t.quantity, t.timestamp)
  }

  function MirrorTrades(trades: seq<Trade>): seq<Trade> {
    if trades == [] then [] else [MirrorTrade(trades[0])] + MirrorTrades(trades[1..])
  }

  function MirrorBook(b: Book): Book {
    Book(MirrorQueue(b.asks), MirrorQueue(b.bids))
  }

  lemma {:induction false} MirrorFirst(o: Order, queue: seq<Order>)
    requires queue != []
    ensures var mirrored := MirrorQueue(queue);
      && mirrored != [] && mirrored[0] == MirrorOrder(queue[0]) && mirrored[1..] == MirrorQueue(queue[1..])
    ensures Crosses(MirrorOrder(o), MirrorOrder(queue[0])) == Crosses(o, queue[0])
  {
    assert MirrorQueue(queue) == [MirrorOrder(queue[0])] + MirrorQueue(queue[1..]);
  }

  // The front order takes all there is.
  lemma {:induction false} MirrorPartial(o: Order, queue: seq<Order>)
    requires queue != [] && 0 < o.remaining < queue[0].remaining && Crosses(o, queue[0])
    ensures var m := Sweep(o, queue);
      Sweep(MirrorOrder(o), MirrorQueue(queue)) == Matched(MirrorTrades(m.trades), MirrorQueue(m.rest), m.left)
  {
    MirrorFirst(o, queue);
    var m := Sweep(o, queue);
    assert m.trades[1..] == [];
    assert m.rest[1..] == queue[1..];
    hide Crosses;
  }

  lemma {:induction false} MirrorSweep(o: Order, queue: seq<Order>)
    ensures var m := Sweep(o, queue);
      Sweep(MirrorOrder(o), MirrorQueue(queue)) == Matched(MirrorTrades(m.trades), MirrorQueue(m.rest), m.left)
    decreases |queue|
  {
    hide Crosses;
    if queue != [] {
      MirrorFirst(o, queue);
    }
    if o.remaining == 0 || queue == [] || !Crosses(o, queue[0]) {
    } else if o.remaining < queue[0].remaining {
      MirrorPartial(o, queue);
    } else {
      var o' := o.(remaining := o.remaining - queue[0].remaining);
      MirrorSweep(o', queue[1..]);
      assert Sweep(o, queue).trades[1..] == Sweep(o', queue[1..]).trades;
    }
  }

  lemma {:induction false} MirrorInsert(o: Order, queue: seq<Order>)
    ensures Insert(MirrorOrder(o), MirrorQueue(queue)) == MirrorQueue(Insert(o, queue))
  {
    if queue == [] || Outranks(o.side, o.price, queue[0].price) {
      assert ([o] + queue)[1..] == queue;
    } else {
      MirrorInsert(o, queue[1..]);
      assert MirrorQueue(queue)[1..] == MirrorQueue(queue[1..]);
      assert ([queue[0]] + Insert(o, queue[1..]))[1..] == Insert(o, queue[1..]);
    }
  }

  lemma {:induction false} MirrorAvailable(o: Order, queue: seq<Order>)
    ensures Available(MirrorOrder(o), MirrorQueue(queue)) == Available(o, queue)
  {
    if queue != [] {
      assert MirrorQueue(queue)[1..] == MirrorQueue(queue[1..]);
      MirrorAvailable(o, queue[1..]);
    }
  }

  lemma {:induction false} MirrorIndex(queue: seq<Order>)
    ensures Index(MirrorQueue(queue)).Keys == Index(queue).Keys
  {
    if queue != [] {
      assert MirrorQueue(queue)[1..] == MirrorQueue(queue[1..]);
      MirrorIndex(queue[1..]);
    }
  }

  lemma {:induction false} MirrorHolds(b: Book, id: OrderId)
    ensures id in MirrorBook(b).ById() <==> id in b.ById()
  {
    MirrorIndex(b.bids);
    MirrorIndex(b.asks);
  }

  lemma {:induction false} MirrorSettle(swept: Book, o: Order, m: Matched)
    ensures var r := Settle(swept, o, m);
      Settle(MirrorBook(swept), MirrorOrder(o), Matched(MirrorTrades(m.trades), MirrorQueue(m.rest), m.left)) ==
      Result(MirrorBook(r.book), MirrorTrades(r.trades), r.outcome)
  {
    MirrorHolds(swept, o.id);
    MirrorInsert(o.(remaining := m.left), swept.Queue(o.side));
  }

  /**
   Matching a sell is the price-negated mirror of matching a buy: mirroring the book and the
   order mirrors the trades and the resulting book, and leaves the outcome alone.
   */
  lemma {:induction false} ProcessIsMirrorSymmetric(b: Book, o: Order)
    ensures var r := Process(b, o);
      Process(MirrorBook(b), MirrorOrder(o)) == Result(MirrorBook(r.book), MirrorTrades(r.trades), r.outcome)
  {
    hide Sweep, Available, Settle, MirrorQueue;
    var n := Normalized(o);
    var queue := b.Queue(o.side.Opposite());
    var m := Sweep(n, queue);
    MirrorSweep(n, queue);
    MirrorAvailable(n, queue);
    MirrorSettle(b.With(o.side.Opposite(), m.rest), n, m);
    assert MirrorBook(b).Queue(o.side) == MirrorQueue(queue);
    assert MirrorBook(b).With(o.side, MirrorQueue(m.rest)) == MirrorBook(b.With(o.side.Opposite(), m.rest));
  }
}
