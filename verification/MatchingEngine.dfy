/** The matching loops over the stored book, proved to sweep the flat queue. */
module MatchingEngines {
  import opened ExchangeTypes
  import opened PriceTime
  import opened LevelLaws
  import opened OrderBooks

  // One turn of a matching loop is the first step of the sweep.
  lemma {:induction false} SweepStep(o: Order, queue: seq<Order>, o': Order)
    requires o.remaining > 0 && queue != [] && Crosses(o, queue[0]) && queue[0].remaining > 0
    requires o' == o.(remaining := o.remaining - Min(o.remaining, queue[0].remaining))
    ensures var q := Min(o.remaining, queue[0].remaining);
      var m := Sweep(o', FillFirst(queue, q));
      Sweep(o, queue) == m.(trades := [Execution(o, queue[0], q)] + m.trades)
  {
  }

  lemma {:induction false} SweepEnds(o: Order, queue: seq<Order>)
    requires o.remaining == 0 || queue == [] || !Crosses(o, queue[0])
    ensures Sweep(o, queue) == Matched([], queue, o.remaining)
  {
  }

  // What a sweep amounts to after some trades have been made already.
  function After(trades: seq<Trade>, m: Matched): Matched {
    m.(trades := trades + m.trades)
  }

  lemma AfterStep(trades: seq<Trade>, trade: Trade, before: Matched, now: Matched)
    requires before == now.(trades := [trade] + now.trades)
    ensures After(trades, before) == After(trades + [trade], now)
  {
    assert trades + ([trade] + now.trades) == trades + [trade] + now.trades;
  }

  class MatchingEngine {
    constructor () {}

    /** The trades, and whether the call returned or threw; the book follows the flat specification. */
    method ProcessOrder(book: OrderBook, order: Order) returns (trades: seq<Trade>, outcome: Outcome)
      requires book.Valid()
      requires Narrow(Process(book.Flat(), order).book)
      modifies book.Repr
      ensures book.Valid() && fresh(book.Repr - old(book.Repr))
      ensures Result(book.Flat(), trades, outcome) == Process(old(book.Flat()), order)
    {
      var incoming := order;
      if incoming.kind.Market? && incoming.tif.GoodTillCancel? {
        incoming := incoming.(tif := ImmediateOrCancel);
      }
      if incoming.remaining == 0 {
        return [], ZeroQuantity;
      }
      if incoming.tif.FillOrKill? {
        var available := book.ExecutableQuantity(incoming);
        if available < incoming.remaining {
          return [], Done;
        }
      }
      if incoming.side.Buy? {
        trades, outcome := MatchBuy(book, incoming);
      } else {
        trades, outcome := MatchSell(book, incoming);
      }
    }

    method MatchBuy(book: OrderBook, order: Order) returns (trades: seq<Trade>, outcome: Outcome)
      requires book.Valid() && order.side == Buy
      requires var m := Sweep(order, book.Flat().asks);
        Narrow(Settle(book.Flat().With(Sell, m.rest), order, m).book)
      modifies book.Repr
      ensures book.Valid() && fresh(book.Repr - old(book.Repr))
      ensures var m := Sweep(order, old(book.Flat().asks));
        Result(book.Flat(), trades, outcome) == Settle(old(book.Flat()).With(Sell, m.rest), order, m)
    {
      var incoming := order;
      ghost var m := Sweep(order, book.Flat().asks);
      trades := [];
      while incoming.remaining > 0 && BuyCanMatch(incoming, book)
        invariant book.Valid() && book.Repr == old(book.Repr)
        invariant incoming == order.(remaining := incoming.remaining)
        invariant book.Flat().bids == old(book.Flat().bids)
        invariant m == After(trades, Sweep(incoming, book.Flat().asks))
        decreases incoming.remaining
      {
        ghost var before := Sweep(incoming, book.Flat().asks);
        var trade, quantity := ExecuteBest(book, incoming);
        incoming := incoming.(remaining := incoming.remaining - quantity);
        AfterStep(trades, trade, before, Sweep(incoming, book.Flat().asks));
        trades := trades + [trade];
      }
      SweepEnds(incoming, book.Flat().asks);
      assert book.Flat() == old(book.Flat()).With(Sell, m.rest);
      outcome := RestRemainder(book, incoming, order, m);
    }

    method MatchSell(book: OrderBook, order: Order) returns (trades: seq<Trade>, outcome: Outcome)
      requires book.Valid() && order.side == Sell
      requires var m := Sweep(order, book.Flat().bids);
        Narrow(Settle(book.Flat().With(Buy, m.rest), order, m).book)
      modifies book.Repr
      ensures book.Valid() && fresh(book.Repr - old(book.Repr))
      ensures var m := Sweep(order, old(book.Flat().bids));
        Result(book.Flat(), trades, outcome) == Settle(old(book.Flat()).With(Buy, m.rest), order, m)
    {
      var incoming := order;
      ghost var m := Sweep(order, book.Flat().bids);
      trades := [];
      while incoming.remaining > 0 && SellCanMatch(incoming, book)
        invariant book.Valid() && book.Repr == old(book.Repr)
        invariant incoming == order.(remaining := incoming.remaining)
        invariant book.Flat().asks == old(book.Flat().asks)
        invariant m == After(trades, Sweep(incoming, book.Flat().bids))
        decreases incoming.remaining
      {
        ghost var before := Sweep(incoming, book.Flat().bids);
        var trade, quantity := ExecuteBest(book, incoming);
        incoming := incoming.(remaining := incoming.remaining - quantity);
        AfterStep(trades, trade, before, Sweep(incoming, book.Flat().bids));
        trades := trades + [trade];
      }
      SweepEnds(incoming, book.Flat().bids);
      assert book.Flat() == old(book.Flat()).With(Buy, m.rest);
      outcome := RestRemainder(book, incoming, order, m);
    }

    // One trade with the best opposite order, at its price, for as much as both have.
    method ExecuteBest(book: OrderBook, incoming: Order) returns (trade: Trade, quantity: Quantity)
      requires book.Valid() && incoming.remaining > 0
      requires var queue := book.Flat().Queue(incoming.side.Opposite());
        queue != [] && Crosses(incoming, queue[0])
      modifies book.Repr
      ensures book.Valid() && book.Repr == old(book.Repr)
      ensures 0 < quantity <= incoming.remaining
      ensures book.Flat().Queue(incoming.side) == old(book.Flat().Queue(incoming.side))
      ensures var now := Sweep(incoming.(remaining := incoming.remaining - quantity), book.Flat().Queue(incoming.side.Opposite()));
        Sweep(incoming, old(book.Flat().Queue(incoming.side.Opposite()))) == now.(trades := [trade] + now.trades)
    {
      var side := incoming.side.Opposite();
      var resting := book.Best(side);
      FrontRests(book.Flat(), side);
      quantity := Min(incoming.remaining, resting.remaining);
      SweepStep(incoming, book.Flat().Queue(side), incoming.(remaining := incoming.remaining - quantity));
      trade :=
        if incoming.side.Buy?
        then Trade(incoming.id, resting.id, resting.price, quantity, incoming.timestamp)
        else Trade(resting.id, incoming.id, resting.price, quantity, incoming.timestamp);
      book.FillBest(side, quantity);
    }

    predicate BuyCanMatch(incoming: Order, book: OrderBook)
      requires book.Valid() && incoming.side == Buy
      reads book, book.Repr
      ensures BuyCanMatch(incoming, book) <==> book.Flat().asks != [] && Crosses(incoming, book.Flat().asks[0])
    {
      book.Has(Sell) && (incoming.kind.Market? || incoming.price >= book.Best(Sell).price)
    }

    predicate SellCanMatch(incoming: Order, book: OrderBook)
      requires book.Valid() && incoming.side == Sell
      reads book, book.Repr
      ensures SellCanMatch(incoming, book) <==> book.Flat().bids != [] && Crosses(incoming, book.Flat().bids[0])
    {
      book.Has(Buy) && (incoming.kind.Market? || incoming.price <= book.Best(Buy).price)
    }

    lemma FrontRests(b: Book, side: Side)
      requires Coherent(b) && b.Queue(side) != []
      ensures Resting(side, b.Queue(side)[0])
    {
    }

    // The end of both loops: what is left rests if it may.
    method RestRemainder(book: OrderBook, incoming: Order, ghost order: Order, ghost m: Matched) returns (outcome: Outcome)
      requires book.Valid()
      requires incoming == order.(remaining := m.left)
      requires Narrow(Settle(book.Flat(), order, m).book)
      modifies book.Repr
      ensures book.Valid() && fresh(book.Repr - old(book.Repr))
      ensures Result(book.Flat(), m.trades, outcome) == Settle(old(book.Flat()), order, m)
    {
      outcome := Done;
      if incoming.remaining > 0 && MayRest(incoming) {
        QuantityAtInsert(incoming, book.Flat().Queue(incoming.side), incoming.price);
        if book.Contains(incoming.id) {
          return DuplicateId;
        }
        var added := book.AddOrder(incoming);
      }
    }

    // Nothing happens to an unknown id; a zero quantity throws before the book is touched.
    method ReplaceOrder(book: OrderBook, id: OrderId, price: Price, quantity: Quantity, timestamp: Timestamp)
      returns (replaced: bool, trades: seq<Trade>, outcome: Outcome)
      requires book.Valid()
      requires Narrow(Replace(book.Flat(), id, price, quantity, timestamp).book)
      modifies book.Repr
      ensures book.Valid() && fresh(book.Repr - old(book.Repr))
      ensures Result(book.Flat(), trades, outcome) == Replace(old(book.Flat()), id, price, quantity, timestamp)
      ensures replaced <==> quantity > 0 && id in old(book.Flat().ById()) && outcome == Done
    {
      if quantity == 0 {
        return false, [], ZeroQuantity;
      }
      var existing := book.ExtractOrder(id);
      if existing.None? {
        return false, [], Done;
      }
      var replacement := existing.value.(price := price, initial := quantity, remaining := quantity, timestamp := timestamp);
      trades, outcome := ProcessOrder(book, replacement);
      replaced := outcome == Done;
    }
  }
}
