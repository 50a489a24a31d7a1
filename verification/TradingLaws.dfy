/**
 What an order put to a book must come to, told by the prices, quantities and places of the orders
 at rest, and that this leaves exactly one result: the one that is computed.
 */
module TradingLaws {
  import opened ExchangeTypes
  import opened PriceTime
  import opened SweepLaws
  import opened BookLaws
  import opened MatchingLaws

  // The side an order trades with, and the side it may come to rest on.
  function Facing(b: Book, side: Side): seq<Order> {
    match side case Buy => b.asks case Sell => b.bids
  }

  function Own(b: Book, side: Side): seq<Order> {
    match side case Buy => b.bids case Sell => b.asks
  }

  // All that rests at prices the order may trade at, wherever it stands.
  function Reachable(o: Order, queue: seq<Order>): nat {
    if queue == [] then 0
    else (if Accepts(o, queue[0].price) then queue[0].remaining else 0) + Reachable(o, queue[1..])
  }

  ghost predicate Holds(queue: seq<Order>, id: OrderId) {
    exists i :: 0 <= i < |queue| && queue[i].id == id
  }

  // The order has joined the queue: behind all at its price or better, ahead of all at worse ones.
  ghost predicate Joined(before: seq<Order>, o: Order, after: seq<Order>) {
    exists k :: 0 <= k <= |before| && StandsAt(before, o, after, k)
  }

  ghost predicate StandsAt(before: seq<Order>, o: Order, after: seq<Order>, k: nat)
    requires k <= |before|
  {
    && after == before[..k] + [o] + before[k..]
    && (forall i :: 0 <= i < k ==> !Worse(o.side, before[i].price, o.price))
    && (forall i :: k <= i < |before| ==> Worse(o.side, before[i].price, o.price))
  }

  predicate Worse(side: Side, p: Price, q: Price) {
    match side case Buy => p < q case Sell => p > q
  }

  // What is left of the order after its trades, as it would rest.
  function LeftOver(o: Order, left: Quantity): Order {
    Order(o.id, o.side, Limit, GoodTillCancel, o.price, o.initial, left, o.timestamp)
  }

  // What becomes of the quantity that found no counterparty.
  ghost predicate RestsRightly(b: Book, o: Order, left: Quantity, r: Result) {
    var own := Own(b, o.side);
    if left == 0 || o.kind.Market? || !o.tif.GoodTillCancel? then
      r.outcome == Done && Own(r.book, o.side) == own
    else if Holds(own, o.id) || Holds(Facing(r.book, o.side), o.id) then
      r.outcome == DuplicateId && Own(r.book, o.side) == own
    else
      r.outcome == Done && Joined(own, LeftOver(o, left), Own(r.book, o.side))
  }

  /**
   An order without a quantity is refused, and a fill-or-kill order of more than it can reach does
   nothing. Any other trades in price-time priority, and what is left of a good-till-cancel limit
   order joins its side.
   */
  ghost predicate CarriedOut(b: Book, o: Order, r: Result) {
    if o.remaining == 0 then r == Result(b, [], ZeroQuantity)
    else if o.tif.FillOrKill? && Reachable(o, Facing(b, o.side)) < o.remaining then r == Result(b, [], Done)
    else
      && Traded(r.trades) <= o.remaining
      && var left := o.remaining - Traded(r.trades);
         && PriceTimePriority(o, Facing(b, o.side), Matched(r.trades, Facing(r.book, o.side), left))
         && RestsRightly(b, o, left, r)
  }

  // ---- Lemmas ---------------------------------------------------------------------------------

  lemma {:induction false} OkIsPositive(side: Side, queue: seq<Order>)
    requires SideOk(side, queue)
    ensures AllPositive(queue)
  {
    SideOkMeans(side, queue);
    forall i | 0 <= i < |queue| ensures queue[i].remaining > 0 {
      assert Resting(side, queue[i]);
    }
  }

  // Behind the first order that does not cross, none does.
  lemma {:induction false} NothingBehind(o: Order, queue: seq<Order>)
    requires SideOk(o.side.Opposite(), queue)
    requires queue != [] && !Accepts(o, queue[0].price)
    ensures Reachable(o, queue) == 0
  {
    if |queue| > 1 {
      NothingBehind(o, queue[1..]);
    }
  }

  lemma {:induction false} AvailableIsReachable(o: Order, queue: seq<Order>)
    requires SideOk(o.side.Opposite(), queue)
    ensures Available(o, queue) == Reachable(o, queue)
  {
    if queue != [] {
      if Accepts(o, queue[0].price) {
        AvailableIsReachable(o, queue[1..]);
      } else {
        NothingBehind(o, queue);
      }
    }
  }

  lemma {:induction false} HoldsIsIndexed(queue: seq<Order>, id: OrderId)
    ensures Holds(queue, id) <==> id in Index(queue)
  {
    if id in Index(queue) {
      var i := IndexSound(queue, id);
    }
    forall i | 0 <= i < |queue| && queue[i].id == id
      ensures id in Index(queue)
    {
      IndexComplete(queue, i);
    }
  }

  lemma SamePlace(o: Order, before: seq<Order>, after: seq<Order>, after': seq<Order>, j: nat, k: nat)
    requires j <= |before| && StandsAt(before, o, after, j)
    requires k <= |before| && StandsAt(before, o, after', k)
    ensures j == k && after == after'
  {
    var first := if j <= k then j else k;
    var between := if first < |before| then before[first] else o;
  }

  // There is one place to join a queue, and insertion finds it.
  lemma {:induction false} InsertIsTheOnlyPlace(o: Order, before: seq<Order>, after: seq<Order>)
    requires SideOk(o.side, before)
    ensures Joined(before, o, after) <==> after == Insert(o, before)
  {
    var k := InsertJoinsItsTail(o, before);
    assert StandsAt(before, o, Insert(o, before), k);
    if Joined(before, o, after) {
      var j :| 0 <= j <= |before| && StandsAt(before, o, after, j);
      SamePlace(o, before, after, Insert(o, before), j, k);
    }
  }

  lemma {:induction false} SettledRightly(b: Book, o: Order, m: Matched, r: Result)
    requires Coherent(b)
    requires r.trades == m.trades && Facing(r.book, o.side) == m.rest && m.left == o.remaining - Traded(m.trades)
    ensures RestsRightly(b, o, m.left, r) <==>
      r == Settle(b.With(o.side.Opposite(), m.rest), Normalized(o), m)
  {
    hide SideOk, Insert, Joined, Holds, Index, Traded;
    HoldsIsIndexed(Own(b, o.side), o.id);
    HoldsIsIndexed(m.rest, o.id);
    var n := Normalized(o);
    var swept := b.With(o.side.Opposite(), m.rest);
    assert o.id in swept.ById() <==> o.id in Index(Own(b, o.side)) || o.id in Index(m.rest);
    if MayRest(n) && m.left > 0 {
      assert n.(remaining := m.left) == LeftOver(o, m.left);
      InsertIsTheOnlyPlace(LeftOver(o, m.left), Own(b, o.side), Own(r.book, o.side));
    }
  }

  lemma {:induction false} PriorityIgnoresTif(o: Order, queue: seq<Order>, m: Matched)
    ensures PriceTimePriority(o, queue, m) <==> PriceTimePriority(Normalized(o), queue, m)
  {
  }

  // Settling leaves the swept side and the trades alone.
  lemma SettleParts(swept: Book, o: Order, m: Matched)
    ensures var r := Settle(swept, o, m);
      r.trades == m.trades && Facing(r.book, o.side) == Facing(swept, o.side)
  {
    hide Insert, Book.ById;
  }

  lemma {:induction false} MatchedRightly(b: Book, o: Order, r: Result)
    requires Coherent(b)
    ensures var n := Normalized(o);
      var m := Sweep(n, Facing(b, o.side));
      r == Settle(b.With(o.side.Opposite(), m.rest), n, m) <==>
        && Traded(r.trades) <= o.remaining
        && var left := o.remaining - Traded(r.trades);
           && PriceTimePriority(o, Facing(b, o.side), Matched(r.trades, Facing(r.book, o.side), left))
           && RestsRightly(b, o, left, r)
  {
    hide PriceTimePriority, RestsRightly, Settle, SideOk, Sweep, Traded, Book.ById, AllPositive;
    var n := Normalized(o);
    var queue := Facing(b, o.side);
    var m := Sweep(n, queue);
    OkIsPositive(o.side.Opposite(), queue);
    SweepConserves(n, queue);
    SettleParts(b.With(o.side.Opposite(), m.rest), n, m);
    if Traded(r.trades) <= o.remaining {
      var m' := Matched(r.trades, Facing(r.book, o.side), o.remaining - Traded(r.trades));
      PriorityIgnoresTif(o, queue, m');
      SweepIsTheOnlyPriorityMatch(n, queue, m');
      if m' == m {
        SettledRightly(b, o, m, r);
      }
    }
  }

  /** Whatever the order and the book, the result is the one carried out rightly, and the only one. */
  lemma {:induction false} OnlyOneWayToCarryOut(b: Book, o: Order, r: Result)
    requires Coherent(b)
    ensures CarriedOut(b, o, r) <==> r == Process(b, o)
  {
    hide PriceTimePriority, RestsRightly, Settle, SideOk, Sweep, Available, Reachable, Traded, Book.ById;
    MatchedRightly(b, o, r);
    AvailableIsReachable(Normalized(o), Facing(b, o.side));
    ReachableIgnoresTif(o, Facing(b, o.side));
  }

  lemma {:induction false} ReachableIgnoresTif(o: Order, queue: seq<Order>)
    ensures Reachable(o, queue) == Reachable(Normalized(o), queue)
  {
    if queue != [] {
      ReachableIgnoresTif(o, queue[1..]);
    }
  }

  // ---- How much is traded -----------------------------------------------------------------------

  /** An order trades all it can: its own quantity or what it can reach, whichever is less. */
  lemma {:induction false} TradesAllItCan(b: Book, o: Order)
    requires Coherent(b)
    ensures var reach := Reachable(o, Facing(b, o.side));
      Traded(Process(b, o).trades) ==
        if o.tif.FillOrKill? && reach < o.remaining then 0 else if reach < o.remaining then reach else o.remaining
  {
    hide PriceTimePriority, Settle, SideOk, Sweep, Available, Reachable, Book.ById;
    var n := Normalized(o);
    var queue := Facing(b, o.side);
    var m := Sweep(n, queue);
    SweepConserves(n, queue);
    SweepLeaves(n, queue);
    AvailableIsReachable(n, queue);
    ReachableIgnoresTif(o, queue);
    SettleParts(b.With(o.side.Opposite(), m.rest), n, m);
  }

  // ---- Cancelling and replacing -------------------------------------------------------------------

  // The queue without an order, the others as they stood.
  function Without(queue: seq<Order>, id: OrderId): seq<Order> {
    if queue == [] then [] else (if queue[0].id == id then [] else [queue[0]]) + Without(queue[1..], id)
  }

  function BookWithout(b: Book, id: OrderId): Book {
    Book(Without(b.bids, id), Without(b.asks, id))
  }

  lemma {:induction false} WithoutNobody(queue: seq<Order>, id: OrderId)
    requires id !in Index(queue)
    ensures Without(queue, id) == queue
  {
    if queue != [] {
      WithoutNobody(queue[1..], id);
    }
  }

  lemma {:induction false} RemoveTakesOne(side: Side, queue: seq<Order>, id: OrderId)
    requires SideOk(side, queue)
    ensures Without(queue, id) == Remove(id, queue)
  {
    if queue != [] {
      if queue[0].id == id {
        WithoutNobody(queue[1..], id);
      } else {
        RemoveTakesOne(side, queue[1..], id);
      }
    }
  }

  /** A cancel takes the order with this id away, if there is one, and leaves the others as they stood. */
  lemma {:induction false} CancelTakesOne(b: Book, id: OrderId)
    requires Coherent(b)
    ensures Cancel(b, id) == BookWithout(b, id)
  {
    hide SideOk, Remove, Without, Index;
    if id in b.ById() {
      LocateId(b, id);
      var side := b.ById()[id].side;
      RemoveTakesOne(side, b.Queue(side), id);
      WithoutNobody(b.Queue(side.Opposite()), id);
    } else {
      WithoutNobody(b.bids, id);
      WithoutNobody(b.asks, id);
    }
  }

  // An order at rest on either side.
  predicate AtRest(b: Book, o: Order) {
    o in b.bids || o in b.asks
  }

  /**
   A replacement of an order at rest is an order on the same side and of the same kind with the new
   price, quantity and time, put to the book without the old one.
   */
  lemma {:induction false} OnlyOneWayToReplace(b: Book, earlier: Order, price: Price, quantity: Quantity, timestamp: Timestamp, r: Result)
    requires Coherent(b) && AtRest(b, earlier) && quantity > 0
    ensures r == Replace(b, earlier.id, price, quantity, timestamp) <==>
      CarriedOut(BookWithout(b, earlier.id),
                 Order(earlier.id, earlier.side, Limit, GoodTillCancel, price, quantity, quantity, timestamp), r)
  {
    hide SideOk, Index, Cancel, Process, CarriedOut, BookWithout;
    FoundById(b, earlier);
    CancelTakesOne(b, earlier.id);
    CancelRemovesExactly(b, earlier.id);
    OnlyOneWayToCarryOut(BookWithout(b, earlier.id),
                         Order(earlier.id, earlier.side, Limit, GoodTillCancel, price, quantity, quantity, timestamp), r);
  }

  lemma {:induction false} FoundById(b: Book, o: Order)
    requires Coherent(b) && AtRest(b, o)
    ensures o.id in b.ById() && b.ById()[o.id] == o && MayRest(o)
  {
    hide Index;
    if o in b.bids {
      var i :| 0 <= i < |b.bids| && b.bids[i] == o;
      IndexHolds(Buy, b.bids, i);
    } else {
      var i :| 0 <= i < |b.asks| && b.asks[i] == o;
      IndexHolds(Sell, b.asks, i);
    }
    LocateId(b, o.id);
  }

  /** A replacement without a quantity is refused, and one of an order that does not rest does nothing. */
  lemma {:induction false} NothingToReplace(b: Book, id: OrderId, price: Price, quantity: Quantity, timestamp: Timestamp)
    requires quantity == 0 || !Holds(b.bids + b.asks, id)
    ensures Replace(b, id, price, quantity, timestamp) == Result(b, [], if quantity == 0 then ZeroQuantity else Done)
  {
    hide Index;
    if quantity > 0 {
      HoldsIsIndexed(b.bids, id);
      HoldsIsIndexed(b.asks, id);
      HoldsEither(b.bids, b.asks, id);
    }
  }

  lemma HoldsEither(xs: seq<Order>, ys: seq<Order>, id: OrderId)
    ensures Holds(xs + ys, id) <==> Holds(xs, id) || Holds(ys, id)
  {
    assert forall i :: 0 <= i < |xs| ==> (xs + ys)[i] == xs[i];
    assert forall i :: 0 <= i < |ys| ==> (xs + ys)[|xs| + i] == ys[i];
  }
}
