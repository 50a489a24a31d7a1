/**
 The meaning of the order book, without its data structures: each side is one flat queue of
 resting orders in priority order, and matching greedily consumes the front of the opposite
 queue. The classes OrderBook and MatchingEngine are proved against these functions.
 */
module PriceTime {
  import opened ExchangeTypes

  datatype Book = Book(bids: seq<Order>, asks: seq<Order>) {
    function Queue(side: Side): seq<Order> {
      if side.Buy? then bids else asks
    }

    function With(side: Side, queue: seq<Order>): Book {
      if side.Buy? then this.(bids := queue) else this.(asks := queue)
    }

    // The identifier index: which order, if any, rests under an id.
    function ById(): map<OrderId, Order> {
      Index(bids) + Index(asks)
    }
  }

  const EMPTY_BOOK := Book([], [])

  function Index(queue: seq<Order>): map<OrderId, Order> {
    if queue == [] then map[] else Index(queue[1..])[queue[0].id := queue[0]]
  }

  // p is a strictly better price than q for an order resting on this side.
  predicate Outranks(side: Side, p: Price, q: Price) {
    if side.Buy? then p > q else p < q
  }

  predicate Crosses(incoming: Order, resting: Order) {
    || incoming.kind.Market?
    || (if incoming.side.Buy? then incoming.price >= resting.price else incoming.price <= resting.price)
  }

  predicate MayRest(o: Order) {
    o.kind.Limit? && o.tif.GoodTillCancel?
  }

  function Execution(incoming: Order, resting: Order, quantity: Quantity): Trade {
    if incoming.side.Buy?
    then Trade(incoming.id, resting.id, resting.price, quantity, incoming.timestamp)
    else Trade(resting.id, incoming.id, resting.price, quantity, incoming.timestamp)
  }

  datatype Matched = Matched(trades: seq<Trade>, rest: seq<Order>, left: Quantity)

  // Consume the opposite queue from its front while the incoming order crosses.
  function Sweep(o: Order, queue: seq<Order>): Matched
    decreases |queue|
  {
    if o.remaining == 0 || queue == [] || !Crosses(o, queue[0]) then
      Matched([], queue, o.remaining)
    else if o.remaining < queue[0].remaining then
      Matched(
        [Execution(o, queue[0], o.remaining)],
        [queue[0].(remaining := queue[0].remaining - o.remaining)] + queue[1..],
        0)
    else
      var m := Sweep(o.(remaining := o.remaining - queue[0].remaining), queue[1..]);
      m.(trades := [Execution(o, queue[0], queue[0].remaining)] + m.trades)
  }

  // Join the queue behind every order whose price is at least as good.
  function Insert(o: Order, queue: seq<Order>): seq<Order> {
    if queue == [] || Outranks(o.side, o.price, queue[0].price)
    then [o] + queue
    else [queue[0]] + Insert(o, queue[1..])
  }

  function Remove(id: OrderId, queue: seq<Order>): seq<Order> {
    if queue == [] then []
    else if queue[0].id == id then queue[1..]
    else [queue[0]] + Remove(id, queue[1..])
  }

  // The quantity resting at prices the incoming order crosses.
  function Available(o: Order, queue: seq<Order>): nat {
    if queue == [] || !Crosses(o, queue[0]) then 0
    else queue[0].remaining + Available(o, queue[1..])
  }

  // A market order never rests: one that arrives good-till-cancel is immediate-or-cancel.
  function Normalized(o: Order): Order {
    if o.kind.Market? && o.tif.GoodTillCancel? then o.(tif := ImmediateOrCancel) else o
  }

  // Done is a normal return; the others are the exceptions the source throws.
  datatype Outcome = Done | ZeroQuantity | DuplicateId

  datatype Result = Result(book: Book, trades: seq<Trade>, outcome: Outcome)

  // What matching could not fill rests, if the order may rest and its id is free.
  function Settle(swept: Book, o: Order, m: Matched): Result {
    if m.left == 0 || !MayRest(o) then
      Result(swept, m.trades, Done)
    else if o.id in swept.ById() then
      Result(swept, m.trades, DuplicateId)
    else
      Result(swept.With(o.side, Insert(o.(remaining := m.left), swept.Queue(o.side))), m.trades, Done)
  }

  function Process(b: Book, incoming: Order): Result {
    var o := Normalized(incoming);
    var queue := b.Queue(o.side.Opposite());
    if o.remaining == 0 then
      Result(b, [], ZeroQuantity)
    else if o.tif.FillOrKill? && Available(o, queue) < o.remaining then
      Result(b, [], Done)
    else
      var m := Sweep(o, queue);
      Settle(b.With(o.side.Opposite(), m.rest), o, m)
  }

  function Cancel(b: Book, id: OrderId): Book {
    if id !in b.ById() then b
    else
      var side := b.ById()[id].side;
      b.With(side, Remove(id, b.Queue(side)))
  }

  function Replacement(resting: Order, price: Price, quantity: Quantity, timestamp: Timestamp): Order {
    resting.(price := price, initial := quantity, remaining := quantity, timestamp := timestamp)
  }

  function Replace(b: Book, id: OrderId, price: Price, quantity: Quantity, timestamp: Timestamp): Result {
    if quantity == 0 then Result(b, [], ZeroQuantity)
    else if id !in b.ById() then Result(b, [], Done)
    else Process(Cancel(b, id), Replacement(b.ById()[id], price, quantity, timestamp))
  }

  // ---- Well-formed books -------------------------------------------------------------

  predicate Resting(side: Side, o: Order) {
    o.side == side && MayRest(o) && o.remaining > 0
  }

  ghost predicate Sorted(side: Side, queue: seq<Order>) {
    forall i, j :: 0 <= i < j < |queue| ==> !Outranks(side, queue[j].price, queue[i].price)
  }

  ghost predicate DistinctIds(queue: seq<Order>) {
    forall i, j :: 0 <= i < j < |queue| ==> queue[i].id != queue[j].id
  }

  // Read from the front; BookLaws.SideOkMeans spells it out over all positions.
  predicate SideOk(side: Side, queue: seq<Order>) {
    queue == [] ||
    (&& Resting(side, queue[0])
     && queue[0].id !in Index(queue[1..])
     && (|queue| > 1 ==> !Outranks(side, queue[1].price, queue[0].price))
     && SideOk(side, queue[1..]))
  }

  // Every order on one side has an id not used on the other.
  predicate DisjointIds(b: Book) {
    Index(b.bids).Keys !! Index(b.asks).Keys
  }

  predicate Uncrossed(b: Book) {
    b.bids != [] && b.asks != [] ==> b.bids[0].price < b.asks[0].price
  }

  // The book a data structure can hold: sorted, distinctly identified, positive GTC limits.
  predicate Coherent(b: Book) {
    SideOk(Buy, b.bids) && SideOk(Sell, b.asks) && DisjointIds(b)
  }

  predicate WellFormed(b: Book) {
    Coherent(b) && Uncrossed(b)
  }

  // ---- Totals -------------------------------------------------------------------------

  function Total(queue: seq<Order>): nat {
    if queue == [] then 0 else queue[0].remaining + Total(queue[1..])
  }

  function Traded(trades: seq<Trade>): nat {
    if trades == [] then 0 else trades[0].quantity + Traded(trades[1..])
  }

  function QuantityAt(queue: seq<Order>, price: Price): nat {
    if queue == [] then 0
    else (if queue[0].price == price then queue[0].remaining else 0) + QuantityAt(queue[1..], price)
  }

  // The best price of a side and the quantity resting there.
  function TopOf(queue: seq<Order>): Option<(Price, Quantity)> {
    if queue == [] then None else Some((queue[0].price, QuantityAt(queue, queue[0].price)))
  }

  // The quantities at each single price fit the 32-bit cached total of a price level.
  ghost predicate Narrow(b: Book) {
    && (forall p: Price :: QuantityAt(b.bids, p) < QUANTITY_RANGE)
    && (forall p: Price :: QuantityAt(b.asks, p) < QUANTITY_RANGE)
  }
}
