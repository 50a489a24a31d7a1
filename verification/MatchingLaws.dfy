/** Laws of one command against a whole book, and of every run of commands. */
module MatchingLaws {
  import opened ExchangeTypes
  import opened PriceTime
  import opened SweepLaws
  import opened BookLaws

  // ---- One command: the id index --------------------------------------------------------

  lemma {:induction false} CancelRemovesExactly(b: Book, id: OrderId)
    requires Coherent(b)
    ensures Coherent(Cancel(b, id))
    ensures Cancel(b, id).ById() == b.ById() - {id}
    ensures Uncrossed(b) ==> Uncrossed(Cancel(b, id))
  {
    hide SideOk, Remove, Index;
    if id in b.ById() {
      LocateId(b, id);
      var side := b.ById()[id].side;
      RemoveKeepsSideOk(id, side, b.Queue(side));
    }
  }

  // The swept book, before the remainder rests.
  lemma {:induction false} SweepOnBook(b: Book, o: Order)
    requires Coherent(b)
    ensures var m := Sweep(o, b.Queue(o.side.Opposite()));
      var swept := b.With(o.side.Opposite(), m.rest);
      && Coherent(swept)
      && swept.ById() == ConsumeAll(b.ById(), m.trades, o.side)
      && TradesFit(b.ById(), m.trades, o)
  {
    hide Sweep, SideOk, Index, ConsumeAll, TradesFit;
    var opposite := o.side.Opposite();
    var queue := b.Queue(opposite);
    var own := Index(b.Queue(o.side));
    SweepKeepsSideOk(o, queue);
    SweepOnIndex(o, queue, own);
    assert b.ById() == Index(queue) + own;
    var swept := b.With(opposite, Sweep(o, queue).rest);
    assert swept.ById() == Index(Sweep(o, queue).rest) + own;
  }

  lemma {:induction false} RestKeepsCoherence(b: Book, o: Order)
    requires Coherent(b) && Resting(o.side, o) && o.id !in b.ById()
    ensures var b' := b.With(o.side, Insert(o, b.Queue(o.side)));
      Coherent(b') && b'.ById() == b.ById()[o.id := o]
  {
    hide SideOk, Insert, Index;
    InsertKeepsSideOk(o, b.Queue(o.side));
  }

  // The order that rests after a command, if it does.
  function Remainder(b: Book, incoming: Order): Option<Order> {
    var m := Sweep(incoming, b.Queue(incoming.side.Opposite()));
    if !MayRest(incoming) || m.left == 0 || incoming.id in ConsumeAll(b.ById(), m.trades, incoming.side) then None
    else Some(incoming.(remaining := m.left))
  }

  lemma {:induction false} SettleOnIndex(swept: Book, o: Order, m: Matched)
    requires Coherent(swept)
    ensures var r := Settle(swept, o, m);
      && Coherent(r.book)
      && r.trades == m.trades
      && r.book.ById() ==
         (if !MayRest(o) || m.left == 0 || o.id in swept.ById() then swept.ById()
          else swept.ById()[o.id := o.(remaining := m.left)])
      && (o.id !in swept.ById() ==> r.outcome == Done)
  {
    hide SideOk, Insert, Index;
    if m.left > 0 && MayRest(o) && o.id !in swept.ById() {
      RestKeepsCoherence(swept, o.(remaining := m.left));
    }
  }

  /**
   What a new order does to the identifiers at rest: the resting orders it trades with shrink
   or leave, its own remainder appears, and nothing else changes.
   */
  lemma {:induction false} ProcessOnIndex(b: Book, incoming: Order)
    requires Coherent(b)
    ensures var r := Process(b, incoming);
      && Coherent(r.book)
      && TradesFit(b.ById(), r.trades, incoming)
      && r.book.ById() ==
         (match Remainder(b, incoming)
          case None => ConsumeAll(b.ById(), r.trades, incoming.side)
          case Some(o) => ConsumeAll(b.ById(), r.trades, incoming.side)[incoming.id := o])
      && (incoming.id !in b.ById() && incoming.remaining > 0 ==> r.outcome == Done)
  {
    hide SideOk, Sweep, Insert, Index, ConsumeAll, TradesFit, Available;
    ProcessNormalizedOnIndex(b, Normalized(incoming));
    NormalizedFitsAlike(b.ById(), Process(b, incoming).trades, incoming);
  }

  lemma {:induction false} ProcessNormalizedOnIndex(b: Book, o: Order)
    requires Coherent(b) && Normalized(o) == o
    ensures var r := Process(b, o);
      && Coherent(r.book)
      && TradesFit(b.ById(), r.trades, o)
      && r.book.ById() ==
         (match Remainder(b, o)
          case None => ConsumeAll(b.ById(), r.trades, o.side)
          case Some(rested) => ConsumeAll(b.ById(), r.trades, o.side)[o.id := rested])
      && (o.id !in b.ById() && o.remaining > 0 ==> r.outcome == Done)
  {
    hide SideOk, Insert, Index, Available;
    var queue := b.Queue(o.side.Opposite());
    var m := Sweep(o, queue);
    if o.remaining > 0 && !(o.tif.FillOrKill? && Available(o, queue) < o.remaining) {
      SweepOnBook(b, o);
      SettleOnIndex(b.With(o.side.Opposite(), m.rest), o, m);
      ConsumeAllShrinks(b.ById(), m.trades, o.side);
    }
  }

  lemma {:induction false} NormalizedFitsAlike(index: map<OrderId, Order>, trades: seq<Trade>, o: Order)
    ensures TradesFit(index, trades, o) == TradesFit(index, trades, Normalized(o))
    decreases |trades|
  {
    if trades != [] {
      NormalizedFitsAlike(Consume(index, RestingId(trades[0], o.side), trades[0].quantity), trades[1..], o);
    }
  }

  lemma {:induction false} ConsumeAllShrinks(index: map<OrderId, Order>, trades: seq<Trade>, incoming: Side)
    ensures ConsumeAll(index, trades, incoming).Keys <= index.Keys
    ensures forall id :: id in ConsumeAll(index, trades, incoming) ==>
      ConsumeAll(index, trades, incoming)[id] == index[id].(remaining := ConsumeAll(index, trades, incoming)[id].remaining)
    decreases |trades|
  {
    if trades != [] {
      ConsumeAllShrinks(Consume(index, RestingId(trades[0], incoming), trades[0].quantity), trades[1..], incoming);
    }
  }

  // ---- One command: well-formedness ------------------------------------------------------

  /** No command leaves the book crossed: what rests has exhausted the orders it crosses. */
  lemma {:induction false} ProcessKeepsWellFormed(b: Book, incoming: Order)
    requires WellFormed(b)
    ensures WellFormed(Process(b, incoming).book)
  {
    hide Sweep, SideOk, Insert, Index, Available, ConsumeAll, TradesFit, Remainder;
    ProcessOnIndex(b, incoming);
    var o := Normalized(incoming);
    var queue := b.Queue(o.side.Opposite());
    SweepKeepsSideOk(o, queue);
    SweepStops(o, queue);
    InsertHead(o.(remaining := Sweep(o, queue).left), b.Queue(o.side));
  }

  lemma InsertHead(o: Order, queue: seq<Order>)
    ensures Insert(o, queue) != []
    ensures Insert(o, queue)[0] == if queue == [] || Outranks(o.side, o.price, queue[0].price) then o else queue[0]
  {
  }

  lemma {:induction false} ReplaceKeepsWellFormed(b: Book, id: OrderId, price: Price, quantity: Quantity, timestamp: Timestamp)
    requires WellFormed(b)
    ensures WellFormed(Replace(b, id, price, quantity, timestamp).book)
  {
    if quantity > 0 && id in b.ById() {
      CancelRemovesExactly(b, id);
      ProcessKeepsWellFormed(Cancel(b, id), Replacement(b.ById()[id], price, quantity, timestamp));
    }
  }

  datatype Command =
    | New(order: Order)
    | Withdraw(id: OrderId)
    | Amend(id: OrderId, price: Price, quantity: Quantity, timestamp: Timestamp)

  function Execute(b: Book, c: Command): Book {
    match c
    case New(order) => Process(b, order).book
    case Withdraw(id) => Cancel(b, id)
    case Amend(id, price, quantity, timestamp) => Replace(b, id, price, quantity, timestamp).book
  }

  function ExecuteAll(b: Book, commands: seq<Command>): Book
    decreases |commands|
  {
    if commands == [] then b else ExecuteAll(Execute(b, commands[0]), commands[1..])
  }

  /**
   From any well-formed book, and so from the empty one, every run of commands keeps both sides
   sorted, every id unique, every resting order a positive good-till-cancel limit, and the best
   bid strictly below the best ask.
   */
  lemma {:induction false} CommandsKeepWellFormed(b: Book, commands: seq<Command>)
    requires WellFormed(b)
    ensures WellFormed(ExecuteAll(b, commands))
    decreases |commands|
  {
    if commands != [] {
      match commands[0] {
        case New(order) => ProcessKeepsWellFormed(b, order);
        case Withdraw(id) => CancelRemovesExactly(b, id);
        case Amend(id, price, quantity, timestamp) => ReplaceKeepsWellFormed(b, id, price, quantity, timestamp);
      }
      CommandsKeepWellFormed(Execute(b, commands[0]), commands[1..]);
    }
  }

  // ---- Conservation and fill-or-kill -----------------------------------------------------

  lemma {:induction false} TotalInsert(o: Order, queue: seq<Order>)
    ensures Total(Insert(o, queue)) == o.remaining + Total(queue)
  {
    if queue == [] || Outranks(o.side, o.price, queue[0].price) {
      assert ([o] + queue)[1..] == queue;
    } else {
      TotalInsert(o, queue[1..]);
      assert ([queue[0]] + Insert(o, queue[1..]))[1..] == Insert(o, queue[1..]);
    }
  }

  /**
   Incoming quantity = traded + rested + discarded, where something is discarded only if the
   order may not rest (or matching was refused), and the opposite side loses what was traded.
   */
  lemma {:induction false} ProcessConserves(b: Book, o: Order)
    requires Process(b, o).outcome == Done
    ensures var r := Process(b, o);
      var rested := Total(r.book.Queue(o.side)) - Total(b.Queue(o.side));
      && Traded(r.trades) <= o.remaining
      && rested == (if MayRest(o) then o.remaining - Traded(r.trades) else 0)
      && Total(b.Queue(o.side.Opposite())) - Total(r.book.Queue(o.side.Opposite())) == Traded(r.trades)
  {
    hide Sweep, Insert, Available, Index, Total;
    var n := Normalized(o);
    var m := Sweep(n, b.Queue(o.side.Opposite()));
    SweepConserves(n, b.Queue(o.side.Opposite()));
    TotalInsert(n.(remaining := m.left), b.Queue(o.side));
  }

  /**
   Fill-or-kill is all or nothing: the order trades its whole quantity exactly when the crossing
   side holds that much, and otherwise neither trades nor changes the book.
   */
  lemma {:induction false} FillOrKillIsAllOrNothing(b: Book, o: Order)
    requires o.tif.FillOrKill? && o.remaining > 0
    ensures var r := Process(b, o);
      var fillable := Available(o, b.Queue(o.side.Opposite())) >= o.remaining;
      && r.outcome == Done
      && (fillable <==> Traded(r.trades) == o.remaining)
      && (!fillable <==> r == Result(b, [], Done))
      && r.book.Queue(o.side) == b.Queue(o.side)
  {
    hide Sweep, Available, Insert, Index, Total;
    SweepConserves(o, b.Queue(o.side.Opposite()));
    SweepLeaves(o, b.Queue(o.side.Opposite()));
  }

  // ---- Time priority -----------------------------------------------------------------------

  // Orders on both queues, other than the exception, stand in the same order on both.
  ghost predicate KeepsOrder(before: seq<Order>, after: seq<Order>, exception: OrderId) {
    forall i, j, x, y ::
      && 0 <= i < |before| && 0 <= j < |before| && 0 <= x < y < |after|
      && before[i].id == after[x].id && before[j].id == after[y].id
      && before[i].id != exception && before[j].id != exception
      ==> i < j
  }

  lemma {:induction false} InsertKeepsOrder(o: Order, queue: seq<Order>)
    requires SideOk(o.side, queue)
    ensures KeepsOrder(queue, Insert(o, queue), o.id)
  {
    var k := InsertJoinsItsTail(o, queue);
    var after := Insert(o, queue);
    SideOkMeans(o.side, queue);
    forall i, j, x, y |
      && 0 <= i < |queue| && 0 <= j < |queue| && 0 <= x < y < |after|
      && queue[i].id == after[x].id && queue[j].id == after[y].id
      && queue[i].id != o.id && queue[j].id != o.id
      ensures i < j
    {
      assert after[x] == if x < k then queue[x] else if x == k then o else queue[x - 1];
      assert after[y] == if y < k then queue[y] else if y == k then o else queue[y - 1];
    }
  }

  lemma {:induction false} ShrunkKeepsOrder(rest: seq<Order>, queue: seq<Order>, exception: OrderId)
    requires DistinctIds(queue) && Shrunk(rest, queue)
    ensures KeepsOrder(queue, rest, exception)
  {
    var d := |queue| - |rest|;
    forall i, j, x, y |
      && 0 <= i < |queue| && 0 <= j < |queue| && 0 <= x < y < |rest|
      && queue[i].id == rest[x].id && queue[j].id == rest[y].id
      ensures i < j
    {
      assert rest[x].id == queue[d + x].id && rest[y].id == queue[d + y].id;
      assert i == d + x && j == d + y;
    }
  }

  lemma {:induction false} SweepKeepsOrder(o: Order, queue: seq<Order>, exception: OrderId)
    requires SideOk(o.side.Opposite(), queue)
    ensures KeepsOrder(queue, Sweep(o, queue).rest, exception)
    ensures KeepsOrder(queue, queue, exception)
  {
    SideOkMeans(o.side.Opposite(), queue);
    SweepShrinks(o, queue);
    ShrunkKeepsOrder(Sweep(o, queue).rest, queue, exception);
    ShrunkKeepsOrder(queue, queue, exception);
  }

  // Where the two queues of the processed book come from.
  lemma {:induction false} ProcessQueues(b: Book, o: Order)
    ensures var n := Normalized(o);
      var m := Sweep(n, b.Queue(o.side.Opposite()));
      var after := Process(b, o).book;
      && after.Queue(o.side) in {b.Queue(o.side), Insert(n.(remaining := m.left), b.Queue(o.side))}
      && after.Queue(o.side.Opposite()) in {b.Queue(o.side.Opposite()), m.rest}
  {
  }

  /** Survivors keep their place relative to each other on both sides. */
  lemma {:induction false} ProcessKeepsTimePriority(b: Book, o: Order, side: Side)
    requires Coherent(b)
    ensures KeepsOrder(b.Queue(side), Process(b, o).book.Queue(side), o.id)
  {
    hide Process, Sweep, Insert, SideOk, KeepsOrder;
    var n := Normalized(o);
    ProcessQueues(b, o);
    if side == o.side {
      SweepKeepsOrder(n.(side := o.side.Opposite()), b.Queue(side), o.id);
      InsertKeepsOrder(n.(remaining := Sweep(n, b.Queue(o.side.Opposite())).left), b.Queue(side));
    } else {
      SweepKeepsOrder(n, b.Queue(side), o.id);
    }
  }

  /** A replaced order that rests stands behind every order at its new price or better. */
  lemma {:induction false} ReplacementGoesToTheTail(b: Book, id: OrderId, price: Price, quantity: Quantity, timestamp: Timestamp)
    returns (k: nat)
    requires Coherent(b) && id in b.ById() && quantity > 0
    requires id in Replace(b, id, price, quantity, timestamp).book.ById()
    ensures var side := b.ById()[id].side;
      var queue := Replace(b, id, price, quantity, timestamp).book.Queue(side);
      && k < |queue| && queue[k].id == id && queue[k].price == price
      && 0 < queue[k].remaining <= quantity && queue[k].timestamp == timestamp
      && forall i :: k < i < |queue| ==> Outranks(side, price, queue[i].price)
  {
    hide Process, SideOk, Index, Remove;
    LocateId(b, id);
    CancelRemovesExactly(b, id);
    k := RestedAtTheTail(Cancel(b, id), Replacement(b.ById()[id], price, quantity, timestamp));
  }

  lemma {:induction false} RestedAtTheTail(b: Book, o: Order) returns (k: nat)
    requires Coherent(b) && o.id !in b.ById() && MayRest(o) && o.remaining > 0
    requires o.id in Process(b, o).book.ById()
    ensures var queue := Process(b, o).book.Queue(o.side);
      && k < |queue| && queue[k] == o.(remaining := queue[k].remaining)
      && 0 < queue[k].remaining <= o.remaining
      && forall i :: k < i < |queue| ==> Outranks(o.side, o.price, queue[i].price)
  {
    hide Sweep, Index, Insert, ConsumeAll, TradesFit, SideOk, Available, Traded, Total;
    ProcessOnIndex(b, o);
    var m := Sweep(o, b.Queue(o.side.Opposite()));
    ConsumeAllShrinks(b.ById(), m.trades, o.side);
    SweepConserves(o, b.Queue(o.side.Opposite()));
    k := InsertJoinsItsTail(o.(remaining := m.left), b.Queue(o.side));
  }
}
