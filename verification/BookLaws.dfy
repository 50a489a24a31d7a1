/** Laws of the order book over one command and over every run of commands. */
module BookLaws {
  import opened ExchangeTypes
  import opened PriceTime
  import opened SweepLaws

  // ---- The id index -------------------------------------------------------------------

  lemma {:induction false} IndexSound(queue: seq<Order>, id: OrderId) returns (i: nat)
    requires id in Index(queue)
    ensures i < |queue| && queue[i].id == id && queue[i] == Index(queue)[id]
  {
    if queue[0].id == id {
      i := 0;
    } else {
      var j := IndexSound(queue[1..], id);
      i := j + 1;
    }
  }

  lemma {:induction false} IndexComplete(queue: seq<Order>, i: nat)
    requires i < |queue|
    ensures queue[i].id in Index(queue)
    ensures DistinctIds(queue) ==> Index(queue)[queue[i].id] == queue[i]
  {
    if i > 0 {
      assert queue[1..][i - 1] == queue[i];
      IndexComplete(queue[1..], i - 1);
    }
  }

  // What SideOk says of all positions at once.
  lemma {:induction false} SideOkMeans(side: Side, queue: seq<Order>)
    ensures SideOk(side, queue) <==>
      && Sorted(side, queue)
      && DistinctIds(queue)
      && forall i :: 0 <= i < |queue| ==> Resting(side, queue[i])
  {
    if queue != [] {
      var tail := queue[1..];
      SideOkMeans(side, tail);
      if SideOk(side, queue) {
        forall i, j | 0 <= i < j < |queue|
          ensures !Outranks(side, queue[j].price, queue[i].price) && queue[i].id != queue[j].id
        {
          IndexComplete(tail, j - 1);
          if i > 0 {
            assert !Outranks(side, tail[j - 1].price, tail[i - 1].price) && tail[i - 1].id != tail[j - 1].id;
          } else if j > 1 {
            assert !Outranks(side, tail[j - 1].price, tail[0].price);
          }
        }
        forall i | 0 <= i < |queue| ensures Resting(side, queue[i]) {
          if i > 0 { assert Resting(side, tail[i - 1]); }
        }
      }
      if Sorted(side, queue) && DistinctIds(queue) && forall i :: 0 <= i < |queue| ==> Resting(side, queue[i]) {
        assert forall i :: 0 <= i < |tail| ==> tail[i] == queue[i + 1];
        if queue[0].id in Index(tail) {
          var j := IndexSound(tail, queue[0].id);
          assert false;
        }
      }
    }
  }

  lemma {:induction false} IndexRests(side: Side, queue: seq<Order>, id: OrderId)
    requires SideOk(side, queue) && id in Index(queue)
    ensures Index(queue)[id].id == id && Resting(side, Index(queue)[id]) && Index(queue)[id] in queue
  {
    if queue[0].id != id {
      IndexRests(side, queue[1..], id);
    }
  }

  lemma {:induction false} IndexHolds(side: Side, queue: seq<Order>, i: nat)
    requires SideOk(side, queue) && i < |queue|
    ensures queue[i].id in Index(queue) && Index(queue)[queue[i].id] == queue[i]
  {
    if i > 0 {
      assert queue[1..][i - 1] == queue[i];
      IndexHolds(side, queue[1..], i - 1);
    }
  }

  // In a coherent book the index is a bijection with the resting orders, side by side.
  lemma {:induction false} ByIdIsBijective(b: Book)
    requires Coherent(b)
    ensures forall id :: id in b.ById() ==>
      && b.ById()[id].id == id
      && b.ById()[id] in b.Queue(b.ById()[id].side)
      && Resting(b.ById()[id].side, b.ById()[id])
    ensures forall side, i :: 0 <= i < |b.Queue(side)| ==>
      && b.Queue(side)[i].id in b.ById()
      && b.ById()[b.Queue(side)[i].id] == b.Queue(side)[i]
  {
    forall id | id in b.ById()
      ensures b.ById()[id].id == id && b.ById()[id] in b.Queue(b.ById()[id].side)
      ensures Resting(b.ById()[id].side, b.ById()[id])
    {
      LocateId(b, id);
    }
    forall side, i | 0 <= i < |b.Queue(side)|
      ensures b.Queue(side)[i].id in b.ById() && b.ById()[b.Queue(side)[i].id] == b.Queue(side)[i]
    {
      IndexHolds(side, b.Queue(side), i);
    }
  }

  // An id at rest is on the side its order says, and only there.
  lemma {:induction false} LocateId(b: Book, id: OrderId)
    requires Coherent(b) && id in b.ById()
    ensures var o := b.ById()[id];
      && o.id == id && o in b.Queue(o.side) && Resting(o.side, o)
      && id in Index(b.Queue(o.side)) && Index(b.Queue(o.side))[id] == o
      && id !in Index(b.Queue(o.side.Opposite()))
  {
    if id in Index(b.asks) {
      IndexRests(Sell, b.asks, id);
    } else {
      IndexRests(Buy, b.bids, id);
    }
  }

  // ---- Queue operations ----------------------------------------------------------------

  /**
   An order joins behind every order at its price or better and ahead of every worse one;
   nobody else moves.
   */
  lemma {:induction false} InsertJoinsItsTail(o: Order, queue: seq<Order>) returns (k: nat)
    requires SideOk(o.side, queue)
    ensures k <= |queue| && Insert(o, queue) == queue[..k] + [o] + queue[k..]
    ensures forall i :: 0 <= i < k ==> !Outranks(o.side, o.price, queue[i].price)
    ensures forall i :: k <= i < |queue| ==> Outranks(o.side, o.price, queue[i].price)
  {
    if queue == [] || Outranks(o.side, o.price, queue[0].price) {
      k := 0;
      SideOkMeans(o.side, queue);
    } else {
      var j := InsertJoinsItsTail(o, queue[1..]);
      k := j + 1;
      assert queue[..k] + [o] + queue[k..] == [queue[0]] + (queue[1..][..j] + [o] + queue[1..][j..]);
      assert forall i :: 0 < i < |queue| ==> queue[i] == queue[1..][i - 1];
    }
  }

  lemma {:induction false} InsertKeepsSideOk(o: Order, queue: seq<Order>)
    requires SideOk(o.side, queue) && Resting(o.side, o)
    requires o.id !in Index(queue)
    ensures SideOk(o.side, Insert(o, queue))
    ensures Index(Insert(o, queue)) == Index(queue)[o.id := o]
  {
    if queue == [] || Outranks(o.side, o.price, queue[0].price) {
      assert ([o] + queue)[1..] == queue;
    } else {
      InsertKeepsSideOk(o, queue[1..]);
      assert ([queue[0]] + Insert(o, queue[1..]))[1..] == Insert(o, queue[1..]);
    }
  }

  lemma {:induction false} RemoveSplits(id: OrderId, queue: seq<Order>) returns (k: nat)
    requires id in Index(queue)
    ensures k < |queue| && queue[k].id == id && Remove(id, queue) == queue[..k] + queue[k + 1..]
  {
    if queue[0].id == id {
      k := 0;
    } else {
      var j := RemoveSplits(id, queue[1..]);
      k := j + 1;
      assert queue[..k] + queue[k + 1..] == [queue[0]] + (queue[1..][..j] + queue[1..][j + 1..]);
    }
  }

  lemma {:induction false} RemoveKeepsSideOk(id: OrderId, side: Side, queue: seq<Order>)
    requires SideOk(side, queue) && id in Index(queue)
    ensures SideOk(side, Remove(id, queue))
    ensures Index(Remove(id, queue)) == Index(queue) - {id}
    ensures Remove(id, queue) != [] ==> !Outranks(side, Remove(id, queue)[0].price, queue[0].price)
  {
    if queue[0].id == id {
    } else {
      RemoveKeepsSideOk(id, side, queue[1..]);
      assert ([queue[0]] + Remove(id, queue[1..]))[1..] == Remove(id, queue[1..]);
    }
  }

  // ---- Trades seen from the id index ---------------------------------------------------

  function RestingId(t: Trade, incoming: Side): OrderId {
    if incoming.Buy? then t.sellId else t.buyId
  }

  // One execution against the index: the resting order shrinks, and leaves when used up.
  function Consume(index: map<OrderId, Order>, id: OrderId, quantity: Quantity): map<OrderId, Order> {
    if id !in index then index
    else if index[id].remaining <= quantity then index - {id}
    else index[id := index[id].(remaining := index[id].remaining - quantity)]
  }

  function ConsumeAll(index: map<OrderId, Order>, trades: seq<Trade>, incoming: Side): map<OrderId, Order> {
    if trades == [] then index
    else ConsumeAll(Consume(index, RestingId(trades[0], incoming), trades[0].quantity), trades[1..], incoming)
  }

  /** Every trade names an order resting at that moment, with at least the traded quantity. */
  ghost predicate TradesFit(index: map<OrderId, Order>, trades: seq<Trade>, o: Order) {
    trades == [] ||
    (var t := trades[0];
     var id := RestingId(t, o.side);
     && id in index
     && index[id].side == o.side.Opposite()
     && 0 < t.quantity <= index[id].remaining
     && t == Execution(o, index[id], t.quantity)
     && TradesFit(Consume(index, id, t.quantity), trades[1..], o))
  }

  // A suffix of the queue, at most its orders smaller than before (in fact only its first).
  ghost predicate Shrunk(rest: seq<Order>, queue: seq<Order>) {
    && |rest| <= |queue|
    && forall i :: 0 <= i < |rest| ==>
         && rest[i].remaining > 0
         && rest[i] == queue[|queue| - |rest| + i].(remaining := rest[i].remaining)
  }

  lemma {:induction false} SweepShrinks(o: Order, queue: seq<Order>)
    requires AllPositive(queue)
    ensures Shrunk(Sweep(o, queue).rest, queue)
    decreases |queue|
  {
    hide Shrunk;
    if o.remaining == 0 || queue == [] || !Crosses(o, queue[0]) {
      ShrunkNot(queue);
    } else if o.remaining < queue[0].remaining {
      ShrunkHead(queue, queue[0].remaining - o.remaining);
    } else {
      SweepShrinks(o.(remaining := o.remaining - queue[0].remaining), queue[1..]);
      ShrunkExtends(Sweep(o, queue).rest, queue);
    }
  }

  lemma ShrunkNot(queue: seq<Order>)
    requires AllPositive(queue)
    ensures Shrunk(queue, queue)
  {
  }

  lemma ShrunkHead(queue: seq<Order>, left: Quantity)
    requires AllPositive(queue) && queue != [] && left > 0
    ensures Shrunk([queue[0].(remaining := left)] + queue[1..], queue)
  {
  }

  lemma ShrunkExtends(rest: seq<Order>, queue: seq<Order>)
    requires queue != [] && Shrunk(rest, queue[1..])
    ensures Shrunk(rest, queue)
  {
    var tail := queue[1..];
    forall i | 0 <= i < |rest|
      ensures rest[i].remaining > 0 && rest[i] == queue[|queue| - |rest| + i].(remaining := rest[i].remaining)
    {
      assert rest[i] == tail[|tail| - |rest| + i].(remaining := rest[i].remaining);
    }
  }

  lemma {:induction false} SweepStops(o: Order, queue: seq<Order>)
    ensures var m := Sweep(o, queue);
      m.left > 0 ==> m.rest == [] || !Crosses(o, m.rest[0])
    decreases |queue|
  {
    if o.remaining > 0 && queue != [] && Crosses(o, queue[0]) && o.remaining >= queue[0].remaining {
      SweepStops(o.(remaining := o.remaining - queue[0].remaining), queue[1..]);
    }
  }

  lemma {:induction false} SweepKeepsSideOk(o: Order, queue: seq<Order>)
    requires SideOk(o.side.Opposite(), queue)
    ensures SideOk(o.side.Opposite(), Sweep(o, queue).rest)
    ensures Index(Sweep(o, queue).rest).Keys <= Index(queue).Keys
    ensures Sweep(o, queue).rest != [] ==>
      queue != [] && !Outranks(o.side.Opposite(), Sweep(o, queue).rest[0].price, queue[0].price)
    decreases |queue|
  {
    if o.remaining == 0 || queue == [] || !Crosses(o, queue[0]) {
    } else if o.remaining < queue[0].remaining {
      assert Sweep(o, queue).rest[1..] == queue[1..];
    } else {
      SweepKeepsSideOk(o.(remaining := o.remaining - queue[0].remaining), queue[1..]);
    }
  }

  lemma {:induction false} ConsumeAllAgrees(index: map<OrderId, Order>, trades: seq<Trade>, o: Order, o': Order)
    requires o' == o.(remaining := o'.remaining)
    ensures TradesFit(index, trades, o) == TradesFit(index, trades, o')
    decreases |trades|
  {
    if trades != [] {
      ConsumeAllAgrees(Consume(index, RestingId(trades[0], o.side), trades[0].quantity), trades[1..], o, o');
    }
  }

  lemma {:induction false} ConsumeHead(queue: seq<Order>, other: map<OrderId, Order>, quantity: Quantity)
    requires queue != [] && queue[0].id !in Index(queue[1..])
    requires Index(queue).Keys !! other.Keys
    ensures var index := Index(queue) + other;
      && queue[0].id in index && index[queue[0].id] == queue[0]
      && Consume(index, queue[0].id, quantity) ==
         (if queue[0].remaining <= quantity then Index(queue[1..]) + other
          else Index([queue[0].(remaining := queue[0].remaining - quantity)] + queue[1..]) + other)
      && Index(queue[1..]).Keys !! other.Keys
  {
    var index := Index(queue) + other;
    var head := queue[0].(remaining := if queue[0].remaining <= quantity then 0 else queue[0].remaining - quantity);
    assert ([head] + queue[1..])[1..] == queue[1..];
  }

  /**
   Playing the trades one by one against the index of a whole book (the other orders in it
   do not matter) leaves the index of what the sweep leaves.
   */
  lemma {:induction false} SweepOnIndex(o: Order, queue: seq<Order>, other: map<OrderId, Order>)
    requires SideOk(o.side.Opposite(), queue)
    requires Index(queue).Keys !! other.Keys
    ensures var m := Sweep(o, queue);
      && ConsumeAll(Index(queue) + other, m.trades, o.side) == Index(m.rest) + other
      && TradesFit(Index(queue) + other, m.trades, o)
    decreases |queue|
  {
    var m := Sweep(o, queue);
    if o.remaining == 0 || queue == [] || !Crosses(o, queue[0]) {
    } else {
      ConsumeHead(queue, other, m.trades[0].quantity);
      assert Resting(o.side.Opposite(), queue[0]);
      if o.remaining < queue[0].remaining {
        assert m.trades[1..] == [];
      } else {
        var o' := o.(remaining := o.remaining - queue[0].remaining);
        SweepOnIndex(o', queue[1..], other);
        var m' := Sweep(o', queue[1..]);
        assert m.trades[1..] == m'.trades;
        ConsumeAllAgrees(Index(queue[1..]) + other, m'.trades, o, o');
      }
    }
  }
}
