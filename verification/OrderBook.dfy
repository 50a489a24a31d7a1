/** The order book: two sides and an index from order id to where the order rests. */
module OrderBooks {
  import opened ExchangeTypes
  import opened PriceTime
  import opened BookLaws
  import opened MatchingLaws
  import opened LevelLaws
  import opened BookSides

  // The position in the list is found in the level by the order's id.
  datatype Location = Location(side: Side, price: Price)

  function Locations(index: map<OrderId, Order>): map<OrderId, Location> {
    map id | id in index :: Location(index[id].side, index[id].price)
  }

  lemma {:induction false} RestRelocates(b: Book, o: Order)
    requires Coherent(b) && Resting(o.side, o) && o.id !in b.ById()
    ensures var b' := b.With(o.side, Insert(o, b.Queue(o.side)));
      Coherent(b') && Locations(b'.ById()) == Locations(b.ById())[o.id := Location(o.side, o.price)]
  {
    hide SideOk, Index, Insert;
    RestKeepsCoherence(b, o);
  }

  lemma {:induction false} CancelRelocates(b: Book, id: OrderId)
    requires Coherent(b)
    ensures Coherent(Cancel(b, id)) && Locations(Cancel(b, id).ById()) == Locations(b.ById()) - {id}
  {
    hide SideOk, Index, Remove, Cancel;
    CancelRemovesExactly(b, id);
  }

  lemma {:induction false} FillRelocates(b: Book, side: Side, quantity: Quantity)
    requires Coherent(b) && b.Queue(side) != [] && 0 < quantity <= b.Queue(side)[0].remaining
    ensures var front := b.Queue(side)[0];
      var b' := b.With(side, FillFirst(b.Queue(side), quantity));
      && Coherent(b')
      && Locations(b'.ById()) ==
         (if quantity == front.remaining then Locations(b.ById()) - {front.id} else Locations(b.ById()))
  {
    hide SideOk, Index;
    var queue := b.Queue(side);
    var other := Index(b.Queue(side.Opposite()));
    var queue' := FillFirst(queue, quantity);
    FillKeepsSideOk(side, queue, quantity, other);
    assert b.ById() == Index(queue) + other;
    assert b.With(side, queue').ById() == Index(queue') + other;
    LocationsConsumed(b.ById(), queue[0].id, quantity);
  }

  lemma {:induction false} FillKeepsSideOk(side: Side, queue: seq<Order>, quantity: Quantity, other: map<OrderId, Order>)
    requires SideOk(side, queue) && queue != [] && 0 < quantity <= queue[0].remaining
    requires Index(queue).Keys !! other.Keys
    ensures var queue' := FillFirst(queue, quantity);
      && SideOk(side, queue')
      && Index(queue').Keys !! other.Keys
      && queue[0].id in Index(queue) + other && (Index(queue) + other)[queue[0].id] == queue[0]
      && Index(queue') + other == Consume(Index(queue) + other, queue[0].id, quantity)
  {
    ConsumeHead(queue, other, quantity);
    if quantity < queue[0].remaining {
      assert FillFirst(queue, quantity)[1..] == queue[1..];
    }
  }

  lemma LocationsConsumed(index: map<OrderId, Order>, id: OrderId, quantity: Quantity)
    requires id in index
    ensures Locations(Consume(index, id, quantity)) ==
      if index[id].remaining <= quantity then Locations(index) - {id} else Locations(index)
  {
  }

  class OrderBook {
    const bids: BookSide
    const asks: BookSide
    var locations: map<OrderId, Location>
    ghost var Repr: set<object>

    function Of(side: Side): BookSide {
      if side.Buy? then bids else asks
    }

    // The flat picture of the book.
    ghost function Flat(): Book
      reads bids, asks
    {
      Book(bids.queue, asks.queue)
    }

    // Both sides sound and separate; the index not yet considered.
    ghost predicate Sides()
      reads this, Repr
      ensures Sides() ==> this in Repr
    {
      && this in Repr && bids in Repr && asks in Repr
      && bids.Repr <= Repr && asks.Repr <= Repr
      && this !in bids.Repr && this !in asks.Repr && bids.Repr !! asks.Repr
      && bids.side == Buy && asks.side == Sell
      && bids.Valid() && asks.Valid()
    }

    // Ids are unique and the index knows exactly the resting orders.
    ghost predicate Valid()
      reads this, Repr
      ensures Valid() ==> this in Repr
    {
      && Sides()
      && Coherent(Flat())
      && locations == Locations(Flat().ById())
    }

    constructor ()
      ensures Valid() && fresh(Repr) && Flat() == EMPTY_BOOK
    {
      bids := new BookSide(Buy);
      asks := new BookSide(Sell);
      locations := map[];
      new;
      hide BookSide.Valid, Coherent, Locations, Book.ById, Sides;
      Repr := {this} + bids.Repr + asks.Repr;
      NothingRests();
      Separate();
    }

    lemma Separate()
      requires Repr == {this} + bids.Repr + asks.Repr && this !in bids.Repr && this !in asks.Repr && bids.Repr !! asks.Repr
      requires bids in bids.Repr && asks in asks.Repr && bids.side == Buy && asks.side == Sell && bids.Valid() && asks.Valid()
      ensures Sides()
    {
    }

    lemma NothingRests()
      ensures Coherent(EMPTY_BOOK) && Locations(EMPTY_BOOK.ById()) == map[]
    {
    }

    function Contains(id: OrderId): (held: bool)
      requires Valid()
      reads this, Repr
      ensures held <==> id in Flat().ById()
    {
      id in locations
    }

    function Has(side: Side): (some: bool)
      requires Valid()
      reads this, Repr
      ensures some <==> Flat().Queue(side) != []
    {
      Of(side).SomeLevel();
      Of(side).levels != []
    }

    function Best(side: Side): (front: Order)
      requires Valid() && Has(side)
      reads this, Repr
      ensures front == Flat().Queue(side)[0]
    {
      Of(side).Front()
    }

    method BestLevel(side: Side) returns (top: Option<(Price, Quantity)>)
      requires Valid()
      ensures top == TopOf(Flat().Queue(side))
    {
      top := Of(side).BestLevel();
    }

    // False where the source throws: the id rests already, a market order, or nothing to rest.
    method AddOrder(order: Order) returns (added: bool)
      requires Valid()
      requires order.tif.GoodTillCancel?
      requires QuantityAt(Flat().Queue(order.side), order.price) + order.remaining < QUANTITY_RANGE
      modifies Repr
      ensures Valid() && fresh(Repr - old(Repr))
      ensures added <==> order.id !in old(Flat().ById()) && order.kind.Limit? && order.remaining > 0
      ensures Flat() ==
        if added then old(Flat()).With(order.side, Insert(order, old(Flat()).Queue(order.side))) else old(Flat())
    {
      hide SideOk, Index, Insert;
      if order.id in locations || !order.kind.Limit? || order.remaining == 0 {
        return false;
      }
      RestRelocates(Flat(), order);
      Rest(order);
      Relocate(locations[order.id := Location(order.side, order.price)]);
      return true;
    }

    // The order that rested under this id, taken out of the book.
    method ExtractOrder(id: OrderId) returns (order: Option<Order>)
      requires Valid()
      modifies Repr
      ensures Valid() && Repr == old(Repr)
      ensures order == if id in old(Flat().ById()) then Some(old(Flat().ById())[id]) else None
      ensures Flat() == Cancel(old(Flat()), id)
    {
      hide SideOk, Index, Remove;
      if id !in locations {
        return None;
      }
      LocateId(Flat(), id);
      CancelRelocates(Flat(), id);
      var found := Of(locations[id].side).Find(id, locations[id].price);
      Take(id, locations[id]);
      Relocate(locations - {id});
      return Some(found);
    }

    method CancelOrder(id: OrderId) returns (cancelled: bool)
      requires Valid()
      modifies Repr
      ensures Valid() && Repr == old(Repr)
      ensures cancelled <==> id in old(Flat().ById())
      ensures Flat() == Cancel(old(Flat()), id)
    {
      var order := ExtractOrder(id);
      return order.Some?;
    }

    method FindOrder(id: OrderId) returns (order: Option<Order>)
      requires Valid()
      ensures order == if id in Flat().ById() then Some(Flat().ById()[id]) else None
    {
      if id !in locations {
        return None;
      }
      LocateId(Flat(), id);
      var found := Of(locations[id].side).Find(id, locations[id].price);
      return Some(found);
    }

    method ExecutableQuantity(o: Order) returns (available: nat)
      requires Valid()
      ensures available <= Available(o, Flat().Queue(o.side.Opposite()))
      ensures available < o.remaining ==> available == Available(o, Flat().Queue(o.side.Opposite()))
    {
      available := Of(o.side.Opposite()).ExecutableQuantity(o);
    }

    /**
     The three steps matching takes after a trade: fill the front order of the best level, forget
     the order if it is used up, and drop the level if that emptied it.
     */
    method FillBest(side: Side, quantity: Quantity)
      requires Valid() && Has(side) && 0 < quantity <= Flat().Queue(side)[0].remaining
      modifies Repr
      ensures Valid() && Repr == old(Repr)
      ensures Flat() == old(Flat()).With(side, FillFirst(old(Flat()).Queue(side), quantity))
    {
      var front := Best(side);
      FillRelocates(Flat(), side, quantity);
      Fill(side, quantity);
      Relocate(if quantity == front.remaining then locations - {front.id} else locations);
    }

    // ---- The same three operations on the sides alone, before the index follows ----------

    method Rest(order: Order)
      requires Sides() && order.remaining > 0
      requires QuantityAt(Flat().Queue(order.side), order.price) + order.remaining < QUANTITY_RANGE
      modifies Repr
      ensures Sides() && fresh(Repr - old(Repr)) && locations == old(locations)
      ensures Flat() == old(Flat()).With(order.side, Insert(order, old(Flat()).Queue(order.side)))
    {
      hide Insert, QuantityAt;
      if order.side.Buy? {
        bids.Add(order);
        Repr := Repr + bids.Repr;
      } else {
        asks.Add(order);
        Repr := Repr + asks.Repr;
      }
    }

    method Take(id: OrderId, at: Location)
      requires Sides() && SideOk(at.side, Flat().Queue(at.side))
      requires var index := Index(Flat().Queue(at.side)); id in index && index[id].price == at.price
      modifies Repr
      ensures Sides() && Repr == old(Repr) && locations == old(locations)
      ensures Flat() == old(Flat()).With(at.side, Remove(id, old(Flat()).Queue(at.side)))
    {
      hide Remove, SideOk;
      if at.side.Buy? {
        bids.Erase(id, at.price);
      } else {
        asks.Erase(id, at.price);
      }
    }

    method Fill(side: Side, quantity: Quantity)
      requires Sides() && Flat().Queue(side) != [] && 0 < quantity <= Flat().Queue(side)[0].remaining
      modifies Repr
      ensures Sides() && Repr == old(Repr) && locations == old(locations)
      ensures Flat() == old(Flat()).With(side, FillFirst(old(Flat()).Queue(side), quantity))
    {
      hide FillFirst;
      if side.Buy? {
        bids.FillBest(quantity);
      } else {
        asks.FillBest(quantity);
      }
    }

    method Relocate(index: map<OrderId, Location>)
      requires Sides() && Coherent(Flat()) && index == Locations(Flat().ById())
      modifies this`locations
      ensures Valid() && Flat() == old(Flat())
    {
      locations := index;
    }
  }
}
