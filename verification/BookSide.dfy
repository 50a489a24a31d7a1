/**
 One side of the book as it is stored: an ordered map from price to level, kept here as the run
 of its levels in iteration order, best price first.
 */
module BookSides {
  import opened ExchangeTypes
  import opened PriceTime
  import opened LevelLaws
  import opened PriceLevels

  ghost function Rows(levels: seq<PriceLevel>): (rows: seq<Row>)
    reads levels
    ensures |rows| == |levels|
    ensures forall i :: 0 <= i < |levels| ==> rows[i] == Row(levels[i].price, levels[i].orders)
  {
    seq(|levels|, i requires 0 <= i < |levels| reads levels => Row(levels[i].price, levels[i].orders))
  }

  // Levels of one side are different objects, because their prices differ.
  lemma LevelsDiffer(side: Side, levels: seq<PriceLevel>, k: nat)
    requires RowsOk(side, Rows(levels)) && k < |levels|
    ensures forall i :: 0 <= i < |levels| && i != k ==> levels[i] != levels[k]
  {
    RowsOkMeans(side, Rows(levels));
    forall i | 0 <= i < |levels| && i != k
      ensures levels[i] != levels[k]
    {
      assert Outranks(side, Rows(levels)[i].price, Rows(levels)[k].price)
        || Outranks(side, Rows(levels)[k].price, Rows(levels)[i].price);
    }
  }

  lemma RowsOpened(levels: seq<PriceLevel>, level: PriceLevel, order: Order, k: nat)
    requires k <= |levels| && level.price == order.price && level.orders == [order]
    ensures Rows(levels[..k] + [level] + levels[k..]) == Opened(order, Rows(levels), k)
  {
  }

  class BookSide {
    const side: Side
    var levels: seq<PriceLevel>
    ghost var queue: seq<Order>   // the flat picture
    ghost var Repr: set<object>

    ghost predicate Valid()
      reads this, Repr
      ensures Valid() ==> this in Repr
    {
      && this in Repr
      && (forall i :: 0 <= i < |levels| ==> levels[i] in Repr && levels[i].Valid())
      && RowsOk(side, Rows(levels))
      && queue == Flatten(Rows(levels))
    }

    constructor (side: Side)
      ensures Valid() && fresh(Repr) && this.side == side && queue == []
    {
      this.side := side;
      levels, queue := [], [];
      Repr := {this};
    }

    // The first level whose price does not come before the given one.
    method LowerBound(price: Price) returns (k: nat)
      requires Valid()
      ensures k <= |levels|
      ensures forall i :: 0 <= i < k ==> Outranks(side, levels[i].price, price)
      ensures k < |levels| ==> !Outranks(side, levels[k].price, price)
    {
      k := 0;
      while k < |levels| && Outranks(side, levels[k].price, price)
        invariant k <= |levels|
        invariant forall i :: 0 <= i < k ==> Outranks(side, levels[i].price, price)
      {
        k := k + 1;
      }
    }

    method Add(order: Order)
      requires Valid() && order.side == side && order.remaining > 0
      requires QuantityAt(queue, order.price) + order.remaining < QUANTITY_RANGE
      modifies Repr
      ensures Valid() && fresh(Repr - old(Repr))
      ensures queue == Insert(order, old(queue))
    {
      var k := LowerBound(order.price);
      if k < |levels| && levels[k].price == order.price {
        Join(order, k);
      } else {
        Open(order, k);
      }
    }

    // The order joins level k, which is at its price.
    method Join(order: Order, k: nat)
      requires Valid() && order.side == side && order.remaining > 0
      requires k < |levels| && levels[k].price == order.price
      requires QuantityAt(queue, order.price) + order.remaining < QUANTITY_RANGE
      modifies Repr
      ensures Valid() && Repr == old(Repr)
      ensures queue == Insert(order, old(queue))
    {
      ghost var rows := Rows(levels);
      JoinLevel(order, rows, k);
      LevelWithinQueue(side, rows, k);
      LevelsDiffer(side, levels, k);
      var _ := levels[k].AddOrder(order);
      assert Rows(levels) == rows[k := Row(order.price, rows[k].orders + [order])];
      queue := Insert(order, queue);
    }

    // The order opens a level of its own at position k.
    method Open(order: Order, k: nat)
      requires Valid() && order.side == side && 0 < order.remaining < QUANTITY_RANGE
      requires k <= |levels|
      requires forall i :: 0 <= i < k ==> Outranks(side, levels[i].price, order.price)
      requires k < |levels| ==> Outranks(side, order.price, levels[k].price)
      modifies this
      ensures Valid() && fresh(Repr - old(Repr))
      ensures queue == Insert(order, old(queue))
    {
      hide Insert, RowsOk, Flatten, PriceLevel.Valid;
      OpenLevel(order, Rows(levels), k);
      var level := new PriceLevel(order.price);
      var _ := level.AddOrder(order);
      RowsOpened(levels, level, order, k);
      var levels' := levels[..k] + [level] + levels[k..];
      forall i | 0 <= i < |levels'|
        ensures levels'[i] in Repr + {level} && levels'[i].Valid()
      {
        assert levels'[i] == if i < k then levels[i] else if i == k then level else levels[i - 1];
      }
      Install(levels', Repr + {level}, Insert(order, queue));
    }

    // Take out the order at rest under this id, at this price; its level goes when empty.
    method Erase(id: OrderId, price: Price)
      requires Valid() && SideOk(side, queue)
      requires id in Index(queue) && Index(queue)[id].price == price
      modifies Repr
      ensures Valid() && Repr == old(Repr)
      ensures queue == Remove(id, old(queue))
    {
      var k, i := Locate(id, price);
      EraseAt(id, k, i);
    }

    method Locate(id: OrderId, price: Price) returns (k: nat, i: nat)
      requires Valid() && SideOk(side, queue)
      requires id in Index(queue) && Index(queue)[id].price == price
      ensures k < |levels| && i < |levels[k].orders|
      ensures levels[k].orders[i] == Index(queue)[id] && levels[k].orders[i].id == id
    {
      ghost var rows := Rows(levels);
      ghost var j, position := FindRow(side, rows, id);
      RowsOkMeans(side, rows);
      assert RowOk(rows[j]);
      k := LowerBound(price);
      assert rows[j].price == price && k == j;
      i := 0;
      while levels[k].orders[i].id != id
        invariant i <= position
        decreases position - i
      {
        i := i + 1;
      }
    }

    // The order at rest under this id, through its location.
    method Find(id: OrderId, price: Price) returns (order: Order)
      requires Valid() && SideOk(side, queue)
      requires id in Index(queue) && Index(queue)[id].price == price
      ensures order == Index(queue)[id]
    {
      var k, i := Locate(id, price);
      order := levels[k].orders[i];
    }

    method EraseAt(id: OrderId, k: nat, i: nat)
      requires Valid() && SideOk(side, queue)
      requires k < |levels| && i < |levels[k].orders| && levels[k].orders[i].id == id
      modifies Repr
      ensures Valid() && Repr == old(Repr)
      ensures queue == Remove(id, old(queue))
    {
      ghost var rows := Rows(levels);
      ghost var orders := levels[k].orders[..i] + levels[k].orders[i + 1..];
      LeaveLevel(id, side, rows, k, i);
      LevelsDiffer(side, levels, k);
      var _ := levels[k].Erase(i);
      assert Rows(levels) == rows[k := Row(rows[k].price, orders)];
      DropIfEmpty(k);
    }

    // Level k has changed; it goes if it is left empty.
    method DropIfEmpty(k: nat)
      requires this in Repr && k < |levels|
      requires forall i :: 0 <= i < |levels| ==> levels[i] in Repr && levels[i].Valid()
      requires RowsOk(side, Dropped(Rows(levels), k))
      modifies this
      ensures Valid() && Repr == old(Repr) && queue == Flatten(old(Dropped(Rows(levels), k)))
    {
      ghost var rows := Dropped(Rows(levels), k);
      var levels' := levels;
      if levels[k].orders == [] {
        levels' := levels[..k] + levels[k + 1..];
      }
      assert Rows(levels') == rows;
      Install(levels', Repr, Flatten(rows));
    }

    // Execute against the first order of the best level; drop the level if that empties it.
    method FillBest(quantity: Quantity)
      requires Valid() && queue != [] && 0 < quantity <= queue[0].remaining
      modifies Repr
      ensures Valid() && Repr == old(Repr)
      ensures queue == FillFirst(old(queue), quantity)
    {
      ghost var rows := Rows(levels);
      FillBestLevel(side, rows, quantity);
      LevelsDiffer(side, levels, 0);
      var _ := levels[0].FillFront(quantity);
      assert Rows(levels) == rows[0 := Row(rows[0].price, FillFirst(rows[0].orders, quantity))];
      DropIfEmpty(0);
    }

    lemma SomeLevel()
      requires Valid()
      ensures levels == [] <==> queue == []
    {
      if levels != [] {
        HeadPrice(Rows(levels), 0);
        assert Rows(levels)[0..] == Rows(levels);
      }
    }

    // The order at the front of the side.
    function Front(): (front: Order)
      requires Valid() && levels != []
      reads this, Repr
      ensures queue != [] && front == queue[0] && front.price == levels[0].price
    {
      HeadPrice(Rows(levels), 0);
      assert Rows(levels)[0..] == Rows(levels);
      levels[0].orders[0]
    }

    method BestLevel() returns (top: Option<(Price, Quantity)>)
      requires Valid()
      ensures top == TopOf(queue)
    {
      SomeLevel();
      if levels == [] {
        return None;
      }
      BestLevelTotal(side, Rows(levels));
      return Some((levels[0].price, levels[0].totalQuantity));
    }

    /**
     Adds level totals in priority order up to the limit price and stops once the order is covered:
     exact while short of the order's quantity, and at least that quantity exactly when the side is.
     */
    method ExecutableQuantity(o: Order) returns (available: nat)
      requires Valid() && o.side == side.Opposite()
      ensures available <= Available(o, queue)
      ensures available < o.remaining ==> available == Available(o, queue)
    {
      ghost var rows := Rows(levels);
      available := 0;
      var k := 0;
      RowsOkMeans(side, rows);
      while k < |levels|
        invariant k <= |levels|
        invariant Available(o, queue) == available + Available(o, Flatten(rows[k..]))
      {
        AvailableByLevel(o, rows, k);
        if o.kind.Limit? && Outranks(o.side, levels[k].price, o.price) {
          break;
        }
        available := available + levels[k].totalQuantity;
        if available >= o.remaining {
          break;
        }
        k := k + 1;
      }
    }

    // A new run of levels, already sound, becomes this side.
    method Install(levels: seq<PriceLevel>, ghost repr: set<object>, ghost queue: seq<Order>)
      requires this in repr
      requires forall i :: 0 <= i < |levels| ==> levels[i] in repr && levels[i].Valid()
      requires RowsOk(side, Rows(levels)) && queue == Flatten(Rows(levels))
      modifies this
      ensures Valid() && this.levels == levels && this.queue == queue && Repr == repr
    {
      this.levels, this.queue, Repr := levels, queue, repr;
    }
  }
}
