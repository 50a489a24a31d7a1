/** One price on one side of the book: a first-come-first-served list and its cached total. */
module PriceLevels {
  import opened ExchangeTypes
  import opened PriceTime

  class PriceLevel {
    const price: Price
    var totalQuantity: Quantity
    var orders: seq<Order>

    // The cached total is the sum of the list and fits 32 bits, so no update wraps.
    ghost predicate Valid()
      reads this
    {
      && totalQuantity == Total(orders) < QUANTITY_RANGE
      && forall i :: 0 <= i < |orders| ==> orders[i].price == price && orders[i].remaining > 0
    }

    constructor (price: Price)
      ensures Valid() && this.price == price && orders == []
    {
      this.price := price;
      totalQuantity := 0;
      orders := [];
    }

    // False where the source throws: nothing to add, or another level's price.
    method AddOrder(order: Order) returns (added: bool)
      requires Valid()
      requires Total(orders) + order.remaining < QUANTITY_RANGE
      modifies this
      ensures Valid()
      ensures added <==> order.remaining > 0 && order.price == price
      ensures orders == if added then old(orders) + [order] else old(orders)
    {
      if order.remaining == 0 || order.price != price {
        return false;
      }
      TotalAppend(orders, order);
      totalQuantity := totalQuantity + order.remaining;
      orders := orders + [order];
      return true;
    }

    // The position stands for the list iterator; false at the end of the list.
    method Erase(position: nat) returns (erased: bool)
      requires Valid()
      modifies this
      ensures Valid()
      ensures erased <==> position < old(|orders|)
      ensures orders == if erased then old(orders)[..position] + old(orders)[position + 1..] else old(orders)
    {
      if position >= |orders| {
        return false;
      }
      TotalWithout(orders, position);
      totalQuantity := totalQuantity - orders[position].remaining;
      orders := orders[..position] + orders[position + 1..];
      return true;
    }

    // False where the source throws: no order, nothing to fill, or more than the front order has.
    method FillFront(quantity: Quantity) returns (filled: bool)
      requires Valid()
      modifies this
      ensures Valid()
      ensures filled <==> old(orders) != [] && 0 < quantity <= old(orders)[0].remaining
      ensures orders ==
        if !filled then old(orders)
        else if quantity == old(orders)[0].remaining then old(orders)[1..]
        else [old(orders)[0].(remaining := old(orders)[0].remaining - quantity)] + old(orders)[1..]
    {
      if orders == [] || quantity == 0 || quantity > orders[0].remaining {
        return false;
      }
      var front := orders[0].(remaining := orders[0].remaining - quantity);
      assert ([front] + orders[1..])[1..] == orders[1..];
      totalQuantity := totalQuantity - quantity;
      orders := if front.remaining == 0 then orders[1..] else [front] + orders[1..];
      return true;
    }
  }

  lemma {:induction false} TotalAppend(orders: seq<Order>, order: Order)
    ensures Total(orders + [order]) == Total(orders) + order.remaining
  {
    if orders == [] {
      assert orders + [order] == [order];
    } else {
      assert (orders + [order])[1..] == orders[1..] + [order];
      TotalAppend(orders[1..], order);
    }
  }

  lemma {:induction false} TotalWithout(orders: seq<Order>, k: nat)
    requires k < |orders|
    ensures Total(orders[..k] + orders[k + 1..]) == Total(orders) - orders[k].remaining
  {
    if k == 0 {
      assert orders[..0] + orders[1..] == orders[1..];
    } else {
      TotalWithout(orders[1..], k - 1);
      assert (orders[..k] + orders[k + 1..])[1..] == orders[1..][..k - 1] + orders[1..][k..];
    }
  }
}
