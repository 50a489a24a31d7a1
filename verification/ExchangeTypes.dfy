/** The vocabulary shared by every part of the exchange. */
module ExchangeTypes {

  type OrderId = nat
  type Price = int
  type Quantity = nat
  type Timestamp = nat

  // Quantities travel and are stored as 32-bit unsigned integers.
  const QUANTITY_RANGE: nat := 0x1_0000_0000

  datatype Option<+T> = None | Some(value: T)

  datatype Side = Buy | Sell {
    function Opposite(): Side {
      if Buy? then Sell else Buy
    }
  }

  datatype OrderKind = Limit | Market

  datatype TimeInForce = GoodTillCancel | ImmediateOrCancel | FillOrKill

  datatype Order = Order(
    id: OrderId,
    side: Side,
    kind: OrderKind,
    tif: TimeInForce,
    price: Price,
    initial: Quantity,
    remaining: Quantity,
    timestamp: Timestamp)

  datatype Trade = Trade(
    buyId: OrderId,
    sellId: OrderId,
    price: Price,
    quantity: Quantity,
    timestamp: Timestamp)

  function Min(a: nat, b: nat): nat {
    if a <= b then a else b
  }

  // A larger multiple is larger by at least one more time.
  lemma OneMoreTime(p: nat, q: nat, c: nat)
    ensures p < q ==> p * c + c <= q * c
  {
    if p < q {
      var d := q - p;
      assert q * c == p * c + d * c;
    }
  }
}
