/** Why the risk engine rejects, reason by reason, and how its counters stop at the ends of 64 bits. */
module RejectionLaws {
  import opened ExchangeTypes
  import opened Risk
  import opened RiskLaws
  import opened LimitLaws

  // What an order is worth at this price, told without dividing.
  predicate WorthAtMost(quantity: Quantity, price: Price, limit: nat) {
    -(limit as int) <= quantity * price <= limit
  }

  // The reasons that do not depend on what the client has open, in the order they are looked for.
  predicate RejectedAlone(r: RiskState, c: ClientId, price: Price, quantity: Quantity, known: bool, reason: RejectReason) {
    match reason
    case GlobalKillSwitch => r.globalKill
    case ClientKillSwitch => !r.globalKill && ClientOf(r, c).killSwitch
    case UnknownWorkingOrder => Trading(r, c) && !known
    case MaxOrderQuantity => Trading(r, c) && known && quantity > r.limits.maxOrderQuantity
    case MaxOrderNotional =>
      && Trading(r, c) && known && quantity <= r.limits.maxOrderQuantity
      && !WorthAtMost(quantity, price, r.limits.maxOrderNotional)
    case _ => false
  }

  predicate Alone(r: RiskState, c: ClientId, price: Price, quantity: Quantity, known: bool) {
    && Trading(r, c) && known
    && quantity <= r.limits.maxOrderQuantity && WorthAtMost(quantity, price, r.limits.maxOrderNotional)
  }

  function PriceOf(price: Price, reference: Option<Price>): Price {
    if reference.Some? then reference.value else price
  }

  ghost predicate NewRejected(r: RiskState, q: NewRequest, reason: RejectReason) {
    var price := PriceOf(q.price, q.reference);
    var rests := q.kind.Limit? && q.tif.GoodTillCancel?;
    || RejectedAlone(r, q.client, price, q.quantity, true, reason)
    || (&& Alone(r, q.client, price, q.quantity, true)
        && var fits := Exposure(r, q.client, q.symbol, q.side) + q.quantity <= r.limits.maxPosition;
           match reason
           case MaxPosition => !fits
           case MaxOpenOrders => fits && rests && Cached(r, Count(q.client)) >= r.limits.maxOpenOrders
           case MaxOpenQuantity =>
             && fits && rests && Cached(r, Count(q.client)) < r.limits.maxOpenOrders
             && Cached(r, Gross(q.client)) + q.quantity > r.limits.maxOpenQuantity
           case _ => false)
  }

  lemma {:induction false} CommonReasons(limits: Limits, price: Price, quantity: Quantity, reference: Option<Price>)
    ensures CheckCommon(limits, price, quantity, reference) ==
      if quantity > limits.maxOrderQuantity then Reject(MaxOrderQuantity)
      else if !WorthAtMost(quantity, PriceOf(price, reference), limits.maxOrderNotional) then Reject(MaxOrderNotional)
      else Accept
  {
    hide CheckCommon;
    OrderLimitsAreExact(limits, price, quantity, reference);
    OneOfTwo(limits, price, quantity, reference);
    MagnitudeTimes(quantity, PriceOf(price, reference), limits.maxOrderNotional);
  }

  lemma OneOfTwo(limits: Limits, price: Price, quantity: Quantity, reference: Option<Price>)
    ensures CheckCommon(limits, price, quantity, reference) in {Accept, Reject(MaxOrderQuantity), Reject(MaxOrderNotional)}
    ensures CheckCommon(limits, price, quantity, reference) == Reject(MaxOrderQuantity) <==> quantity > limits.maxOrderQuantity
  {
  }

  lemma MagnitudeTimes(quantity: Quantity, price: Price, limit: nat)
    ensures quantity * Magnitude(price) <= limit <==> WorthAtMost(quantity, price, limit)
  {
    assert price < 0 ==> quantity * -price == -(quantity * price);
    assert price < 0 ==> quantity * price <= 0;
    assert price >= 0 ==> quantity * price >= 0;
  }

  /** A new order is rejected for exactly one reason: the first that applies. */
  lemma {:induction false} NewRejectedExactly(r: RiskState, q: NewRequest, reason: RejectReason)
    requires Modest(r.limits) && WithinLimits(r)
    ensures CheckNew(r, q) == Reject(reason) <==> NewRejected(r, q, reason)
  {
    hide CheckCommon, PositionLimitExceeded, WorthAtMost;
    CommonReasons(r.limits, q.price, q.quantity, q.reference);
    PositionIsBounded(r, q.client, q.symbol);
    var state := SymbolOf(r, q.client, q.symbol);
    assert Exposure(r, q.client, q.symbol, q.side) <= r.limits.maxPosition;
    PositionCheckIsExact(r.limits, state.position, q.side, q.quantity, OpenOn(state, q.side));
    assert Cached(r, Gross(q.client)) <= r.limits.maxOpenQuantity;
  }

  ghost predicate ReplaceRejected(r: RiskState, k: Key, price: Price, quantity: Quantity, reason: RejectReason) {
    || RejectedAlone(r, k.client, price, quantity, k in r.working, reason)
    || (&& Alone(r, k.client, price, quantity, k in r.working)
        && var left := OrderCancelled(r, k);
           var fits := Cached(left, Gross(k.client)) + quantity <= r.limits.maxOpenQuantity;
           match reason
           case MaxOpenQuantity => !fits
           case MaxPosition =>
             fits && Exposure(left, k.client, k.symbol, r.working[k].side) + quantity > r.limits.maxPosition
           case _ => false)
  }

  /** A replacement is rejected for exactly one reason, what the order took up being given back first. */
  lemma {:induction false} ReplaceRejectedExactly(r: RiskState, k: Key, price: Price, quantity: Quantity, reason: RejectReason)
    requires Modest(r.limits) && WithinLimits(r) && Sound(r)
    ensures CheckReplace(r, k, price, quantity) == Reject(reason) <==> ReplaceRejected(r, k, price, quantity, reason)
  {
    hide CheckCommon, PositionLimitExceeded, OrderCancelled, WorthAtMost, Sound;
    CommonReasons(r.limits, price, quantity, None);
    if k in r.working {
      var side := r.working[k].side;
      var state := SymbolOf(r, k.client, k.symbol);
      var left := OrderCancelled(r, k);
      Mirrored(r, k);
      PositionIsBounded(r, k.client, k.symbol);
      NoClamp(r, k, Gross(k.client));
      NoClamp(r, k, Open(k.client, k.symbol, side));
      CancelLowers(r, k);
      assert Cached(left, Gross(k.client)) == Cached(r, Gross(k.client)) - r.working[k].remaining;
      assert Cached(left, Open(k.client, k.symbol, side)) == OpenOn(state, side) - r.working[k].remaining;
      assert PositionOf(left, k.client, k.symbol) == PositionOf(r, k.client, k.symbol);
      assert Cached(r, Count(k.client)) <= r.limits.maxOpenOrders;
      assert Cached(r, Gross(k.client)) <= r.limits.maxOpenQuantity;
      assert Exposure(r, k.client, k.symbol, side) <= r.limits.maxPosition;
      PositionCheckIsExact(r.limits, state.position, side, quantity, Less(OpenOn(state, side), r.working[k].remaining));
    }
  }

  // ---- The ends of 64 bits -----------------------------------------------------------------------------

  // The nearest value within these bounds.
  function Nearest(value: int, lowest: int, highest: int): int
    requires lowest <= highest
  {
    if value < lowest then lowest else if value > highest then highest else value
  }

  /** Counters and positions are the true sums where these fit 64 bits, and the nearest end otherwise. */
  lemma {:induction false} SaturationIsNearest(a: nat, b: nat, position: int, quantity: Quantity)
    requires a <= MAX_U64 && MIN_I64 <= position <= MAX_I64
    ensures SaturatingAdd(a, b) == Nearest(a + b, 0, 0xFFFF_FFFF_FFFF_FFFF)
    ensures Less(a, b) == Nearest(a - b, 0, a)
    ensures Moved(position, Buy, quantity) == Nearest(position + quantity, -0x8000_0000_0000_0000, 0x7FFF_FFFF_FFFF_FFFF)
    ensures Moved(position, Sell, quantity) == Nearest(position - quantity, -0x8000_0000_0000_0000, 0x7FFF_FFFF_FFFF_FFFF)
  {
  }
}
