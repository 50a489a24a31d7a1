/** The limits: what an accepted check guarantees, and that no later event takes it back. */
module LimitLaws {
  import opened ExchangeTypes
  import opened Risk
  import opened RiskLaws

  // Limits under which none of the 64-bit counters can saturate.
  predicate Modest(limits: Limits) {
    limits.maxPosition <= MAX_I64 && limits.maxOpenQuantity < MAX_U64
  }

  // The position a client would reach if everything it has open on this side executed.
  function Exposure(r: RiskState, c: ClientId, s: Symbol, side: Side): int {
    Signed(side, PositionOf(r, c, s)) + Cached(r, Open(c, s, side))
  }

  ghost predicate WithinLimits(r: RiskState) {
    && (forall c, s, side :: Exposure(r, c, s, side) <= r.limits.maxPosition)
    && (forall c :: Cached(r, Count(c)) <= r.limits.maxOpenOrders)
    && (forall c :: Cached(r, Gross(c)) <= r.limits.maxOpenQuantity)
  }

  lemma PositionIsBounded(r: RiskState, c: ClientId, s: Symbol)
    requires WithinLimits(r)
    ensures 0 - r.limits.maxPosition <= PositionOf(r, c, s) <= r.limits.maxPosition
  {
    assert Exposure(r, c, s, Buy) <= r.limits.maxPosition;
    assert Exposure(r, c, s, Sell) <= r.limits.maxPosition;
  }

  // A client may add this much on this side (clients without a session are not tracked).
  predicate Room(r: RiskState, c: ClientId, s: Symbol, side: Side, quantity: Quantity) {
    c == NO_CLIENT || Exposure(r, c, s, side) + quantity <= r.limits.maxPosition
  }

  predicate RoomToRest(r: RiskState, c: ClientId, quantity: Quantity) {
    && Cached(r, Count(c)) < r.limits.maxOpenOrders
    && Cached(r, Gross(c)) + quantity <= r.limits.maxOpenQuantity
  }

  // ---- The checks are exact ------------------------------------------------------------------

  /** Saturation and the case split on the sign of the position make no difference. */
  lemma {:induction false} PositionCheckIsExact(limits: Limits, position: int, side: Side, quantity: Quantity, open: nat)
    requires Modest(limits) && -MAX_I64 <= position <= MAX_I64
    ensures PositionLimitExceeded(limits, position, side, quantity, open) <==>
      Signed(side, position) + open + quantity > limits.maxPosition
  {
  }

  lemma {:induction false} AcceptedNewHasRoom(r: RiskState, q: NewRequest)
    requires Modest(r.limits) && WithinLimits(r)
    requires CheckNew(r, q) == Accept
    ensures Room(r, q.client, q.symbol, q.side, q.quantity)
    ensures q.kind.Limit? && q.tif.GoodTillCancel? ==> RoomToRest(r, q.client, q.quantity)
  {
    PositionIsBounded(r, q.client, q.symbol);
    var state := SymbolOf(r, q.client, q.symbol);
    PositionCheckIsExact(r.limits, state.position, q.side, q.quantity, OpenOn(state, q.side));
  }

  /** Taking the old order out after an accepted replacement leaves room for the whole new one. */
  lemma {:induction false} AcceptedReplaceHasRoom(r: RiskState, k: Key, price: Price, quantity: Quantity)
    requires Modest(r.limits) && WithinLimits(r) && Sound(r)
    requires CheckReplace(r, k, price, quantity) == Accept
    ensures k in r.working
    ensures var r' := OrderCancelled(r, k);
      && Sound(r') && WithinLimits(r') && SameSettings(r, r') && SamePositions(r, r')
      && r'.working == r.working - {k}
      && Room(r', k.client, k.symbol, r.working[k].side, quantity)
      && RoomToRest(r', k.client, quantity)
  {
    PositionIsBounded(r, k.client, k.symbol);
    var side := r.working[k].side;
    var state := SymbolOf(r, k.client, k.symbol);
    PositionCheckIsExact(r.limits, state.position, side, quantity, Less(OpenOn(state, side), r.working[k].remaining));
    CancelLowers(r, k);
    NoClamp(r, k, Count(k.client));
    NoClamp(r, k, Gross(k.client));
    NoClamp(r, k, Open(k.client, k.symbol, side));
  }

  lemma DividedAway(quantity: nat, magnitude: nat, limit: nat)
    requires magnitude > 0
    ensures quantity > limit / magnitude <==> quantity * magnitude > limit
  {
    var share := limit / magnitude;
    assert limit == share * magnitude + limit % magnitude;
    OneMoreTime(share, quantity, magnitude);
    OneMoreTime(quantity, share, magnitude);
  }

  /** The division that avoids an overflow refuses exactly when quantity times price is over the limit. */
  lemma {:induction false} OrderLimitsAreExact(limits: Limits, price: Price, quantity: Quantity, reference: Option<Price>)
    ensures CheckCommon(limits, price, quantity, reference) == Accept <==>
      && quantity <= limits.maxOrderQuantity
      && quantity * Magnitude(if reference.Some? then reference.value else price) <= limits.maxOrderNotional
  {
    var magnitude := Magnitude(if reference.Some? then reference.value else price);
    if magnitude != 0 {
      DividedAway(quantity, magnitude, limits.maxOrderNotional);
    }
  }

  // Neither switch stops the client.
  predicate Trading(r: RiskState, c: ClientId) {
    !r.globalKill && !ClientOf(r, c).killSwitch
  }

  /** A new order is accepted exactly when no switch is on and it fits every limit. */
  lemma {:induction false} NewAcceptedExactly(r: RiskState, q: NewRequest)
    requires Modest(r.limits) && WithinLimits(r)
    ensures CheckNew(r, q) == Accept <==>
      && Trading(r, q.client)
      && CheckCommon(r.limits, q.price, q.quantity, q.reference) == Accept
      && Exposure(r, q.client, q.symbol, q.side) + q.quantity <= r.limits.maxPosition
      && (q.kind.Limit? && q.tif.GoodTillCancel? ==> RoomToRest(r, q.client, q.quantity))
  {
    hide CheckCommon, PositionLimitExceeded;
    PositionIsBounded(r, q.client, q.symbol);
    var state := SymbolOf(r, q.client, q.symbol);
    PositionCheckIsExact(r.limits, state.position, q.side, q.quantity, OpenOn(state, q.side));
  }

  /**
   A replacement is accepted exactly when the order is working and the new one, the old taken away,
   fits every limit.
   */
  lemma {:induction false} ReplaceAcceptedExactly(r: RiskState, k: Key, price: Price, quantity: Quantity)
    requires Modest(r.limits) && WithinLimits(r) && Sound(r)
    ensures CheckReplace(r, k, price, quantity) == Accept <==>
      && k in r.working && Trading(r, k.client)
      && CheckCommon(r.limits, price, quantity, None) == Accept
      && var r' := OrderCancelled(r, k);
         && Exposure(r', k.client, k.symbol, r.working[k].side) + quantity <= r.limits.maxPosition
         && RoomToRest(r', k.client, quantity)
  {
    hide CheckCommon, PositionLimitExceeded, OrderCancelled;
    if k in r.working {
      var side := r.working[k].side;
      var state := SymbolOf(r, k.client, k.symbol);
      var r' := OrderCancelled(r, k);
      Mirrored(r, k);
      PositionIsBounded(r, k.client, k.symbol);
      NoClamp(r, k, Count(k.client));
      NoClamp(r, k, Gross(k.client));
      NoClamp(r, k, Open(k.client, k.symbol, side));
      CancelLowers(r, k);
      assert Cached(r', Count(k.client)) == Cached(r, Count(k.client)) - 1;
      assert Cached(r', Gross(k.client)) == Cached(r, Gross(k.client)) - r.working[k].remaining;
      assert Cached(r', Open(k.client, k.symbol, side)) == OpenOn(state, side) - r.working[k].remaining;
      assert PositionOf(r', k.client, k.symbol) == PositionOf(r, k.client, k.symbol);
      assert Cached(r, Count(k.client)) <= r.limits.maxOpenOrders;
      PositionCheckIsExact(r.limits, state.position, side, quantity, Less(OpenOn(state, side), r.working[k].remaining));
    }
  }

  // ---- Events ----------------------------------------------------------------------------------

  // No exposure and no aggregate is higher than before.
  ghost predicate NoHigher(r: RiskState, r': RiskState) {
    && (forall c, s, side :: Exposure(r', c, s, side) <= Exposure(r, c, s, side))
    && (forall c :: Cached(r', Count(c)) <= Cached(r, Count(c)))
    && (forall c :: Cached(r', Gross(c)) <= Cached(r, Gross(c)))
  }

  lemma {:induction false} CancelLowers(r: RiskState, k: Key)
    requires Sound(r)
    ensures var r' := OrderCancelled(r, k);
      && Sound(r') && SameSettings(r, r') && SamePositions(r, r')
      && r'.working == r.working - {k}
      && NoHigher(r, r')
      && (forall m: Measure :: Cached(r', m) == Cached(r, m) - if k in r.working then Weight(m, k, r.working[k]) else 0)
  {
    EraseMirrors(r, k);
    var r' := OrderCancelled(r, k);
    if k.client == NO_CLIENT {
      assert r.working - {k} == r.working;
    }
    forall m: Measure
      ensures Cached(r', m) == Cached(r, m) - if k in r.working then Weight(m, k, r.working[k]) else 0
    {
      assert Cached(r', m) == Sum(r'.working, m);
      if k in r.working {
        SumWithout(r.working, k, m);
      }
    }
    forall c, s, side
      ensures Exposure(r', c, s, side) <= Exposure(r, c, s, side)
    {
      assert PositionOf(r', c, s) == PositionOf(r, c, s);
      assert Cached(r', Open(c, s, side)) <= Cached(r, Open(c, s, side));
    }
  }

  // What one leg of a trade does to every exposure.
  lemma {:induction false} LegExposure(r: RiskState, k: Key, side: Side, quantity: Quantity, c: ClientId, s: Symbol, on: Side)
    requires Sound(r) && k.client != NO_CLIENT
    requires MIN_I64 <= PositionOf(r, k.client, k.symbol) + Signed(side, quantity) <= MAX_I64
    requires k in r.working ==> r.working[k].side == side && quantity <= r.working[k].remaining
    ensures Exposure(Leg(r, k, side, quantity), c, s, on) == Exposure(r, c, s, on) +
      if c != k.client || s != k.symbol then 0
      else if on != side then 0 - quantity
      else if k in r.working then 0
      else quantity
  {
    LegMirrors(r, k, side, quantity);
    var r' := Leg(r, k, side, quantity);
    ShrinkSum(r.working, k, quantity, Open(c, s, on));
    assert Cached(r', Open(c, s, on)) == Sum(r'.working, Open(c, s, on));
  }

  lemma {:induction false} ShrinkSum(working: map<Key, Working>, k: Key, executed: Quantity, m: Measure)
    requires k in working ==> executed <= working[k].remaining
    ensures Sum(Shrink(working, k, executed), m) == Sum(working, m) -
      (if k !in working then 0
       else if working[k].remaining == executed then Weight(m, k, working[k])
       else Weight(m, k, working[k]) - Weight(m, k, working[k].(remaining := working[k].remaining - executed)))
  {
    if k in working {
      SumWithout(working, k, m);
      SumWith(working, k, working[k].(remaining := working[k].remaining - executed), m);
    }
  }

  lemma {:induction false} LegLowersAggregates(r: RiskState, k: Key, side: Side, quantity: Quantity)
    requires Sound(r) && k.client != NO_CLIENT
    requires MIN_I64 <= PositionOf(r, k.client, k.symbol) + Signed(side, quantity) <= MAX_I64
    requires k in r.working ==> quantity <= r.working[k].remaining
    ensures var r' := Leg(r, k, side, quantity);
      && (forall c :: Cached(r', Count(c)) <= Cached(r, Count(c)))
      && (forall c :: Cached(r', Gross(c)) <= Cached(r, Gross(c)))
  {
    LegMirrors(r, k, side, quantity);
    var r' := Leg(r, k, side, quantity);
    forall c
      ensures Cached(r', Count(c)) <= Cached(r, Count(c)) && Cached(r', Gross(c)) <= Cached(r, Gross(c))
    {
      ShrinkSum(r.working, k, quantity, Count(c));
      ShrinkSum(r.working, k, quantity, Gross(c));
      assert Cached(r', Count(c)) == Sum(r'.working, Count(c));
      assert Cached(r', Gross(c)) == Sum(r'.working, Gross(c));
    }
  }

  // The resting side of a trade: what leaves its open quantity enters its position.
  lemma {:induction false} RestingLeg(r: RiskState, k: Key, side: Side, quantity: Quantity)
    requires Sound(r) && WithinLimits(r) && Modest(r.limits)
    requires k.client != NO_CLIENT ==>
      k in r.working && r.working[k].side == side && quantity <= r.working[k].remaining
    ensures var r' := Leg(r, k, side, quantity);
      && Sound(r') && NoHigher(r, r') && SameSettings(r, r')
      && r'.working == (if k.client == NO_CLIENT then r.working else Shrink(r.working, k, quantity))
      && (forall c, s :: PositionOf(r', c, s) == PositionOf(r, c, s) +
            if c == k.client && c != NO_CLIENT && s == k.symbol then Signed(side, quantity) else 0)
  {
    if k.client != NO_CLIENT {
      PositionIsBounded(r, k.client, k.symbol);
      NoClamp(r, k, Open(k.client, k.symbol, side));
      assert Exposure(r, k.client, k.symbol, side) <= r.limits.maxPosition;
      LegMirrors(r, k, side, quantity);
      LegLowersAggregates(r, k, side, quantity);
      forall c, s, on
        ensures Exposure(Leg(r, k, side, quantity), c, s, on) <= Exposure(r, c, s, on)
      {
        LegExposure(r, k, side, quantity, c, s, on);
      }
    }
  }

  // The incoming side of a trade uses up the room its check reserved.
  lemma {:induction false} IncomingLeg(r: RiskState, k: Key, side: Side, quantity: Quantity, pending: Quantity)
    requires Sound(r) && WithinLimits(r) && Modest(r.limits)
    requires k !in r.working && quantity <= pending && Room(r, k.client, k.symbol, side, pending)
    ensures var r' := Leg(r, k, side, quantity);
      && Sound(r') && WithinLimits(r') && SameSettings(r, r')
      && Room(r', k.client, k.symbol, side, pending - quantity)
      && r'.working == r.working
      && (forall c :: Cached(r', Count(c)) <= Cached(r, Count(c)))
      && (forall c :: Cached(r', Gross(c)) <= Cached(r, Gross(c)))
      && (forall c, s :: PositionOf(r', c, s) == PositionOf(r, c, s) +
            if c == k.client && c != NO_CLIENT && s == k.symbol then Signed(side, quantity) else 0)
  {
    if k.client != NO_CLIENT {
      PositionIsBounded(r, k.client, k.symbol);
      LegMirrors(r, k, side, quantity);
      LegLowersAggregates(r, k, side, quantity);
      forall c, s, on
        ensures Exposure(Leg(r, k, side, quantity), c, s, on) <= r.limits.maxPosition
      {
        LegExposure(r, k, side, quantity, c, s, on);
      }
      LegExposure(r, k, side, quantity, k.client, k.symbol, side);
    }
  }

  /**
   A trade within the reserved room keeps every cache a mirror and every limit, whoever the two
   parties are, one and the same client included.
   */
  lemma {:induction false} TradeKeepsLimits(r: RiskState, s: Symbol, incoming: Key, resting: Key, side: Side, t: Trade, pending: Quantity)
    requires Sound(r) && WithinLimits(r) && Modest(r.limits)
    requires incoming.symbol == s == resting.symbol && incoming !in r.working
    requires t.buyId == (if side.Buy? then incoming else resting).id
    requires t.sellId == (if side.Buy? then resting else incoming).id
    requires 0 < t.quantity <= pending && Room(r, incoming.client, s, side, pending)
    requires resting.client != NO_CLIENT ==>
      resting in r.working && r.working[resting].side == side.Opposite() && t.quantity <= r.working[resting].remaining
    ensures var buyer, seller := if side.Buy? then incoming.client else resting.client, if side.Buy? then resting.client else incoming.client;
      var r' := TradeDone(r, s, buyer, seller, t);
      && Sound(r') && WithinLimits(r') && SameSettings(r, r')
      && r'.working == (if resting.client == NO_CLIENT then r.working else Shrink(r.working, resting, t.quantity))
      && Room(r', incoming.client, s, side, pending - t.quantity)
      && (forall c :: Cached(r', Count(c)) <= Cached(r, Count(c)))
      && (forall c :: Cached(r', Gross(c)) <= Cached(r, Gross(c)))
      && (forall c, s' :: PositionOf(r', c, s') == PositionOf(r, c, s') + TradeDelta(buyer, seller, s, t, c, s'))
  {
    hide Sound, Modest, WithinLimits, SameSettings, NoHigher, Leg;
    if side.Buy? {
      IncomingLeg(r, incoming, Buy, t.quantity, pending);
      var mid := Leg(r, incoming, Buy, t.quantity);
      ComposeSettings(r, mid, Leg(mid, resting, Sell, t.quantity));
      RestingLeg(mid, resting, Sell, t.quantity);
      LowerStaysWithin(mid, Leg(mid, resting, Sell, t.quantity), incoming.client, s, Buy, pending - t.quantity);
    } else {
      RestingLeg(r, resting, Buy, t.quantity);
      var mid := Leg(r, resting, Buy, t.quantity);
      ComposeSettings(r, mid, Leg(mid, incoming, Sell, t.quantity));
      LowerStaysWithin(r, mid, incoming.client, s, Sell, pending);
      IncomingLeg(mid, incoming, Sell, t.quantity, pending);
    }
  }

  lemma {:induction false} LowerStaysWithin(r: RiskState, r': RiskState, c: ClientId, s: Symbol, side: Side, pending: Quantity)
    requires WithinLimits(r) && NoHigher(r, r') && SameSettings(r, r') && Room(r, c, s, side, pending)
    ensures WithinLimits(r') && Room(r', c, s, side, pending)
  {
    forall c, s, on ensures Exposure(r', c, s, on) <= r'.limits.maxPosition {
      assert Exposure(r', c, s, on) <= Exposure(r, c, s, on);
    }
    forall c
      ensures Cached(r', Count(c)) <= r'.limits.maxOpenOrders && Cached(r', Gross(c)) <= r'.limits.maxOpenQuantity
    {
      assert Cached(r', Count(c)) <= Cached(r, Count(c)) && Cached(r', Gross(c)) <= Cached(r, Gross(c));
    }
    assert Exposure(r', c, s, side) <= Exposure(r, c, s, side);
  }

  // The position change a trade means for a client in a symbol.
  function TradeDelta(buyer: ClientId, seller: ClientId, s: Symbol, t: Trade, c: ClientId, s': Symbol): int {
    if c == NO_CLIENT || s' != s then 0
    else (if c == buyer then t.quantity else 0) - (if c == seller then t.quantity else 0)
  }

  lemma {:induction false} RestingKeepsLimits(r: RiskState, k: Key, w: Working)
    requires Sound(r) && WithinLimits(r) && Modest(r.limits)
    requires k !in r.working && w.remaining > 0
    requires Room(r, k.client, k.symbol, w.side, w.remaining)
    requires k.client != NO_CLIENT ==> RoomToRest(r, k.client, w.remaining)
    ensures var r' := OrderResting(r, k, w);
      && Sound(r') && WithinLimits(r') && SameSettings(r, r') && SamePositions(r, r')
      && r'.working == if k.client == NO_CLIENT then r.working else r.working[k := w]
  {
    if k.client != NO_CLIENT {
      var r' := OrderResting(r, k, w);
      RestingMirrors(r, k, w);
      forall m: Measure ensures Cached(r', m) == Cached(r, m) + Weight(m, k, w) {
        SumWith(r.working, k, w, m);
        assert Cached(r', m) == Sum(r'.working, m);
      }
      forall c, s, side ensures Exposure(r', c, s, side) <= r.limits.maxPosition {
        assert PositionOf(r', c, s) == PositionOf(r, c, s);
        assert Exposure(r, c, s, side) <= r.limits.maxPosition;
        assert Cached(r', Open(c, s, side)) == Cached(r, Open(c, s, side)) + Weight(Open(c, s, side), k, w);
      }
    }
  }
}
