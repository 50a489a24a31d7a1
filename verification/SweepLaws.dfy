/** What matching does, stated without following the loop that does it. */
module SweepLaws {
  import opened ExchangeTypes
  import opened PriceTime

  ghost predicate AllPositive(queue: seq<Order>) {
    forall i :: 0 <= i < |queue| ==> queue[i].remaining > 0
  }

  // ---- Price-time priority as a declaration ------------------------------------------

  // The prices an order may trade at: any for a market order, its limit or better otherwise.
  predicate Accepts(o: Order, price: Price) {
    match (o.kind, o.side)
    case (Market, _) => true
    case (Limit, Buy) => price <= o.price
    case (Limit, Sell) => price >= o.price
  }

  // A trade of the incoming order with this resting one, at the resting price.
  predicate Joins(t: Trade, o: Order, resting: Order) {
    && t.price == resting.price && t.timestamp == o.timestamp
    && match o.side
       case Buy => t.buyId == o.id && t.sellId == resting.id
       case Sell => t.sellId == o.id && t.buyId == resting.id
  }

  /**
   The i-th trade is with the i-th order of the queue, at that order's price; every trade but
   the last fills its order completely; what survives is the rest of the queue; and matching
   only stops early because the incoming order is used up or no longer crosses.
   */
  ghost predicate PriceTimePriority(o: Order, queue: seq<Order>, m: Matched) {
    var n := |m.trades|;
    && n <= |queue|
    && (forall i :: 0 <= i < n ==>
          Accepts(o, queue[i].price) && Joins(m.trades[i], o, queue[i]))
    && (forall i :: 0 <= i < n - 1 ==> m.trades[i].quantity == queue[i].remaining)
    && (n > 0 ==> 0 < m.trades[n - 1].quantity <= queue[n - 1].remaining)
    && m.rest == Survivors(queue, m.trades)
    && Traded(m.trades) + m.left == o.remaining
    && (m.left > 0 ==>
          && (n > 0 ==> m.trades[n - 1].quantity == queue[n - 1].remaining)
          && (n < |queue| ==> !Accepts(o, queue[n].price)))
  }

  ghost function Survivors(queue: seq<Order>, trades: seq<Trade>): seq<Order>
    requires |trades| <= |queue|
  {
    var n := |trades|;
    if n > 0 && trades[n - 1].quantity < queue[n - 1].remaining then
      [queue[n - 1].(remaining := queue[n - 1].remaining - trades[n - 1].quantity)] + queue[n..]
    else
      queue[n..]
  }

  // The loop finds a price-time-priority match, and there is only one to find.
  lemma {:induction false} SweepIsTheOnlyPriorityMatch(o: Order, queue: seq<Order>, m: Matched)
    requires AllPositive(queue)
    ensures PriceTimePriority(o, queue, m) <==> m == Sweep(o, queue)
  {
    SweepHasPriority(o, queue);
    if PriceTimePriority(o, queue, m) {
      PriorityIsSweep(o, queue, m);
    }
  }

  lemma {:induction false} SweepHasPriority(o: Order, queue: seq<Order>)
    requires AllPositive(queue)
    ensures PriceTimePriority(o, queue, Sweep(o, queue))
    decreases |queue|
  {
    var m := Sweep(o, queue);
    if o.remaining == 0 || queue == [] || !Crosses(o, queue[0]) {
    } else if o.remaining < queue[0].remaining {
      assert Traded(m.trades) == m.trades[0].quantity + Traded(m.trades[1..]);
    } else {
      var o' := o.(remaining := o.remaining - queue[0].remaining);
      SweepHasPriority(o', queue[1..]);
      PriorityExtends(o, queue, Sweep(o', queue[1..]));
    }
  }

  lemma {:induction false} PriorityExtends(o: Order, queue: seq<Order>, m': Matched)
    requires AllPositive(queue)
    requires queue != [] && Crosses(o, queue[0]) && o.remaining >= queue[0].remaining
    requires PriceTimePriority(o.(remaining := o.remaining - queue[0].remaining), queue[1..], m')
    ensures PriceTimePriority(o, queue, m'.(trades := [Execution(o, queue[0], queue[0].remaining)] + m'.trades))
  {
    hide Sweep, Survivors;
    var o' := o.(remaining := o.remaining - queue[0].remaining);
    var trades := [Execution(o, queue[0], queue[0].remaining)] + m'.trades;
    assert trades[1..] == m'.trades;
    assert queue[1..][|m'.trades|..] == queue[|trades|..];
    assert forall i :: 0 < i < |trades| ==> trades[i] == m'.trades[i - 1];
    assert forall i :: 0 < i < |queue| ==> queue[i] == queue[1..][i - 1];
    forall i | 0 <= i < |trades|
      ensures Crosses(o, queue[i]) && trades[i] == Execution(o, queue[i], trades[i].quantity)
    {
      if i > 0 {
        assert Crosses(o', queue[1..][i - 1]);
        assert m'.trades[i - 1] == Execution(o', queue[1..][i - 1], m'.trades[i - 1].quantity);
      }
    }
    SurvivorsShift(queue, trades);
  }

  lemma {:induction false} PriorityIsSweep(o: Order, queue: seq<Order>, m: Matched)
    requires AllPositive(queue)
    requires PriceTimePriority(o, queue, m)
    ensures m == Sweep(o, queue)
    decreases |queue|
  {
    hide PriceTimePriority, Survivors;
    PriorityAtTheFront(o, queue, m);
    if m.trades == [] {
    } else if o.remaining < queue[0].remaining {
      PriorityPartial(o, queue, m);
    } else {
      PriorityShortens(o, queue, m);
      PriorityIsSweep(o.(remaining := o.remaining - queue[0].remaining), queue[1..], m.(trades := m.trades[1..]));
    }
  }

  lemma PriorityAtTheFront(o: Order, queue: seq<Order>, m: Matched)
    requires PriceTimePriority(o, queue, m)
    ensures if m.trades != [] then queue != []
            else m == Matched([], queue, o.remaining) && (o.remaining > 0 && queue != [] ==> !Crosses(o, queue[0]))
  {
  }

  // An order smaller than the first one in the queue makes one trade.
  lemma {:induction false} PriorityPartial(o: Order, queue: seq<Order>, m: Matched)
    requires AllPositive(queue)
    requires PriceTimePriority(o, queue, m) && m.trades != [] && o.remaining < queue[0].remaining
    ensures m.left == 0 && Crosses(o, queue[0]) && o.remaining > 0
    ensures m.trades == [Execution(o, queue[0], o.remaining)]
    ensures m.rest == [queue[0].(remaining := queue[0].remaining - o.remaining)] + queue[1..]
  {
    hide Sweep;
    TradedPositive(m.trades, queue);
    assert |m.trades| == 1;
    assert m.trades[1..] == [];
  }

  // A larger order uses the first one up, and what follows has priority in the rest of the queue.
  lemma {:induction false} PriorityShortens(o: Order, queue: seq<Order>, m: Matched)
    requires AllPositive(queue)
    requires PriceTimePriority(o, queue, m) && m.trades != [] && o.remaining >= queue[0].remaining
    ensures Crosses(o, queue[0])
    ensures m.trades == [Execution(o, queue[0], queue[0].remaining)] + m.trades[1..]
    ensures PriceTimePriority(o.(remaining := o.remaining - queue[0].remaining), queue[1..], m.(trades := m.trades[1..]))
  {
    hide Sweep, Survivors;
    var n := |m.trades|;
    var trades' := m.trades[1..];
    if n == 1 {
      assert m.trades[1..] == [];
      assert Traded(m.trades) == m.trades[0].quantity;
    }
    assert Traded(m.trades) == m.trades[0].quantity + Traded(trades');
    var o' := o.(remaining := o.remaining - queue[0].remaining);
    var queue' := queue[1..];
    forall i | 0 <= i < n - 1
      ensures Crosses(o', queue'[i]) && trades'[i] == Execution(o', queue'[i], trades'[i].quantity)
    {
      assert Crosses(o, queue[i + 1]) && m.trades[i + 1] == Execution(o, queue[i + 1], m.trades[i + 1].quantity);
    }
    forall i | 0 <= i < n - 2
      ensures trades'[i].quantity == queue'[i].remaining
    {
      assert m.trades[i + 1].quantity == queue[i + 1].remaining;
    }
    SurvivorsShift(queue, m.trades);
  }

  // A first order used up leaves the survivors of the rest.
  lemma {:induction false} SurvivorsShift(queue: seq<Order>, trades: seq<Trade>)
    requires 0 < |trades| <= |queue| && trades[0].quantity == queue[0].remaining
    ensures Survivors(queue, trades) == Survivors(queue[1..], trades[1..])
  {
    var n := |trades|;
    assert queue[1..][n - 1..] == queue[n..];
    if n > 1 {
      assert queue[1..][n - 2] == queue[n - 1] && trades[1..][n - 2] == trades[n - 1];
    }
  }

  lemma {:induction false} TradedPositive(trades: seq<Trade>, queue: seq<Order>)
    requires 0 < |trades| <= |queue|
    requires AllPositive(queue)
    requires forall i :: 0 <= i < |trades| - 1 ==> trades[i].quantity == queue[i].remaining
    requires 0 < trades[|trades| - 1].quantity
    ensures Traded(trades) >= trades[0].quantity > 0
  {
  }

  // ---- Quantities ---------------------------------------------------------------------

  // Nothing is created or lost: the opposite side shrinks by exactly what was traded.
  lemma {:induction false} SweepConserves(o: Order, queue: seq<Order>)
    ensures var m := Sweep(o, queue);
      && Traded(m.trades) + m.left == o.remaining
      && Traded(m.trades) + Total(m.rest) == Total(queue)
    decreases |queue|
  {
    var m := Sweep(o, queue);
    if o.remaining == 0 || queue == [] || !Crosses(o, queue[0]) {
    } else if o.remaining < queue[0].remaining {
      assert m.trades[1..] == [];
      assert m.rest[1..] == queue[1..];
    } else {
      var m' := Sweep(o.(remaining := o.remaining - queue[0].remaining), queue[1..]);
      SweepConserves(o.(remaining := o.remaining - queue[0].remaining), queue[1..]);
      assert m.trades[1..] == m'.trades;
    }
  }

  // What matching leaves over is exactly what the crossing liquidity could not cover.
  lemma {:induction false} SweepLeaves(o: Order, queue: seq<Order>)
    ensures Sweep(o, queue).left == if Available(o, queue) < o.remaining then o.remaining - Available(o, queue) else 0
    decreases |queue|
  {
    if o.remaining == 0 || queue == [] || !Crosses(o, queue[0]) {
    } else if o.remaining >= queue[0].remaining {
      var o' := o.(remaining := o.remaining - queue[0].remaining);
      SweepLeaves(o', queue[1..]);
      AvailableIgnoresSize(o, o', queue[1..]);
    }
  }

  lemma {:induction false} AvailableIgnoresSize(o: Order, o': Order, queue: seq<Order>)
    requires o' == o.(remaining := o'.remaining)
    ensures Available(o, queue) == Available(o', queue)
  {
    if queue != [] {
      AvailableIgnoresSize(o, o', queue[1..]);
    }
  }
}
