/** What the risk bookkeeping means: caches that mirror the working orders, and limits that hold. */
module RiskLaws {
  import opened ExchangeTypes
  import opened Risk

  // ---- Sums over the working orders -------------------------------------------------------

  // What can be measured of the working orders: each cached aggregate is one of these.
  datatype Measure = Count(client: ClientId) | Gross(client: ClientId) | Open(client: ClientId, symbol: Symbol, side: Side)

  function Weight(m: Measure, k: Key, w: Working): nat {
    match m
    case Count(c) => if k.client == c then 1 else 0
    case Gross(c) => if k.client == c then w.remaining else 0
    case Open(c, s, side) => if k.client == c && k.symbol == s && w.side == side then w.remaining else 0
  }

  ghost function Sum(working: map<Key, Working>, m: Measure): nat
    decreases working.Keys
  {
    if working == map[] then 0
    else
      var k :| k in working;
      var rest := working - {k};
      assert rest.Keys < working.Keys;
      Weight(m, k, working[k]) + Sum(rest, m)
  }

  lemma {:induction false} SumWithout(working: map<Key, Working>, k: Key, m: Measure)
    requires k in working
    ensures Sum(working, m) == Weight(m, k, working[k]) + Sum(working - {k}, m)
    decreases working.Keys
  {
    var k' :| k' in working && Sum(working, m) == Weight(m, k', working[k']) + Sum(working - {k'}, m);
    if k' != k {
      assert (working - {k'}).Keys < working.Keys;
      assert (working - {k}).Keys < working.Keys;
      SumWithout(working - {k'}, k, m);
      SumWithout(working - {k}, k', m);
      assert working - {k'} - {k} == working - {k} - {k'};
    }
  }

  lemma {:induction false} SumWith(working: map<Key, Working>, k: Key, w: Working, m: Measure)
    ensures Sum(working[k := w], m) ==
      Sum(working, m) + Weight(m, k, w) - if k in working then Weight(m, k, working[k]) else 0
  {
    SumWithout(working[k := w], k, m);
    assert working[k := w] - {k} == working - {k};
    if k in working {
      SumWithout(working, k, m);
    } else {
      assert working - {k} == working;
    }
  }

  // ---- The caches mirror the working orders ------------------------------------------------

  function Cached(r: RiskState, m: Measure): nat {
    match m
    case Count(c) => ClientOf(r, c).openOrders
    case Gross(c) => ClientOf(r, c).gross
    case Open(c, s, side) => OpenOn(SymbolOf(r, c, s), side)
  }

  ghost predicate Sound(r: RiskState) {
    && (forall m: Measure :: Cached(r, m) == Sum(r.working, m))
    && (forall k :: k in r.working ==> r.working[k].remaining > 0 && k.client != NO_CLIENT)
  }

  // A working order never weighs more than its aggregate, so no clamp fires.
  lemma {:induction false} NoClamp(r: RiskState, k: Key, m: Measure)
    requires Sound(r) && k in r.working
    ensures Weight(m, k, r.working[k]) <= Cached(r, m)
  {
    SumWithout(r.working, k, m);
  }

  function PositionOf(r: RiskState, c: ClientId, s: Symbol): int {
    SymbolOf(r, c, s).position
  }

  ghost predicate SamePositions(r: RiskState, r': RiskState) {
    forall c, s :: PositionOf(r', c, s) == PositionOf(r, c, s)
  }

  // Only what the bookkeeping is about may differ: neither the limits nor any switch.
  ghost predicate SameSettings(r: RiskState, r': RiskState) {
    && r'.limits == r.limits && r'.globalKill == r.globalKill
    && forall c :: ClientOf(r', c).killSwitch == ClientOf(r, c).killSwitch
  }

  lemma SameSettingsHere(r: RiskState)
    ensures SameSettings(r, r)
  {
  }

  lemma ComposeSettings(a: RiskState, b: RiskState, c: RiskState)
    requires SameSettings(a, b)
    ensures a.limits == b.limits
    ensures SameSettings(b, c) ==> SameSettings(a, c)
  {
    if SameSettings(b, c) {
      forall k ensures ClientOf(c, k).killSwitch == ClientOf(a, k).killSwitch {
        assert ClientOf(c, k).killSwitch == ClientOf(b, k).killSwitch;
      }
    }
  }

  lemma {:induction false} Mirrored(r: RiskState, k: Key)
    requires Sound(r) && k in r.working
    ensures k.client in r.clients && k.symbol in r.clients[k.client].symbols
  {
    NoClamp(r, k, Count(k.client));
    NoClamp(r, k, Open(k.client, k.symbol, r.working[k].side));
  }

  lemma {:induction false} EraseMirrors(r: RiskState, k: Key)
    requires Sound(r)
    ensures var r' := Erase(r, k);
      && Sound(r') && SamePositions(r, r') && SameSettings(r, r')
      && r'.working == r.working - {k}
  {
    if k in r.working {
      Mirrored(r, k);
      ErasePositions(r, k);
      hide Erase, Cached;
      forall m: Measure
        ensures Cached(Erase(r, k), m) == Sum(r.working - {k}, m)
      {
        SumWithout(r.working, k, m);
        EraseCached(r, k, m);
      }
    } else {
      assert r.working - {k} == r.working;
    }
  }

  lemma ErasePositions(r: RiskState, k: Key)
    requires k in r.working && k.client in r.clients && k.symbol in r.clients[k.client].symbols
    ensures var r' := Erase(r, k);
      SamePositions(r, r') && SameSettings(r, r') && r'.working == r.working - {k}
  {
  }

  lemma {:induction false} EraseCached(r: RiskState, k: Key, m: Measure)
    requires Sound(r) && k in r.working
    ensures Cached(Erase(r, k), m) == Cached(r, m) - Weight(m, k, r.working[k])
  {
    NoClamp(r, k, m);
    Mirrored(r, k);
  }

  // The working orders after an execution, as a map and nothing else.
  function Shrink(working: map<Key, Working>, k: Key, executed: Quantity): map<Key, Working> {
    if k !in working then working
    else if working[k].remaining <= executed then working - {k}
    else working[k := working[k].(remaining := working[k].remaining - executed)]
  }

  lemma {:induction false} ReduceMirrors(r: RiskState, k: Key, executed: Quantity)
    requires Sound(r)
    ensures var r' := Reduce(r, k, executed);
      && Sound(r') && SamePositions(r, r') && SameSettings(r, r')
      && r'.working == Shrink(r.working, k, executed)
  {
    if k in r.working {
      Mirrored(r, k);
      forall m: Measure
        ensures Cached(Reduce(r, k, executed), m) == Sum(Shrink(r.working, k, executed), m)
      {
        ReduceCached(r, k, executed, m);
        SumWithout(r.working, k, m);
        SumWith(r.working, k, r.working[k].(remaining := Less(r.working[k].remaining, executed)), m);
      }
    }
  }

  lemma {:induction false} ReduceCached(r: RiskState, k: Key, executed: Quantity, m: Measure)
    requires Sound(r) && k in r.working
    ensures var w := r.working[k];
      Cached(Reduce(r, k, executed), m) == Cached(r, m) - Weight(m, k, w) +
        if w.remaining <= executed then 0 else Weight(m, k, w.(remaining := w.remaining - executed))
  {
    NoClamp(r, k, m);
    Mirrored(r, k);
  }

  lemma {:induction false} RestingMirrors(r: RiskState, k: Key, w: Working)
    requires Sound(r) && k !in r.working && k.client != NO_CLIENT && w.remaining > 0
    requires Cached(r, Gross(k.client)) + w.remaining <= MAX_U64
    ensures var r' := OrderResting(r, k, w);
      && Sound(r') && SamePositions(r, r') && SameSettings(r, r')
      && r'.working == r.working[k := w]
  {
    OpenWithinGross(r.working, k.client, k.symbol, w.side);
    assert Cached(r, Open(k.client, k.symbol, w.side)) <= Cached(r, Gross(k.client));
    forall m: Measure
      ensures Cached(OrderResting(r, k, w), m) == Sum(r.working[k := w], m)
    {
      SumWith(r.working, k, w, m);
      RestingCached(r, k, w, m);
    }
  }

  lemma {:induction false} RestingCached(r: RiskState, k: Key, w: Working, m: Measure)
    requires k !in r.working && k.client != NO_CLIENT && w.remaining > 0
    requires Cached(r, Gross(k.client)) + w.remaining <= MAX_U64
    requires Cached(r, Open(k.client, k.symbol, w.side)) <= Cached(r, Gross(k.client))
    ensures Cached(OrderResting(r, k, w), m) == Cached(r, m) + Weight(m, k, w)
  {
  }

  lemma {:induction false} OpenWithinGross(working: map<Key, Working>, c: ClientId, s: Symbol, side: Side)
    ensures Sum(working, Open(c, s, side)) <= Sum(working, Gross(c))
    decreases working.Keys
  {
    if working != map[] {
      var k :| k in working;
      assert (working - {k}).Keys < working.Keys;
      OpenWithinGross(working - {k}, c, s, side);
      SumWithout(working, k, Open(c, s, side));
      SumWithout(working, k, Gross(c));
    }
  }

  // ---- Trades --------------------------------------------------------------------------------

  function Signed(side: Side, quantity: int): int {
    if side.Buy? then quantity else -quantity
  }

  // One side of a trade, when the position has room to move: the position moves by exactly the
  // quantity, and only the order that traded shrinks.
  lemma {:induction false} LegMirrors(r: RiskState, k: Key, side: Side, quantity: Quantity)
    requires Sound(r) && k.client != NO_CLIENT
    requires MIN_I64 <= PositionOf(r, k.client, k.symbol) + Signed(side, quantity) <= MAX_I64
    ensures var r' := Leg(r, k, side, quantity);
      && Sound(r') && SameSettings(r, r')
      && r'.working == Shrink(r.working, k, quantity)
      && (forall c, s :: PositionOf(r', c, s) ==
            PositionOf(r, c, s) + if c == k.client && s == k.symbol then Signed(side, quantity) else 0)
  {
    var client := ClientOf(r, k.client);
    var state := SymbolOf(r, k.client, k.symbol);
    var moved := state.(position := Moved(state.position, side, quantity));
    var mid := r.(clients := r.clients[k.client := client.(symbols := client.symbols[k.symbol := moved])]);
    assert Sound(mid) by {
      forall m: Measure ensures Cached(mid, m) == Cached(r, m) {}
    }
    ReduceMirrors(mid, k, quantity);
  }
}
