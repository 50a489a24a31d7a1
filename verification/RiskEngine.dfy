/** The risk engine as an object: its maps are updated in place, following the functions of Risk. */
module RiskEngines {
  import opened ExchangeTypes
  import opened Risk

  lemma PutTwice<K, V>(m: map<K, V>, k: K, v: V, w: V)
    ensures m[k := v][k := w] == m[k := w]
  {
  }

  lemma PutSame<K, V>(m: map<K, V>, k: K)
    requires k in m
    ensures m[k := m[k]] == m
  {
  }

  class RiskEngine {
    const limits: Limits
    var globalKillSwitch: bool
    var clients: map<ClientId, ClientState>
    var workingOrders: map<Key, Working>

    function State(): RiskState
      reads this
    {
      RiskState(limits, globalKillSwitch, clients, workingOrders)
    }

    constructor (limits: Limits)
      ensures State() == RiskState(limits, false, map[], map[])
    {
      this.limits := limits;
      globalKillSwitch := false;
      clients, workingOrders := map[], map[];
    }

    function CheckNewOrder(request: NewRequest): Decision
      reads this
    {
      CheckNew(State(), request)
    }

    function CheckReplaceOrder(key: Key, price: Price, quantity: Quantity): Decision
      reads this
    {
      CheckReplace(State(), key, price, quantity)
    }

    method SetGlobalKillSwitch(enabled: bool)
      modifies this
      ensures State() == old(State()).(globalKill := enabled)
    {
      globalKillSwitch := enabled;
    }

    method SetClientKillSwitch(client: ClientId, enabled: bool)
      modifies this
      ensures State() == if client == NO_CLIENT then old(State()) else
        old(State()).(clients := old(clients)[client := ClientOf(old(State()), client).(killSwitch := enabled)])
    {
      if client == NO_CLIENT {
        return;
      }
      ClientFor(client);
      clients := clients[client := clients[client].(killSwitch := enabled)];
    }

    // Make sure the client has a state to update.
    method ClientFor(client: ClientId)
      modifies this`clients
      ensures clients == old(clients)[client := ClientOf(old(State()), client)]
    {
      if client !in clients {
        clients := clients[client := NEW_CLIENT];
      }
    }

    method SymbolFor(client: ClientId, symbol: Symbol)
      modifies this`clients
      ensures clients == old(clients)[client :=
        ClientOf(old(State()), client).(
          symbols := ClientOf(old(State()), client).symbols[symbol := SymbolOf(old(State()), client, symbol)])]
    {
      ClientFor(client);
      if symbol !in clients[client].symbols {
        PutSymbol(client, symbol, NEW_SYMBOL);
      } else {
        PutSame(clients[client].symbols, symbol);
        PutSame(clients, client);
      }
    }

    method PutSymbol(client: ClientId, symbol: Symbol, state: SymbolState)
      requires client in clients
      modifies this`clients
      ensures clients == old(clients)[client := old(clients)[client].(symbols := old(clients)[client].symbols[symbol := state])]
    {
      clients := clients[client := clients[client].(symbols := clients[client].symbols[symbol := state])];
    }

    method OnOrderResting(key: Key, order: Working)
      modifies this
      ensures State() == OrderResting(old(State()), key, order)
    {
      if key.client == NO_CLIENT || order.remaining == 0 {
        return;
      }
      EraseWorkingOrder(key);
      hide Erase, SaturatingAdd, WithOpen, OpenOn;
      AddExposure(key, order.side, order.remaining);
      workingOrders := workingOrders[key := order];
    }

    // One more open order of this client, with this much on its side.
    method AddExposure(key: Key, side: Side, quantity: Quantity)
      modifies this`clients
      ensures var client := ClientOf(old(State()), key.client);
        var state := SymbolOf(old(State()), key.client, key.symbol);
        clients == old(clients)[key.client := client.(
          openOrders := client.openOrders + 1,
          gross := SaturatingAdd(client.gross, quantity),
          symbols := client.symbols[key.symbol := WithOpen(state, side, SaturatingAdd(OpenOn(state, side), quantity))])]
    {
      ghost var symbols := ClientOf(State(), key.client).symbols;
      SymbolFor(key.client, key.symbol);
      var client := clients[key.client];
      clients := clients[key.client := client.(
        openOrders := client.openOrders + 1,
        gross := SaturatingAdd(client.gross, quantity))];
      Claim(key, side, quantity);
      PutTwice(symbols, key.symbol, client.symbols[key.symbol], clients[key.client].symbols[key.symbol]);
    }

    // Take up open quantity, stopping at the most a word holds.
    method Claim(key: Key, side: Side, quantity: Quantity)
      requires key.client in clients && key.symbol in clients[key.client].symbols
      modifies this`clients
      ensures var client := old(clients)[key.client];
        var state := client.symbols[key.symbol];
        clients == old(clients)[key.client := client.(symbols :=
          client.symbols[key.symbol := WithOpen(state, side, SaturatingAdd(OpenOn(state, side), quantity))])]
    {
      var state := clients[key.client].symbols[key.symbol];
      if side.Buy? {
        PutSymbol(key.client, key.symbol, state.(openBuy := SaturatingAdd(state.openBuy, quantity)));
      } else {
        PutSymbol(key.client, key.symbol, state.(openSell := SaturatingAdd(state.openSell, quantity)));
      }
    }

    method OnOrderCancelled(key: Key)
      modifies this
      ensures State() == OrderCancelled(old(State()), key)
    {
      if key.client == NO_CLIENT {
        return;
      }
      EraseWorkingOrder(key);
    }

    method OnTrade(symbol: Symbol, buyer: ClientId, seller: ClientId, trade: Trade)
      modifies this
      ensures State() == TradeDone(old(State()), symbol, buyer, seller, trade)
    {
      if trade.quantity == 0 {
        return;
      }
      if buyer != NO_CLIENT {
        ApplyPositionDelta(buyer, symbol, Buy, trade.quantity);
        ReduceWorkingOrder(Key(buyer, symbol, trade.buyId), trade.quantity);
      }
      if seller != NO_CLIENT {
        ApplyPositionDelta(seller, symbol, Sell, trade.quantity);
        ReduceWorkingOrder(Key(seller, symbol, trade.sellId), trade.quantity);
      }
    }

    method ApplyPositionDelta(client: ClientId, symbol: Symbol, side: Side, quantity: Quantity)
      modifies this`clients
      ensures var c := ClientOf(old(State()), client);
        var s := SymbolOf(old(State()), client, symbol);
        clients == old(clients)[client := c.(symbols :=
          c.symbols[symbol := s.(position := Moved(s.position, side, quantity))])]
    {
      SymbolFor(client, symbol);
      var state := clients[client].symbols[symbol];
      if side.Buy? {
        if state.position > MAX_I64 - quantity {
          state := state.(position := MAX_I64);
        } else {
          state := state.(position := state.position + quantity);
        }
      } else if state.position < MIN_I64 + quantity {
        state := state.(position := MIN_I64);
      } else {
        state := state.(position := state.position - quantity);
      }
      ghost var symbols := ClientOf(old(State()), client).symbols;
      PutTwice(symbols, symbol, SymbolOf(old(State()), client, symbol), state);
      PutSymbol(client, symbol, state);
    }

    method EraseWorkingOrder(key: Key)
      modifies this
      ensures State() == Erase(old(State()), key)
    {
      if key !in workingOrders {
        return;
      }
      var order := workingOrders[key];
      if key.client in clients {
        var client := clients[key.client];
        client := client.(openOrders := if client.openOrders > 0 then client.openOrders - 1 else 0);
        client := client.(gross := if client.gross >= order.remaining then client.gross - order.remaining else 0);
        clients := clients[key.client := client];
        if key.symbol in client.symbols {
          Release(key, order.side, order.remaining);
        }
      }
      workingOrders := workingOrders - {key};
    }

    // Give back open quantity, stopping at zero.
    method Release(key: Key, side: Side, quantity: Quantity)
      requires key.client in clients && key.symbol in clients[key.client].symbols
      modifies this`clients
      ensures var client := old(clients)[key.client];
        var state := client.symbols[key.symbol];
        clients == old(clients)[key.client := client.(symbols :=
          client.symbols[key.symbol := WithOpen(state, side, Less(OpenOn(state, side), quantity))])]
    {
      var state := clients[key.client].symbols[key.symbol];
      if side.Buy? {
        state := state.(openBuy := if state.openBuy >= quantity then state.openBuy - quantity else 0);
      } else {
        state := state.(openSell := if state.openSell >= quantity then state.openSell - quantity else 0);
      }
      PutSymbol(key.client, key.symbol, state);
    }

    method ReduceWorkingOrder(key: Key, executed: Quantity)
      modifies this
      ensures State() == Reduce(old(State()), key, executed)
    {
      if key !in workingOrders {
        return;
      }
      hide WithOpen, OpenOn, Less;
      var order := workingOrders[key];
      var reduction := Min(order.remaining, executed);
      LowerExposure(key, order.side, reduction);
      LowerRemaining(key, order.remaining - reduction);
    }

    // The client's gross and open quantities give back what was executed.
    method LowerExposure(key: Key, side: Side, reduction: Quantity)
      modifies this`clients
      ensures var client := ClientOf(old(State()), key.client);
        var state := SymbolOf(old(State()), key.client, key.symbol);
        clients == old(clients)[key.client := client.(
          gross := Less(client.gross, reduction),
          symbols := client.symbols[key.symbol := WithOpen(state, side, Less(OpenOn(state, side), reduction))])]
    {
      ghost var symbols := ClientOf(State(), key.client).symbols;
      SymbolFor(key.client, key.symbol);
      var client := clients[key.client];
      clients := clients[key.client := client.(
        gross := if client.gross >= reduction then client.gross - reduction else 0)];
      Release(key, side, reduction);
      PutTwice(symbols, key.symbol, client.symbols[key.symbol], clients[key.client].symbols[key.symbol]);
    }

    // What is left goes on working; with nothing left the order stops.
    method LowerRemaining(key: Key, left: Quantity)
      requires key in workingOrders && key.client in clients
      modifies this`clients, this`workingOrders
      ensures clients == old(clients)[key.client := old(clients)[key.client].(
        openOrders := if left == 0 then Less(old(clients)[key.client].openOrders, 1) else old(clients)[key.client].openOrders)]
      ensures workingOrders ==
        if left == 0 then old(workingOrders) - {key} else old(workingOrders)[key := old(workingOrders)[key].(remaining := left)]
    {
      if left == 0 {
        var client := clients[key.client];
        clients := clients[key.client := client.(openOrders := if client.openOrders > 0 then client.openOrders - 1 else 0)];
        workingOrders := workingOrders - {key};
      } else {
        PutSame(clients, key.client);
        workingOrders := workingOrders[key := workingOrders[key].(remaining := left)];
      }
    }
  }
}
