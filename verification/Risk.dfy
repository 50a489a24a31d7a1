/**
 Pre-trade risk: the checks, and the bookkeeping of working orders with its cached per-client
 aggregates, saturating 64-bit arithmetic and clamps included.
 */
module Risk {
  import opened ExchangeTypes

  type ClientId = nat
  type Symbol = string

  const NO_CLIENT: ClientId := 0
  const MAX_U64: nat := 0xFFFF_FFFF_FFFF_FFFF
  const MAX_I64: int := 0x7FFF_FFFF_FFFF_FFFF
  const MIN_I64: int := -0x8000_0000_0000_0000

  datatype RejectReason =
    | GlobalKillSwitch | ClientKillSwitch
    | MaxOrderQuantity | MaxOrderNotional
    | MaxOpenOrders | MaxOpenQuantity | MaxPosition
    | UnknownWorkingOrder

  datatype Decision = Accept | Reject(reason: RejectReason)

  datatype Limits = Limits(
    maxOrderQuantity: nat,
    maxOrderNotional: nat,
    maxOpenOrders: nat,
    maxOpenQuantity: nat,
    maxPosition: nat)

  datatype SymbolState = SymbolState(position: int, openBuy: nat, openSell: nat)

  datatype ClientState = ClientState(
    killSwitch: bool,
    openOrders: nat,
    gross: nat,
    symbols: map<Symbol, SymbolState>)

  datatype Key = Key(client: ClientId, symbol: Symbol, id: OrderId)
  datatype Working = Working(side: Side, price: Price, remaining: Quantity)

  datatype RiskState = RiskState(
    limits: Limits,
    globalKill: bool,
    clients: map<ClientId, ClientState>,
    working: map<Key, Working>)

  datatype NewRequest = NewRequest(
    client: ClientId,
    symbol: Symbol,
    side: Side,
    kind: OrderKind,
    tif: TimeInForce,
    price: Price,
    quantity: Quantity,
    reference: Option<Price>)

  const NEW_CLIENT := ClientState(false, 0, 0, map[])
  const NEW_SYMBOL := SymbolState(0, 0, 0)

  function ClientOf(r: RiskState, c: ClientId): ClientState {
    if c in r.clients then r.clients[c] else NEW_CLIENT
  }

  function SymbolOf(r: RiskState, c: ClientId, s: Symbol): SymbolState {
    if s in ClientOf(r, c).symbols then ClientOf(r, c).symbols[s] else NEW_SYMBOL
  }

  function SaturatingAdd(left: nat, right: nat): nat {
    if right > MAX_U64 - left then MAX_U64 else left + right
  }

  function Less(total: nat, quantity: nat): nat {
    if total >= quantity then total - quantity else 0
  }

  function Magnitude(value: int): nat {
    if value >= 0 then value else -value
  }

  // ---- Checks ---------------------------------------------------------------------------

  function CheckCommon(limits: Limits, price: Price, quantity: Quantity, reference: Option<Price>): Decision {
    var magnitude := Magnitude(match reference case Some(p) => p case None => price);
    if quantity > limits.maxOrderQuantity then Reject(MaxOrderQuantity)
    else if magnitude != 0 && quantity > limits.maxOrderNotional / magnitude then Reject(MaxOrderNotional)
    else Accept
  }

  predicate PositionLimitExceeded(limits: Limits, position: int, side: Side, quantity: Quantity, open: nat) {
    var exposure := SaturatingAdd(open, quantity);
    // Seen from the side: how far the position already is in the order's direction.
    var ahead := if side.Buy? then position else -position;
    var projected :=
      if ahead >= 0 then SaturatingAdd(ahead, exposure)
      else if exposure > -ahead then exposure - -ahead
      else 0;
    projected > limits.maxPosition
  }

  function OpenOn(state: SymbolState, side: Side): nat {
    if side.Buy? then state.openBuy else state.openSell
  }

  function CheckNew(r: RiskState, q: NewRequest): Decision {
    var client := ClientOf(r, q.client);
    var state := SymbolOf(r, q.client, q.symbol);
    var common := CheckCommon(r.limits, q.price, q.quantity, q.reference);
    if r.globalKill then Reject(GlobalKillSwitch)
    else if client.killSwitch then Reject(ClientKillSwitch)
    else if common.Reject? then common
    else if PositionLimitExceeded(r.limits, state.position, q.side, q.quantity, OpenOn(state, q.side)) then
      Reject(MaxPosition)
    else if q.kind.Limit? && q.tif.GoodTillCancel? && client.openOrders >= r.limits.maxOpenOrders then
      Reject(MaxOpenOrders)
    else if q.kind.Limit? && q.tif.GoodTillCancel? && SaturatingAdd(client.gross, q.quantity) > r.limits.maxOpenQuantity then
      Reject(MaxOpenQuantity)
    else Accept
  }

  function CheckReplace(r: RiskState, key: Key, price: Price, quantity: Quantity): Decision {
    var client := ClientOf(r, key.client);
    if r.globalKill then Reject(GlobalKillSwitch)
    else if client.killSwitch then Reject(ClientKillSwitch)
    else if key !in r.working then Reject(UnknownWorkingOrder)
    else
      var existing := r.working[key];
      var common := CheckCommon(r.limits, price, quantity, None);
      var state := SymbolOf(r, key.client, key.symbol);
      if common.Reject? then common
      else if key.client !in r.clients then Reject(UnknownWorkingOrder)
      else if client.openOrders > r.limits.maxOpenOrders then Reject(MaxOpenOrders)
      else if SaturatingAdd(Less(client.gross, existing.remaining), quantity) > r.limits.maxOpenQuantity then
        Reject(MaxOpenQuantity)
      else if key.symbol !in client.symbols then Reject(UnknownWorkingOrder)
      else if PositionLimitExceeded(r.limits, state.position, existing.side, quantity,
                                    Less(OpenOn(state, existing.side), existing.remaining)) then
        Reject(MaxPosition)
      else Accept
  }

  // ---- Bookkeeping ------------------------------------------------------------------------

  function WithOpen(state: SymbolState, side: Side, open: nat): SymbolState {
    if side.Buy? then state.(openBuy := open) else state.(openSell := open)
  }

  // An order stops working: its share of every cached aggregate is given back.
  function Erase(r: RiskState, key: Key): RiskState {
    if key !in r.working then r
    else
      var order := r.working[key];
      var r' := r.(working := r.working - {key});
      if key.client !in r.clients then r'
      else
        var client := r.clients[key.client];
        var symbols :=
          if key.symbol !in client.symbols then client.symbols
          else
            var state := client.symbols[key.symbol];
            client.symbols[key.symbol := WithOpen(state, order.side, Less(OpenOn(state, order.side), order.remaining))];
        r'.(clients := r.clients[key.client := client.(
          openOrders := Less(client.openOrders, 1),
          gross := Less(client.gross, order.remaining),
          symbols := symbols)])
  }

  // A working order executes in part, or entirely and stops working.
  function Reduce(r: RiskState, key: Key, executed: Quantity): RiskState {
    if key !in r.working then r
    else
      var order := r.working[key];
      var reduction := Min(order.remaining, executed);
      var client := ClientOf(r, key.client);
      var state := SymbolOf(r, key.client, key.symbol);
      var symbols := client.symbols[key.symbol := WithOpen(state, order.side, Less(OpenOn(state, order.side), reduction))];
      var left := order.remaining - reduction;
      r.(clients := r.clients[key.client := client.(
           openOrders := if left == 0 then Less(client.openOrders, 1) else client.openOrders,
           gross := Less(client.gross, reduction),
           symbols := symbols)],
         working := if left == 0 then r.working - {key} else r.working[key := order.(remaining := left)])
  }

  function OrderResting(r: RiskState, key: Key, order: Working): RiskState {
    if key.client == NO_CLIENT || order.remaining == 0 then r
    else
      var r' := Erase(r, key);
      var client := ClientOf(r', key.client);
      var state := SymbolOf(r', key.client, key.symbol);
      r'.(clients := r'.clients[key.client := client.(
            openOrders := client.openOrders + 1,
            gross := SaturatingAdd(client.gross, order.remaining),
            symbols := client.symbols[key.symbol :=
              WithOpen(state, order.side, SaturatingAdd(OpenOn(state, order.side), order.remaining))])],
          working := r'.working[key := order])
  }

  function OrderCancelled(r: RiskState, key: Key): RiskState {
    if key.client == NO_CLIENT then r else Erase(r, key)
  }

  function Moved(position: int, side: Side, quantity: Quantity): int {
    if side.Buy? then
      if position > MAX_I64 - quantity then MAX_I64 else position + quantity
    else
      if position < MIN_I64 + quantity then MIN_I64 else position - quantity
  }

  // One side of a trade: the position moves, then the order that traded shrinks if it is working.
  function Leg(r: RiskState, key: Key, side: Side, quantity: Quantity): RiskState {
    if key.client == NO_CLIENT then r
    else
      var client := ClientOf(r, key.client);
      var state := SymbolOf(r, key.client, key.symbol);
      var moved := state.(position := Moved(state.position, side, quantity));
      var r' := r.(clients := r.clients[key.client := client.(symbols := client.symbols[key.symbol := moved])]);
      Reduce(r', key, quantity)
  }

  function TradeDone(r: RiskState, symbol: Symbol, buyer: ClientId, seller: ClientId, t: Trade): RiskState {
    if t.quantity == 0 then r
    else
      Leg(Leg(r, Key(buyer, symbol, t.buyId), Buy, t.quantity), Key(seller, symbol, t.sellId), Sell, t.quantity)
  }
}
