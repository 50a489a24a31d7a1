/**
 One FIX client's session at the gateway: requests go to the exchange, and what the exchange sends
 back later is turned into execution reports. Each message is one step of the session.
 */
module Gateway {
  import opened ExchangeTypes
  import opened Risk

  type ClOrdId = string

  // A new order as translated from its FIX fields.
  datatype Terms = Terms(symbol: Symbol, side: Side, kind: OrderKind, tif: TimeInForce, price: Price, quantity: Quantity)

  datatype Status = New | PartiallyFilled | Filled | Cancelled | Refused

  datatype OrderState = OrderState(
    symbol: Symbol,
    side: Side,
    kind: OrderKind,
    tif: TimeInForce,
    clOrdId: ClOrdId,
    quantity: nat,
    cumulative: nat,
    leaves: nat,
    notional: int,
    price: Price,
    status: Status)

  datatype PendingRequest =
    | NewPending(clOrdId: ClOrdId)
    | CancelPending(clOrdId: ClOrdId, origClOrdId: ClOrdId)
    | ReplacePending(clOrdId: ClOrdId, origClOrdId: ClOrdId, total: nat, working: nat, price: Price)

  datatype RefusalReason =
    | MissingField
    | DuplicateClOrdId
    | NotTranslated
    | UnknownOrder
    | NotWorking
    | SymbolChanged
    | NotLimit
    | BadQuantity
    | BadPrice
    | NotAboveCumulative
    | SideChanged
    | CoreUnreachable
    | RejectedByCore

  datatype ExecType = NewAck | Fill | CancelAck | ReplaceAck | CoreReject

  // What is sent to the client.
  datatype Outgoing =
    | ExecutionReport(orderId: OrderId, exec: ExecType, clOrdId: ClOrdId, lastQuantity: nat, order: OrderState)
    | NewOrderRejected(request: Option<ClOrdId>, reason: RefusalReason)
    | CancelRejected(request: Option<ClOrdId>, orig: Option<ClOrdId>, reason: RefusalReason)

  datatype SelfTrade = SelfTrade(buyId: OrderId, sellId: OrderId, price: Price, quantity: Quantity)

  datatype Session = Session(
    orders: map<OrderId, OrderState>,
    clOrdIds: map<ClOrdId, OrderId>,
    used: set<ClOrdId>,
    pending: map<OrderId, seq<PendingRequest>>,
    awaitingBoundary: set<OrderId>,
    lastSelfTrade: Option<SelfTrade>,
    duplicatesToIgnore: nat,
    nextOrderId: OrderId,
    sent: seq<Outgoing>)

  const NEW_SESSION := Session(map[], map[], {}, map[], {}, None, 0, 1, [])

  // ---- Requests from the client -----------------------------------------------------------------------

  // The reached flag says whether the request could be written to the exchange's connection;
  // skipped counts the order numbers other sessions have drawn meanwhile.
  datatype NewRequestMessage = NewRequestMessage(clOrdId: Option<ClOrdId>, terms: Option<Terms>, skipped: nat, reached: bool)
  datatype CancelMessage = CancelMessage(clOrdId: Option<ClOrdId>, orig: Option<ClOrdId>, reached: bool)
  // A quantity or price of None is a text that is not a number.
  datatype ReplaceMessage = ReplaceMessage(
    clOrdId: Option<ClOrdId>,
    orig: Option<ClOrdId>,
    symbol: Option<Symbol>,
    quantity: Option<Option<nat>>,
    price: Option<Option<int>>,
    side: Option<Option<Side>>,
    reached: bool)

  function Tell(s: Session, m: Outgoing): Session {
    s.(sent := s.sent + [m])
  }

  function PendingFor(s: Session, id: OrderId): seq<PendingRequest> {
    if id in s.pending then s.pending[id] else []
  }

  function Enqueued(s: Session, id: OrderId, request: PendingRequest): Session {
    s.(pending := s.pending[id := PendingFor(s, id) + [request]])
  }

  // An id that is mapped already keeps its mapping.
  function Emplaced(ids: map<ClOrdId, OrderId>, clOrdId: ClOrdId, id: OrderId): map<ClOrdId, OrderId> {
    if clOrdId in ids then ids else ids[clOrdId := id]
  }

  function OrderFrom(t: Terms, clOrdId: ClOrdId): OrderState {
    OrderState(t.symbol, t.side, t.kind, t.tif, clOrdId, t.quantity, 0, t.quantity, 0, t.price, New)
  }

  function HandleNew(s: Session, m: NewRequestMessage): Session {
    if m.clOrdId.Some? && m.clOrdId.value in s.used then
      Tell(s, NewOrderRejected(m.clOrdId, DuplicateClOrdId))
    else
      var id := s.nextOrderId + m.skipped;
      var drawn := s.(used := if m.clOrdId.Some? then s.used + {m.clOrdId.value} else s.used, nextOrderId := id + 1);
      if m.clOrdId.None? || m.terms.None? then Tell(drawn, NewOrderRejected(m.clOrdId, NotTranslated))
      else Submitted(drawn, id, m.clOrdId.value, OrderFrom(m.terms.value, m.clOrdId.value), m.reached)
  }

  // The order, its id and its request are on record before the request is sent.
  function Submitted(drawn: Session, id: OrderId, clOrdId: ClOrdId, order: OrderState, reached: bool): Session {
    var placed := drawn.(orders := drawn.orders[id := order], clOrdIds := Emplaced(drawn.clOrdIds, clOrdId, id));
    var queued := Enqueued(placed, id, NewPending(clOrdId));
    if reached then queued else Tell(Withdrawn(queued, id, clOrdId), NewOrderRejected(Some(clOrdId), CoreUnreachable))
  }

  // A new order that could not be sent: its request, its id and the order itself go again.
  function Withdrawn(s: Session, id: OrderId, clOrdId: ClOrdId): Session
    requires PendingFor(s, id) != []
  {
    s.(pending := s.pending[id := s.pending[id][..|s.pending[id]| - 1]], clOrdIds := s.clOrdIds - {clOrdId}, orders := s.orders - {id})
  }

  // What cancel and replace check before they look at the order itself.
  function Refusal(s: Session, clOrdId: Option<ClOrdId>, orig: Option<ClOrdId>): Option<RefusalReason> {
    if clOrdId.None? || orig.None? then Some(MissingField)
    else if clOrdId.value in s.used then Some(DuplicateClOrdId)
    else if orig.value !in s.clOrdIds then Some(UnknownOrder)
    else
      var id := s.clOrdIds[orig.value];
      if id !in s.orders || s.orders[id].leaves == 0 then Some(NotWorking) else None
  }

  // The request's own id is used up as soon as it is seen to be new.
  function Noted(s: Session, clOrdId: Option<ClOrdId>, orig: Option<ClOrdId>): Session {
    if clOrdId.None? || orig.None? then s else s.(used := s.used + {clOrdId.value})
  }

  function HandleCancel(s: Session, m: CancelMessage): Session {
    var noted := Noted(s, m.clOrdId, m.orig);
    var refusal := Refusal(s, m.clOrdId, m.orig);
    if refusal.Some? then Tell(noted, CancelRejected(m.clOrdId, m.orig, refusal.value))
    else
      var id := s.clOrdIds[m.orig.value];
      if !m.reached then Tell(noted.(pending := noted.pending[id := PendingFor(s, id)]), CancelRejected(m.clOrdId, m.orig, CoreUnreachable))
      else Enqueued(noted, id, CancelPending(m.clOrdId.value, m.orig.value))
  }

  // What a replacement asks of the order, in the order it is checked.
  function ReplaceRefusal(order: OrderState, m: ReplaceMessage): Option<RefusalReason> {
    if m.symbol.None? || m.quantity.None? || m.price.None? then Some(MissingField)
    else if m.symbol.value != order.symbol then Some(SymbolChanged)
    else if !order.kind.Limit? then Some(NotLimit)
    else if m.quantity.value.None? || m.quantity.value.value == 0 || m.quantity.value.value >= QUANTITY_RANGE then Some(BadQuantity)
    else if m.price.value.None? || m.price.value.value <= 0 then Some(BadPrice)
    else if m.quantity.value.value <= order.cumulative then Some(NotAboveCumulative)
    else if m.side.Some? && m.side.value != Some(order.side) then Some(SideChanged)
    else None
  }

  function HandleReplace(s: Session, m: ReplaceMessage): Session {
    var noted := Noted(s, m.clOrdId, m.orig);
    var refusal := Refusal(s, m.clOrdId, m.orig);
    if refusal.Some? then Tell(noted, CancelRejected(m.clOrdId, m.orig, refusal.value))
    else
      var id := s.clOrdIds[m.orig.value];
      var order := s.orders[id];
      var objection := ReplaceRefusal(order, m);
      if objection.Some? then Tell(noted, CancelRejected(m.clOrdId, m.orig, objection.value))
      else if !m.reached then Tell(noted.(pending := noted.pending[id := PendingFor(s, id)]), CancelRejected(m.clOrdId, m.orig, CoreUnreachable))
      else
        var total := m.quantity.value.value;
        Enqueued(noted, id, ReplacePending(m.clOrdId.value, m.orig.value, total, total - order.cumulative, m.price.value.value))
  }

  // ---- Messages from the exchange ------------------------------------------------------------------------

  function Report(s: Session, id: OrderId, exec: ExecType, clOrdId: ClOrdId, lastQuantity: nat, order: OrderState): Session {
    Tell(s.(orders := s.orders[id := order]), ExecutionReport(id, exec, clOrdId, lastQuantity, order))
  }

  // The oldest request outstanding for the order is the one answered.
  function Dequeued(s: Session, id: OrderId): Session {
    var rest := PendingFor(s, id);
    if rest == [] then s
    else if |rest| == 1 then s.(pending := s.pending - {id})
    else s.(pending := s.pending[id := rest[1..]])
  }

  function HandleResponse(s: Session, id: OrderId, success: bool): Session {
    if PendingFor(s, id) == [] then s
    else
      var request := PendingFor(s, id)[0];
      var answered := Dequeued(s, id);
      if id !in s.orders then answered
      else
        var order := s.orders[id];
        match request
        case NewPending(clOrdId) =>
          if success then
            var acked := order.(status := New);
            var boundary := if order.kind.Market? || !order.tif.GoodTillCancel? then {id} else {};
            Report(answered.(awaitingBoundary := s.awaitingBoundary + boundary), id, NewAck, clOrdId, 0, acked)
          else
            var refused := order.(leaves := 0, status := Refused);
            Tell(answered, ExecutionReport(id, CoreReject, clOrdId, 0, refused)).(
              clOrdIds := s.clOrdIds - {order.clOrdId}, orders := s.orders - {id})
        case CancelPending(clOrdId, orig) =>
          if success then Report(answered, id, CancelAck, clOrdId, 0, order.(leaves := 0, status := Cancelled))
          else Tell(answered, CancelRejected(Some(clOrdId), Some(orig), RejectedByCore))
        case ReplacePending(clOrdId, orig, total, working, price) =>
          if !success then Tell(answered, CancelRejected(Some(clOrdId), Some(orig), RejectedByCore))
          else
            var replaced := order.(clOrdId := clOrdId, quantity := total, leaves := working, price := price,
                                   status := if order.cumulative == 0 then New else PartiallyFilled);
            Report(answered.(clOrdIds := Emplaced(s.clOrdIds, clOrdId, id)), id, ReplaceAck, clOrdId, 0, replaced)
  }

  // An execution never takes an order beyond what it has left.
  function Executed(order: OrderState, t: SelfTrade): OrderState {
    var q := Min(order.leaves, t.quantity);
    order.(cumulative := order.cumulative + q, leaves := order.leaves - q, notional := order.notional + t.price * q,
           status := if order.leaves == q then Filled else PartiallyFilled)
  }

  function ApplyTrade(s: Session, id: OrderId, t: SelfTrade): Session
    requires id in s.orders
  {
    var order := s.orders[id];
    Report(s, id, Fill, order.clOrdId, Min(order.leaves, t.quantity), Executed(order, t))
  }

  // A trade between two orders of this session arrives twice, once for each side.
  function HandleTrade(s: Session, t: SelfTrade): Session {
    if t.buyId in s.orders && t.sellId in s.orders then
      if s.duplicatesToIgnore > 0 && s.lastSelfTrade == Some(t) then
        s.(duplicatesToIgnore := s.duplicatesToIgnore - 1)
      else
        ApplyTrade(ApplyTrade(s, t.buyId, t), t.sellId, t).(lastSelfTrade := Some(t), duplicatesToIgnore := 1)
    else if t.buyId in s.orders then ApplyTrade(s, t.buyId, t)
    else if t.sellId in s.orders then ApplyTrade(s, t.sellId, t)
    else s
  }

  // One order at the boundary its book update marks.
  function FinalizeOne(s: Session, symbol: Symbol, id: OrderId): Session {
    if id !in s.awaitingBoundary then s
    else if id !in s.orders then s.(awaitingBoundary := s.awaitingBoundary - {id})
    else if s.orders[id].symbol != symbol then s
    else
      var order := s.orders[id];
      var done := s.(awaitingBoundary := s.awaitingBoundary - {id});
      if order.leaves == 0 then done
      else Report(done, id, CancelAck, order.clOrdId, 0, order.(leaves := 0, status := Cancelled))
  }

  // All of them, in the order a hash set lists them.
  function Finalize(s: Session, symbol: Symbol, ids: seq<OrderId>): Session
    decreases |ids|
  {
    if ids == [] then s else Finalize(FinalizeOne(s, symbol, ids[0]), symbol, ids[1..])
  }

  // ---- Runs ------------------------------------------------------------------------------------------------

  datatype Input =
    | NewOrderSingle(request: NewRequestMessage)
    | OrderCancelRequest(cancel: CancelMessage)
    | OrderCancelReplaceRequest(replace: ReplaceMessage)
    | OrderResponse(id: OrderId, success: bool)
    | TradeExecution(trade: SelfTrade)
    | BookUpdate(symbol: Symbol, listed: seq<OrderId>)

  function React(s: Session, input: Input): Session {
    match input
    case NewOrderSingle(m) => HandleNew(s, m)
    case OrderCancelRequest(m) => HandleCancel(s, m)
    case OrderCancelReplaceRequest(m) => HandleReplace(s, m)
    case OrderResponse(id, success) => HandleResponse(s, id, success)
    case TradeExecution(t) => HandleTrade(s, t)
    case BookUpdate(symbol, listed) => Finalize(s, symbol, listed)
  }

  function Run(s: Session, inputs: seq<Input>): Session
    decreases |inputs|
  {
    if inputs == [] then s else Run(React(s, inputs[0]), inputs[1..])
  }
}
