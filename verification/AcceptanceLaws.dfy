/** What the exchange accepts, told from the message and the state before it. */
module AcceptanceLaws {
  import opened ExchangeTypes
  import opened PriceTime
  import opened Risk
  import opened RiskLaws
  import opened LimitLaws
  import Wire
  import Replays
  import opened Exchanges
  import opened ExchangeLaws
  import RecoveryLaws
  import opened RunLaws
  import opened SweepLaws
  import opened TradingLaws
  import opened EntryLaws

  type Byte = Wire.Byte

  // Quantity and notional are within what a single order may have, at this price.
  predicate OrderFits(limits: Limits, price: Price, quantity: Quantity) {
    && quantity <= limits.maxOrderQuantity
    && -(limits.maxOrderNotional as int) <= quantity * price <= limits.maxOrderNotional
  }

  // What an order is valued at: a limit order at its own price, a market order at the best price of
  // the side it will trade with, or at its own if nothing rests there.
  function Valued(b: Book, q: Wire.NewOrderRequest): Price {
    match (q.kind, q.side)
    case (Limit, _) => q.price
    case (Market, Buy) => if b.asks == [] then q.price else b.asks[0].price
    case (Market, Sell) => if b.bids == [] then q.price else b.bids[0].price
  }

  // What the exchange asks of a new order it can read.
  ghost predicate Welcome(x: Exchange, c: ClientId, s: Symbol, q: Wire.NewOrderRequest) {
    var b := InstrumentOf(x, s).book;
    && q.id !in b.ById()
    && q.quantity < 0x1_0000_0000
    && Trading(x.risk, c)
    && OrderFits(x.risk.limits, Valued(b, q), q.quantity)
    && Exposure(x.risk, c, s, q.side) + q.quantity <= x.risk.limits.maxPosition
    && (q.kind.Limit? && q.tif.GoodTillCancel? ==> RoomToRest(x.risk, c, q.quantity))
  }

  /**
   A new order is accepted if and only if its body is readable and its quantity fits 32 bits, its id is
   not at rest, no kill switch is on, and it fits every limit.
   */
  lemma {:induction false} NewOrderAcceptedExactly(x: Exchange, socket: int, h: Wire.Header, body: seq<Byte>)
    requires Agree(x)
    ensures NewOrder(x, socket, h, body).reply.success <==>
      && h.bodySize == Wire.NEW_ORDER_BODY_SIZE && Wire.DecodeNewOrder(body).Some?
      && var q := Wire.DecodeNewOrder(body).value;
         Welcome(x, SenderOn(x, socket).client, Wire.SymbolText(q.symbol), q)
  {
    hide AdmitNewOrder, Agree, Wire.SymbolText, Valued, OrderFits, Trading, Exposure, RoomToRest, Book.ById;
    if h.bodySize == Wire.NEW_ORDER_BODY_SIZE && Wire.DecodeNewOrder(body).Some? {
      var q := Wire.DecodeNewOrder(body).value;
      RecoveryLaws.SymbolsHaveText(q.symbol);
      if q.quantity < QUANTITY_RANGE {
        AdmittedExactly(x, socket, Wire.SymbolText(q.symbol), q, h, body);
      }
    }
  }

  lemma {:induction false} AdmittedExactly(x: Exchange, socket: int, s: Symbol, q: Wire.NewOrderRequest, h: Wire.Header, body: seq<Byte>)
    requires Agree(x) && q.quantity < QUANTITY_RANGE
    ensures AdmitNewOrder(x, socket, s, Replays.OrderOf(q), h, body).reply.success <==> Welcome(x, SenderOn(x, socket).client, s, q)
  {
    hide Complete, Process, CheckNew, CheckCommon, Book.ById, Sound, Exposure, RoomToRest;
    var inst := InstrumentOf(x, s);
    assert InstrumentOk(x.risk.working, s, inst);
    var request := RiskRequest(ClientOn(x, socket), s, Replays.OrderOf(q), inst.book);
    NewAcceptedExactly(x.risk, request);
    FitsExactly(x.risk.limits, request.price, request.quantity, request.reference);
  }

  lemma {:induction false} FitsExactly(limits: Limits, price: Price, quantity: Quantity, reference: Option<Price>)
    ensures CheckCommon(limits, price, quantity, reference) == Accept
      <==> OrderFits(limits, if reference.Some? then reference.value else price, quantity)
  {
    hide CheckCommon;
    OrderLimitsAreExact(limits, price, quantity, reference);
    var p: int := if reference.Some? then reference.value else price;
    assert p < 0 ==> quantity * -p == -(quantity * p);
    assert p < 0 ==> quantity * p <= 0;
    assert p >= 0 ==> quantity * p >= 0;
  }

  /** A market order that is accepted and trades was worth no more than the limit at its first trade's price. */
  lemma {:induction false} MarketOrdersAreWorthTheirLimit(x: Exchange, socket: int, h: Wire.Header, body: seq<Byte>)
    requires Agree(x) && NewOrder(x, socket, h, body).reply.success
    requires Wire.DecodeNewOrder(body).Some? && Wire.DecodeNewOrder(body).value.kind.Market?
    ensures NewOrder(x, socket, h, body).effects.Some?
    ensures var q := Wire.DecodeNewOrder(body).value;
      var trades := TradesIn(NewOrder(x, socket, h, body).effects.value.deliveries);
      trades != [] ==>
        -(x.risk.limits.maxOrderNotional as int) <= q.quantity * trades[0].price <= x.risk.limits.maxOrderNotional
  {
    hide Agree, NewOrder, AllAttributed, Fulfilled, Reports, OwnersPassOn, Exposure, RoomToRest, Book.ById;
    NewOrderDoesWhatItSays(x, socket, h, body);
    NewOrderAcceptedExactly(x, socket, h, body);
    var q := Wire.DecodeNewOrder(body).value;
    var e := NewOrder(x, socket, h, body).effects.value;
    FirstTradeIsTheBest(InstrumentOf(x, Wire.SymbolText(q.symbol)).book,
                        Order(q.id, q.side, q.kind, q.tif, q.price, q.quantity, q.quantity, q.timestamp),
                        TradesIn(e.deliveries), e.book, e.added);
  }

  // Matching begins with the best price of the side the order faces.
  lemma FirstTradeIsTheBest(b: Book, o: Order, trades: seq<Trade>, after: Book, added: Option<Order>)
    requires Fulfilled(b, o, trades, after, added)
    ensures trades != [] ==> Facing(b, o.side) != [] && trades[0].price == Facing(b, o.side)[0].price
  {
    hide Reachable, RestsRightly, Survivors, Traded;
    if trades != [] && o.remaining > 0 && !(o.tif.FillOrKill? && Reachable(o, Facing(b, o.side)) < o.remaining) {
      assert Accepts(o, Facing(b, o.side)[0].price) && Joins(trades[0], o, Facing(b, o.side)[0]);
    }
  }

  /** A cancel is accepted if and only if it is readable and names a resting order of the same session. */
  lemma {:induction false} CancelAcceptedExactly(x: Exchange, socket: int, h: Wire.Header, body: seq<Byte>)
    requires Agree(x)
    ensures CancelOrder(x, socket, h, body).reply.success <==>
      && h.bodySize == Wire.CANCEL_ORDER_BODY_SIZE && Wire.DecodeCancelOrder(body).Some?
      && var q := Wire.DecodeCancelOrder(body).value;
         OwnsOrder(x, Wire.SymbolText(q.symbol), q.id, SenderOn(x, socket))
  {
    hide Agree, MayTouch, OwnsOrder, Wire.SymbolText, Cancel, OrderCancelled;
    if h.bodySize == Wire.CANCEL_ORDER_BODY_SIZE && Wire.DecodeCancelOrder(body).Some? {
      var q := Wire.DecodeCancelOrder(body).value;
      OwningIsEnough(x, Wire.SymbolText(q.symbol), q.id, SenderOn(x, socket));
    }
  }

  // On record as the order's owner: same connection, same session.
  predicate OwnsOrder(x: Exchange, s: Symbol, id: OrderId, sender: Owner) {
    id in InstrumentOf(x, s).owners && InstrumentOf(x, s).owners[id] == sender
  }

  // Whatever has an owner rests.
  lemma {:induction false} OwningIsEnough(x: Exchange, s: Symbol, id: OrderId, sender: Owner)
    requires Agree(x)
    ensures MayTouch(x, s, id, sender) <==> OwnsOrder(x, s, id, sender)
  {
    assert InstrumentOk(x.risk.working, s, InstrumentOf(x, s));
  }

  // What the exchange asks of a replacement it can read.
  ghost predicate Replaceable(x: Exchange, sender: Owner, s: Symbol, id: OrderId, price: Price, quantity: Quantity) {
    && OwnsOrder(x, s, id, sender) && sender.client != NO_CLIENT
    && id in InstrumentOf(x, s).book.ById()
    && Trading(x.risk, sender.client)
    && OrderFits(x.risk.limits, price, quantity)
    && var without := OrderCancelled(x.risk, Key(sender.client, s, id));
       && Exposure(without, sender.client, s, InstrumentOf(x, s).book.ById()[id].side) + quantity <= x.risk.limits.maxPosition
       && RoomToRest(without, sender.client, quantity)
  }

  /**
   A replacement is accepted if and only if it is readable and its quantity fits 32 bits, it names a
   resting order of the same session, no kill switch is on, and the new order, the old taken away,
   fits every limit.
   */
  lemma {:induction false} ReplaceOrderAcceptedExactly(x: Exchange, socket: int, h: Wire.Header, body: seq<Byte>)
    requires Agree(x)
    ensures ReplaceOrder(x, socket, h, body).reply.success <==>
      && h.bodySize == Wire.REPLACE_ORDER_BODY_SIZE && Wire.DecodeReplaceOrder(body).Some?
      && var q := Wire.DecodeReplaceOrder(body).value;
         && q.quantity < QUANTITY_RANGE
         && Replaceable(x, SenderOn(x, socket), Wire.SymbolText(q.symbol), q.id, q.price, q.quantity)
  {
    hide Agree, MayTouch, Replaceable, CheckReplace, Complete, Replace, Wire.SymbolText, OrderCancelled;
    if h.bodySize == Wire.REPLACE_ORDER_BODY_SIZE && Wire.DecodeReplaceOrder(body).Some? {
      var q := Wire.DecodeReplaceOrder(body).value;
      var s, sender := Wire.SymbolText(q.symbol), SenderOn(x, socket);
      ReplaceableExactly(x, sender, s, q.id, q.price, q.quantity);
    }
  }

  lemma {:induction false} ReplaceableExactly(x: Exchange, sender: Owner, s: Symbol, id: OrderId, price: Price, quantity: Quantity)
    requires Agree(x)
    ensures MayTouch(x, s, id, sender) && CheckReplace(x.risk, Key(sender.client, s, id), price, quantity) == Accept
      <==> Replaceable(x, sender, s, id, price, quantity)
  {
    hide CheckReplace, CheckCommon, OrderCancelled, Exposure, RoomToRest, Book.ById, Sound;
    var inst, key := InstrumentOf(x, s), Key(sender.client, s, id);
    assert InstrumentOk(x.risk.working, s, inst);
    assert Lookup(x.risk.working, key) == Expected(inst.owners, inst.book.ById(), key);
    ReplaceAcceptedExactly(x.risk, key, price, quantity);
    FitsExactly(x.risk.limits, price, quantity, None);
  }

  // ---- Kill switches -------------------------------------------------------------------------------

  // Nothing but the switch itself changes a switch.
  lemma {:induction false} SwitchesStay(x: Exchange, input: Input)
    requires Agree(x)
    ensures var x' := React(x, input).0;
      && x'.risk.globalKill == (if input.KillSwitch? then input.enabled else x.risk.globalKill)
      && forall c :: ClientOf(x'.risk, c).killSwitch == ClientOf(x.risk, c).killSwitch
  {
    hide Agree, Handle;
    if input.Received? {
      HandleKeepsAgreement(x, input.socket, input.header, input.body);
    }
  }

  // A run that does not switch trading on again.
  predicate NotSwitchedBack(inputs: seq<Input>) {
    forall i :: 0 <= i < |inputs| ==> inputs[i] != KillSwitch(false)
  }

  lemma {:induction false} SwitchesStayOn(x: Exchange, inputs: seq<Input>)
    requires Agree(x)
    ensures var x' := RunLaws.Run(x, inputs);
      && Agree(x')
      && (x.risk.globalKill && NotSwitchedBack(inputs) ==> x'.risk.globalKill)
      && forall c :: ClientOf(x'.risk, c).killSwitch == ClientOf(x.risk, c).killSwitch
    decreases |inputs|
  {
    hide Agree, React;
    if inputs != [] {
      ReactKeepsAgreement(x, inputs[0]);
      SwitchesStay(x, inputs[0]);
      SwitchesStayOn(React(x, inputs[0]).0, inputs[1..]);
    }
  }

  /** Once the switch is on, and until it is taken back, no new order and no replacement is accepted. */
  lemma {:induction false} KillSwitchStops(x: Exchange, inputs: seq<Input>, socket: int, h: Wire.Header, body: seq<Byte>)
    requires Agree(x) && NotSwitchedBack(inputs)
    ensures var x' := RunLaws.Run(React(x, KillSwitch(true)).0, inputs);
      !NewOrder(x', socket, h, body).reply.success && !ReplaceOrder(x', socket, h, body).reply.success
  {
    hide Agree, React, NewOrder, ReplaceOrder;
    var on := React(x, KillSwitch(true)).0;
    ReactKeepsAgreement(x, KillSwitch(true));
    SwitchesStay(x, KillSwitch(true));
    SwitchesStayOn(on, inputs);
    NewOrderAcceptedExactly(RunLaws.Run(on, inputs), socket, h, body);
    ReplaceOrderAcceptedExactly(RunLaws.Run(on, inputs), socket, h, body);
  }

  /** A client whose own switch is on has no new order and no replacement accepted in any run. */
  lemma {:induction false} StoppedClientsStayStopped(x: Exchange, inputs: seq<Input>, socket: int, h: Wire.Header, body: seq<Byte>)
    requires Agree(x)
    ensures var x' := RunLaws.Run(x, inputs);
      ClientOf(x.risk, SenderOn(x', socket).client).killSwitch ==>
        !NewOrder(x', socket, h, body).reply.success && !ReplaceOrder(x', socket, h, body).reply.success
  {
    hide Agree, NewOrder, ReplaceOrder;
    SwitchesStayOn(x, inputs);
    NewOrderAcceptedExactly(RunLaws.Run(x, inputs), socket, h, body);
    ReplaceOrderAcceptedExactly(RunLaws.Run(x, inputs), socket, h, body);
  }
}
