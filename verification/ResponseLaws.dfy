/**
 What a FIX client is told: for every request the answer that names it, for every execution and every
 boundary a report of the order as it then is, and for every refusal its reason.
 */
module ResponseLaws {
  import opened ExchangeTypes
  import opened Gateway
  import opened GatewayLaws

  // ---- Answers ------------------------------------------------------------------------------------------

  // The response that answers the request sent under this id: it is the oldest outstanding one for a held order.
  predicate IsAnswered(s: Session, id: OrderId, clOrdId: ClOrdId) {
    PendingFor(s, id) != [] && PendingFor(s, id)[0].clOrdId == clOrdId && id in s.orders
  }

  // One message sent about one order, and the request taken off its queue; every other order, request and
  // boundary stays.
  ghost predicate Answers(s: Session, id: OrderId, s': Session, m: Outgoing) {
    && s'.sent == s.sent + [m]
    && (forall k :: k != id ==> (k in s'.orders <==> k in s.orders))
    && (forall k :: k != id && k in s'.orders ==> k in s.orders && s'.orders[k] == s.orders[k])
    && (forall k :: PendingFor(s', k) == (if k == id && PendingFor(s, k) != [] then PendingFor(s, k)[1..] else PendingFor(s, k)))
    && s'.used == s.used && s'.nextOrderId == s.nextOrderId
    && s'.lastSelfTrade == s.lastSelfTrade && s'.duplicatesToIgnore == s.duplicatesToIgnore
  }

  // The answer to a cancel: with a success nothing is left of the order, otherwise it is as it was.
  ghost predicate CancelAnswer(s: Session, id: OrderId, clOrdId: ClOrdId, orig: ClOrdId, success: bool, s': Session)
    requires id in s.orders
  {
    && id in s'.orders && s'.clOrdIds == s.clOrdIds && s'.awaitingBoundary == s.awaitingBoundary
    && if success
       then && s'.orders[id] == s.orders[id].(leaves := 0, status := Cancelled)
            && Answers(s, id, s', ExecutionReport(id, CancelAck, clOrdId, 0, s'.orders[id]))
       else && s'.orders[id] == s.orders[id]
            && Answers(s, id, s', CancelRejected(Some(clOrdId), Some(orig), RejectedByCore))
  }

  // The answer to a new order: acknowledged, or forgotten together with its ids.
  ghost predicate NewAnswer(s: Session, id: OrderId, clOrdId: ClOrdId, success: bool, s': Session)
    requires id in s.orders
  {
    var order := s.orders[id];
    if success then
      && id in s'.orders && s'.orders[id] == order.(status := New) && s'.clOrdIds == s.clOrdIds
      && s'.awaitingBoundary == s.awaitingBoundary + (if order.kind.Limit? && order.tif.GoodTillCancel? then {} else {id})
      && Answers(s, id, s', ExecutionReport(id, NewAck, clOrdId, 0, s'.orders[id]))
    else
      && id !in s'.orders && s'.awaitingBoundary == s.awaitingBoundary
      && s'.clOrdIds == (map c | c in s.clOrdIds && s.clOrdIds[c] != id :: s.clOrdIds[c])
      && Answers(s, id, s', ExecutionReport(id, CoreReject, clOrdId, 0, order.(leaves := 0, status := Refused)))
  }

  // The answer to a replacement: the order goes by the new id, with the quantity and price asked for.
  ghost predicate ReplaceAnswer(s: Session, id: OrderId, clOrdId: ClOrdId, orig: ClOrdId, total: nat, working: nat, price: Price,
                                success: bool, s': Session)
    requires id in s.orders
  {
    var order := s.orders[id];
    && id in s'.orders && s'.awaitingBoundary == s.awaitingBoundary
    && if success
       then && s'.orders[id] == OrderState(order.symbol, order.side, order.kind, order.tif, clOrdId, total, order.cumulative, working,
                                           order.notional, price, if order.cumulative == 0 then New else PartiallyFilled)
            && s'.clOrdIds == s.clOrdIds[clOrdId := id]
            && Answers(s, id, s', ExecutionReport(id, ReplaceAck, clOrdId, 0, s'.orders[id]))
       else && s'.orders[id] == order && s'.clOrdIds == s.clOrdIds
            && Answers(s, id, s', CancelRejected(Some(clOrdId), Some(orig), RejectedByCore))
  }

  lemma {:induction false} DequeuedQueues(s: Session, id: OrderId)
    ensures forall k ::
      PendingFor(Dequeued(s, id), k) == (if k == id && PendingFor(s, k) != [] then PendingFor(s, k)[1..] else PendingFor(s, k))
  {
  }

  lemma {:induction false} CancelResponse(s: Session, id: OrderId, clOrdId: ClOrdId, orig: ClOrdId, success: bool)
    requires id in s.orders && PendingFor(s, id) != [] && PendingFor(s, id)[0] == CancelPending(clOrdId, orig)
    ensures CancelAnswer(s, id, clOrdId, orig, success, React(s, OrderResponse(id, success)))
  {
    DequeuedQueues(s, id);
    DequeuedParts(s, id);
    hide Dequeued;
    var s' := HandleResponse(s, id, success);
    assert forall k :: PendingFor(s', k) == PendingFor(Dequeued(s, id), k);
  }

  lemma {:induction false} NewResponse(s: Session, id: OrderId, clOrdId: ClOrdId, success: bool)
    requires id in s.orders && PendingFor(s, id) != [] && PendingFor(s, id)[0] == NewPending(clOrdId) && OnlyName(s, id)
    ensures NewAnswer(s, id, clOrdId, success, React(s, OrderResponse(id, success)))
  {
    DequeuedQueues(s, id);
    DequeuedParts(s, id);
    hide Dequeued;
    var s' := HandleResponse(s, id, success);
    assert forall k :: PendingFor(s', k) == PendingFor(Dequeued(s, id), k);
  }

  lemma {:induction false} ReplaceResponse(s: Session, id: OrderId, clOrdId: ClOrdId, orig: ClOrdId, total: nat, working: nat, price: Price,
                                           success: bool)
    requires id in s.orders && PendingFor(s, id) != []
    requires PendingFor(s, id)[0] == ReplacePending(clOrdId, orig, total, working, price)
    requires clOrdId in s.clOrdIds ==> s.clOrdIds[clOrdId] == id
    ensures ReplaceAnswer(s, id, clOrdId, orig, total, working, price, success, React(s, OrderResponse(id, success)))
  {
    DequeuedQueues(s, id);
    DequeuedParts(s, id);
    hide Dequeued;
    var s' := HandleResponse(s, id, success);
    assert forall k :: PendingFor(s', k) == PendingFor(Dequeued(s, id), k);
  }

  // ---- From a request to its answer ----------------------------------------------------------------------

  // A cancel or replacement names, under an id not used before, an order that still works.
  predicate NamesWorking(s: Session, clOrdId: Option<ClOrdId>, orig: Option<ClOrdId>) {
    && clOrdId.Some? && clOrdId.value !in s.used
    && orig.Some? && orig.value in s.clOrdIds
    && var id := s.clOrdIds[orig.value]; id in s.orders && s.orders[id].leaves > 0
  }

  /**
   Over every run from a cancel request to its response: a success leaves nothing of the order and is told
   as a cancellation, a failure leaves it alone and is told as a rejection, both naming the request.
   */
  lemma {:induction false} CancelIsAnswered(s: Session, m: CancelMessage, inputs: seq<Input>, success: bool)
    requires Booked(s) && NamesWorking(s, m.clOrdId, m.orig) && m.reached
    ensures var id := s.clOrdIds[m.orig.value];
      var s' := Run(React(s, OrderCancelRequest(m)), inputs);
      IsAnswered(s', id, m.clOrdId.value) ==>
        CancelAnswer(s', id, m.clOrdId.value, m.orig.value, success, React(s', OrderResponse(id, success)))
  {
    hide Run, React, Booked, Carries, CancelAnswer;
    var id := s.clOrdIds[m.orig.value];
    var request := CancelPending(m.clOrdId.value, m.orig.value);
    var asked := HandleCancel(s, m);
    FirstIsCarried(s, id, request);
    ReactKeepsBooked(s, OrderCancelRequest(m));
    ReactIs(s, OrderCancelRequest(m));
    RunKeepsCarrying(asked, inputs, id, request);
    var s' := Run(asked, inputs);
    if IsAnswered(s', id, m.clOrdId.value) {
      HeadIsCarried(s', id, request);
      CancelResponse(s', id, m.clOrdId.value, m.orig.value, success);
    }
  }

  lemma ReactIs(s: Session, input: Input)
    ensures input.OrderCancelRequest? ==> React(s, input) == HandleCancel(s, input.cancel)
    ensures input.OrderCancelReplaceRequest? ==> React(s, input) == HandleReplace(s, input.replace)
    ensures input.NewOrderSingle? ==> React(s, input) == HandleNew(s, input.request)
  {
  }

  lemma HeadIsCarried(s: Session, id: OrderId, request: PendingRequest)
    requires Carries(s, id, request) && IsAnswered(s, id, request.clOrdId)
    ensures PendingFor(s, id)[0] == request
    ensures request.clOrdId in s.clOrdIds ==> s.clOrdIds[request.clOrdId] == id
  {
  }

  /** The same for a new order, which is forgotten with its ids if the exchange refuses it. */
  lemma {:induction false} NewIsAnswered(s: Session, m: NewRequestMessage, inputs: seq<Input>, success: bool)
    requires Booked(s) && m.clOrdId.Some? && m.clOrdId.value !in s.used && m.terms.Some? && m.reached
    ensures var id := s.nextOrderId + m.skipped;
      var s' := Run(React(s, NewOrderSingle(m)), inputs);
      IsAnswered(s', id, m.clOrdId.value) ==>
        NewAnswer(s', id, m.clOrdId.value, success, React(s', OrderResponse(id, success)))
  {
    hide Run, React, Booked, Carries, NewAnswer, HandleNew, OnlyName;
    var id := s.nextOrderId + m.skipped;
    var request := NewPending(m.clOrdId.value);
    ReactKeepsBooked(s, NewOrderSingle(m));
    ReactIs(s, NewOrderSingle(m));
    PlacedIsCarried(s, m);
    RunKeepsCarrying(HandleNew(s, m), inputs, id, request);
    RunKeepsBooked(HandleNew(s, m), inputs);
    var s' := Run(HandleNew(s, m), inputs);
    if IsAnswered(s', id, m.clOrdId.value) {
      HeadIsCarried(s', id, request);
      HeadIsUsed(s', id);
      NewResponse(s', id, m.clOrdId.value, success);
    }
  }

  lemma {:induction false} RunKeepsBooked(s: Session, inputs: seq<Input>)
    requires Booked(s)
    ensures Booked(Run(s, inputs))
    decreases |inputs|
  {
    hide Booked, React;
    if inputs != [] {
      ReactKeepsBooked(s, inputs[0]);
      RunKeepsBooked(React(s, inputs[0]), inputs[1..]);
    }
  }

  lemma {:induction false} PlacedIsCarried(s: Session, m: NewRequestMessage)
    requires Booked(s) && Placed(s, m)
    ensures Carries(HandleNew(s, m), s.nextOrderId + m.skipped, NewPending(m.clOrdId.value))
  {
    hide Booked, Carries;
    var id, c := s.nextOrderId + m.skipped, m.clOrdId.value;
    FirstIsCarried(s, id, NewPending(c));
    var queued := Enqueued(s.(used := s.used + {c}), id, NewPending(c));
    assert forall k :: PendingFor(HandleNew(s, m), k) == PendingFor(queued, k);
    assert c !in s.clOrdIds by { UnusedIsUnmapped(s, c); }
    SameRequests(queued, HandleNew(s, m), id, NewPending(c));
  }

  // A replacement that may be sent on: of the same limit order, with more than is executed already.
  predicate MayReplace(s: Session, m: ReplaceMessage) {
    && NamesWorking(s, m.clOrdId, m.orig)
    && TermsFit(s.orders[s.clOrdIds[m.orig.value]], m)
  }

  /** The same for a replacement: what remains to work is the quantity asked for less what was executed at the request. */
  lemma {:induction false} ReplaceIsAnswered(s: Session, m: ReplaceMessage, inputs: seq<Input>, success: bool)
    requires Booked(s) && MayReplace(s, m) && m.reached
    ensures var id := s.clOrdIds[m.orig.value];
      var s' := Run(React(s, OrderCancelReplaceRequest(m)), inputs);
      var total := m.quantity.value.value;
      IsAnswered(s', id, m.clOrdId.value) ==>
        ReplaceAnswer(s', id, m.clOrdId.value, m.orig.value, total, total - s.orders[id].cumulative, m.price.value.value,
                      success, React(s', OrderResponse(id, success)))
  {
    hide Run, React, Booked, Carries, ReplaceAnswer, HandleReplace;
    var id := s.clOrdIds[m.orig.value];
    var total := m.quantity.value.value;
    ReactKeepsBooked(s, OrderCancelReplaceRequest(m));
    ReactIs(s, OrderCancelReplaceRequest(m));
    AskedIsCarried(s, m);
    RunKeepsCarrying(HandleReplace(s, m), inputs, id, Asked(s, m));
    var s' := Run(HandleReplace(s, m), inputs);
    if IsAnswered(s', id, m.clOrdId.value) {
      HeadIsCarried(s', id, Asked(s, m));
      ReplaceResponse(s', id, m.clOrdId.value, m.orig.value, total, total - s.orders[id].cumulative, m.price.value.value, success);
    }
  }

  // ---- Requests --------------------------------------------------------------------------------------------

  // Why a request to cancel or replace is turned away, reason by reason.
  predicate Turned(s: Session, clOrdId: Option<ClOrdId>, orig: Option<ClOrdId>, reason: RefusalReason) {
    match reason
    case MissingField => clOrdId.None? || orig.None?
    case DuplicateClOrdId => clOrdId.Some? && orig.Some? && clOrdId.value in s.used
    case UnknownOrder => Fresh(s, clOrdId, orig) && orig.value !in s.clOrdIds
    case NotWorking => Fresh(s, clOrdId, orig) && orig.value in s.clOrdIds && !NamesWorking(s, clOrdId, orig)
    case _ => false
  }

  predicate Fresh(s: Session, clOrdId: Option<ClOrdId>, orig: Option<ClOrdId>) {
    clOrdId.Some? && orig.Some? && clOrdId.value !in s.used
  }

  predicate CancelTurned(s: Session, m: CancelMessage, reason: RefusalReason) {
    || Turned(s, m.clOrdId, m.orig, reason)
    || (reason == CoreUnreachable && NamesWorking(s, m.clOrdId, m.orig) && !m.reached)
  }

  // Which of the conditions on the new terms hold, in the order they are looked at.
  predicate Complete(m: ReplaceMessage) {
    m.symbol.Some? && m.quantity.Some? && m.price.Some?
  }

  predicate SameInstrument(order: OrderState, m: ReplaceMessage) {
    Complete(m) && m.symbol.value == order.symbol
  }

  predicate GoodQuantity(order: OrderState, m: ReplaceMessage) {
    && SameInstrument(order, m) && order.kind.Limit?
    && m.quantity.value.Some? && 0 < m.quantity.value.value < 0x1_0000_0000
  }

  predicate GoodPrice(order: OrderState, m: ReplaceMessage) {
    GoodQuantity(order, m) && m.price.value.Some? && m.price.value.value > 0
  }

  predicate ReplaceTurned(s: Session, m: ReplaceMessage, reason: RefusalReason) {
    || Turned(s, m.clOrdId, m.orig, reason)
    || (&& NamesWorking(s, m.clOrdId, m.orig)
        && var order := s.orders[s.clOrdIds[m.orig.value]];
           TermsTurned(order, m, reason) || (TermsFit(order, m) && !m.reached && reason == CoreUnreachable))
  }

  predicate NewTurned(s: Session, m: NewRequestMessage, reason: RefusalReason) {
    match reason
    case DuplicateClOrdId => m.clOrdId.Some? && m.clOrdId.value in s.used
    case NotTranslated => m.clOrdId.None? || (m.clOrdId.value !in s.used && m.terms.None?)
    case CoreUnreachable => m.clOrdId.Some? && m.clOrdId.value !in s.used && m.terms.Some? && !m.reached
    case _ => false
  }

  // One refusal is told, and apart from the id and the order number it used up nothing has happened.
  ghost predicate TurnedAway(s: Session, s': Session, m: Outgoing, noted: Option<ClOrdId>, drawn: OrderId) {
    && s' == s.(used := if noted.Some? then s.used + {noted.value} else s.used, nextOrderId := drawn, pending := s'.pending,
                sent := s.sent + [m])
    && forall id :: PendingFor(s', id) == PendingFor(s, id)
  }

  // Both ids must be there for the request's own to be used up.
  function UsedUp(clOrdId: Option<ClOrdId>, orig: Option<ClOrdId>): Option<ClOrdId> {
    if orig.None? then None else clOrdId
  }

  // A request is noted behind the others for its order, and nothing is told yet.
  ghost predicate Queued(s: Session, s': Session, id: OrderId, request: PendingRequest) {
    && s' == s.(used := s.used + {request.clOrdId}, pending := s'.pending)
    && forall k :: PendingFor(s', k) == if k == id then PendingFor(s, k) + [request] else PendingFor(s, k)
  }

  lemma RefusalIsTurned(s: Session, clOrdId: Option<ClOrdId>, orig: Option<ClOrdId>, reason: RefusalReason)
    ensures Refusal(s, clOrdId, orig) == Some(reason) <==> Turned(s, clOrdId, orig, reason)
    ensures Refusal(s, clOrdId, orig).None? <==> NamesWorking(s, clOrdId, orig)
  {
  }

  // A cancel request that is refused, one that does not reach the exchange and one that does.
  lemma CancelRefused(s: Session, m: CancelMessage)
    ensures var s' := HandleCancel(s, m);
      var refusal := Refusal(s, m.clOrdId, m.orig);
      if refusal.Some? then TurnedAway(s, s', CancelRejected(m.clOrdId, m.orig, refusal.value), UsedUp(m.clOrdId, m.orig), s.nextOrderId)
      else if !m.reached then TurnedAway(s, s', CancelRejected(m.clOrdId, m.orig, CoreUnreachable), UsedUp(m.clOrdId, m.orig), s.nextOrderId)
      else Queued(s, s', s.clOrdIds[m.orig.value], CancelPending(m.clOrdId.value, m.orig.value))
  {
  }

  lemma LastSent(sent: seq<Outgoing>, sent': seq<Outgoing>, m: Outgoing, m': Outgoing)
    requires sent' == sent + [m']
    ensures sent' == sent + [m] <==> m' == m
  {
    assert sent'[|sent|] == m';
  }

  /** A cancel request is turned away for exactly one reason, or its request is queued. */
  lemma {:induction false} CancelRequestIsHandled(s: Session, m: CancelMessage, reason: RefusalReason)
    ensures var s' := React(s, OrderCancelRequest(m));
      && (CancelTurned(s, m, reason) <==> s'.sent == s.sent + [CancelRejected(m.clOrdId, m.orig, reason)])
      && (CancelTurned(s, m, reason) ==> TurnedAway(s, s', CancelRejected(m.clOrdId, m.orig, reason), UsedUp(m.clOrdId, m.orig), s.nextOrderId))
      && (NamesWorking(s, m.clOrdId, m.orig) && m.reached ==>
            Queued(s, s', s.clOrdIds[m.orig.value], CancelPending(m.clOrdId.value, m.orig.value)))
  {
    hide HandleCancel, Refusal, PendingFor;
    var refusal := Refusal(s, m.clOrdId, m.orig);
    RefusalIsTurned(s, m.clOrdId, m.orig, reason);
    CancelRefused(s, m);
    if refusal.Some? || !m.reached {
      var given := if refusal.Some? then refusal.value else CoreUnreachable;
      RefusalIsTurned(s, m.clOrdId, m.orig, given);
      LastSent(s.sent, HandleCancel(s, m).sent, CancelRejected(m.clOrdId, m.orig, reason), CancelRejected(m.clOrdId, m.orig, given));
    }
  }

  // Why the new terms are objected to.
  predicate TermsTurned(order: OrderState, m: ReplaceMessage, reason: RefusalReason) {
    match reason
    case MissingField => !Complete(m)
    case SymbolChanged => Complete(m) && m.symbol.value != order.symbol
    case NotLimit => SameInstrument(order, m) && order.kind.Market?
    case BadQuantity => SameInstrument(order, m) && order.kind.Limit? && !GoodQuantity(order, m)
    case BadPrice => GoodQuantity(order, m) && !GoodPrice(order, m)
    case NotAboveCumulative => GoodPrice(order, m) && m.quantity.value.value <= order.cumulative
    case SideChanged => GoodPrice(order, m) && m.quantity.value.value > order.cumulative && !SameSide(order, m)
    case _ => false
  }

  predicate SameSide(order: OrderState, m: ReplaceMessage) {
    m.side.None? || m.side.value == Some(order.side)
  }

  predicate TermsFit(order: OrderState, m: ReplaceMessage) {
    GoodPrice(order, m) && m.quantity.value.value > order.cumulative && SameSide(order, m)
  }

  lemma ObjectionIsTurned(order: OrderState, m: ReplaceMessage, reason: RefusalReason)
    ensures ReplaceRefusal(order, m) == Some(reason) <==> TermsTurned(order, m, reason)
    ensures ReplaceRefusal(order, m).None? <==> TermsFit(order, m)
  {
  }

  lemma ReplaceRefused(s: Session, m: ReplaceMessage)
    ensures var s' := HandleReplace(s, m);
      var refusal := Refusal(s, m.clOrdId, m.orig);
      if refusal.Some? then TurnedAway(s, s', CancelRejected(m.clOrdId, m.orig, refusal.value), UsedUp(m.clOrdId, m.orig), s.nextOrderId)
      else
        var id := s.clOrdIds[m.orig.value];
        var objection := ReplaceRefusal(s.orders[id], m);
        if objection.Some? then TurnedAway(s, s', CancelRejected(m.clOrdId, m.orig, objection.value), UsedUp(m.clOrdId, m.orig), s.nextOrderId)
        else if !m.reached then TurnedAway(s, s', CancelRejected(m.clOrdId, m.orig, CoreUnreachable), UsedUp(m.clOrdId, m.orig), s.nextOrderId)
        else
          var total := m.quantity.value.value;
          Queued(s, s', id, ReplacePending(m.clOrdId.value, m.orig.value, total, total - s.orders[id].cumulative, m.price.value.value))
  {
  }

  /** A replacement request is turned away for exactly one reason, or its request is queued. */
  lemma {:induction false} ReplaceRequestIsHandled(s: Session, m: ReplaceMessage, reason: RefusalReason)
    ensures var s' := React(s, OrderCancelReplaceRequest(m));
      && (ReplaceTurned(s, m, reason) <==> s'.sent == s.sent + [CancelRejected(m.clOrdId, m.orig, reason)])
      && (ReplaceTurned(s, m, reason) ==> TurnedAway(s, s', CancelRejected(m.clOrdId, m.orig, reason), UsedUp(m.clOrdId, m.orig), s.nextOrderId))
      && (MayReplace(s, m) && m.reached ==>
            var id := s.clOrdIds[m.orig.value];
            var total := m.quantity.value.value;
            Queued(s, s', id, ReplacePending(m.clOrdId.value, m.orig.value, total, total - s.orders[id].cumulative, m.price.value.value)))
  {
    hide HandleReplace, Refusal, ReplaceRefusal, PendingFor, TermsTurned, Turned, TurnedAway, Queued;
    var refusal := Refusal(s, m.clOrdId, m.orig);
    RefusalIsTurned(s, m.clOrdId, m.orig, reason);
    ReplaceRefused(s, m);
    if refusal.Some? {
      GivenReason(s, HandleReplace(s, m), m, refusal.value, reason);
    } else {
      var order := s.orders[s.clOrdIds[m.orig.value]];
      var objection := ReplaceRefusal(order, m);
      ObjectionIsTurned(order, m, reason);
      if objection.Some? {
        GivenReason(s, HandleReplace(s, m), m, objection.value, reason);
        ObjectionIsTurned(order, m, objection.value);
      } else if !m.reached {
        GivenReason(s, HandleReplace(s, m), m, CoreUnreachable, reason);
      } else {
        assert reason != CoreUnreachable ==> !ReplaceTurned(s, m, reason);
      }
    }
  }

  lemma GivenReason(s: Session, s': Session, m: ReplaceMessage, given: RefusalReason, reason: RefusalReason)
    requires TurnedAway(s, s', CancelRejected(m.clOrdId, m.orig, given), UsedUp(m.clOrdId, m.orig), s.nextOrderId)
    ensures s'.sent == s.sent + [CancelRejected(m.clOrdId, m.orig, reason)] <==> given == reason
  {
    LastSent(s.sent, s'.sent, CancelRejected(m.clOrdId, m.orig, reason), CancelRejected(m.clOrdId, m.orig, given));
  }

  // A request, under an id not used before, about this order.
  predicate Names(s: Session, clOrdId: Option<ClOrdId>, orig: Option<ClOrdId>, id: OrderId) {
    Fresh(s, clOrdId, orig) && orig.value in s.clOrdIds && s.clOrdIds[orig.value] == id
  }

  /** Once a cancel has succeeded, a further request to cancel or replace the order is told that it does not work. */
  lemma {:induction false} CancelledNoLongerWorks(s: Session, m: CancelMessage, inputs: seq<Input>, cancel: CancelMessage, replace: ReplaceMessage)
    requires Booked(s) && NamesWorking(s, m.clOrdId, m.orig) && m.reached
    ensures var id := s.clOrdIds[m.orig.value];
      var s' := Run(React(s, OrderCancelRequest(m)), inputs);
      var done := React(s', OrderResponse(id, true));
      IsAnswered(s', id, m.clOrdId.value) ==>
        && (Names(done, cancel.clOrdId, cancel.orig, id) ==>
              React(done, OrderCancelRequest(cancel)).sent == done.sent + [CancelRejected(cancel.clOrdId, cancel.orig, NotWorking)])
        && (Names(done, replace.clOrdId, replace.orig, id) ==>
              React(done, OrderCancelReplaceRequest(replace)).sent == done.sent + [CancelRejected(replace.clOrdId, replace.orig, NotWorking)])
  {
    hide Run, React, Booked, Answers, CancelTurned, ReplaceTurned;
    var id := s.clOrdIds[m.orig.value];
    var s' := Run(React(s, OrderCancelRequest(m)), inputs);
    var done := React(s', OrderResponse(id, true));
    CancelIsAnswered(s, m, inputs, true);
    CancelRequestIsHandled(done, cancel, NotWorking);
    ReplaceRequestIsHandled(done, replace, NotWorking);
    NothingLeft(done, cancel, replace);
  }

  lemma NothingLeft(s: Session, cancel: CancelMessage, replace: ReplaceMessage)
    ensures Turned(s, cancel.clOrdId, cancel.orig, NotWorking) ==> CancelTurned(s, cancel, NotWorking)
    ensures Turned(s, replace.clOrdId, replace.orig, NotWorking) ==> ReplaceTurned(s, replace, NotWorking)
  {
  }

  // A new order on record: under the number drawn, with the terms asked for and its whole quantity left.
  ghost predicate PutOnRecord(s: Session, s': Session, id: OrderId, c: ClOrdId, t: Terms) {
    && id !in s.orders && c !in s.clOrdIds
    && s' == s.(orders := s.orders[id := OrderState(t.symbol, t.side, t.kind, t.tif, c, t.quantity, 0, t.quantity, 0, t.price, New)],
                clOrdIds := s.clOrdIds[c := id], used := s.used + {c}, nextOrderId := id + 1, pending := s'.pending)
    && forall k :: PendingFor(s', k) == if k == id then [NewPending(c)] else PendingFor(s, k)
  }

  lemma NewRefused(s: Session, m: NewRequestMessage)
    requires m.clOrdId.None? || m.clOrdId.value in s.used || m.terms.None?
    ensures var again := m.clOrdId.Some? && m.clOrdId.value in s.used;
      TurnedAway(s, HandleNew(s, m), NewOrderRejected(m.clOrdId, if again then DuplicateClOrdId else NotTranslated),
                 m.clOrdId, if again then s.nextOrderId else s.nextOrderId + m.skipped + 1)
  {
    hide Submitted;
  }

  lemma NewUnsent(s: Session, m: NewRequestMessage)
    requires Booked(s) && m.clOrdId.Some? && m.clOrdId.value !in s.used && m.terms.Some? && !m.reached
    ensures TurnedAway(s, HandleNew(s, m), NewOrderRejected(m.clOrdId, CoreUnreachable), m.clOrdId, s.nextOrderId + m.skipped + 1)
  {
    hide HandleNew;
    UnsentLeavesNothing(s, m);
    NumberIsFree(s, s.nextOrderId + m.skipped);
  }

  lemma {:induction false} NewPlaced(s: Session, m: NewRequestMessage)
    requires Booked(s) && m.clOrdId.Some? && m.clOrdId.value !in s.used && m.terms.Some? && m.reached
    ensures PutOnRecord(s, HandleNew(s, m), s.nextOrderId + m.skipped, m.clOrdId.value, m.terms.value)
  {
    NumberIsFree(s, s.nextOrderId + m.skipped);
    UnusedIsUnmapped(s, m.clOrdId.value);
    hide Booked;
  }

  /** A new order is turned away for exactly one reason, or it is on record and its request queued. */
  lemma {:induction false} NewRequestIsHandled(s: Session, m: NewRequestMessage, reason: RefusalReason)
    requires Booked(s)
    ensures var s' := React(s, NewOrderSingle(m));
      && (NewTurned(s, m, reason) <==> s'.sent == s.sent + [NewOrderRejected(m.clOrdId, reason)])
      && (NewTurned(s, m, reason) ==>
            TurnedAway(s, s', NewOrderRejected(m.clOrdId, reason), m.clOrdId,
                       if reason == DuplicateClOrdId then s.nextOrderId else s.nextOrderId + m.skipped + 1))
      && (m.clOrdId.Some? && m.clOrdId.value !in s.used && m.terms.Some? && m.reached ==>
            PutOnRecord(s, s', s.nextOrderId + m.skipped, m.clOrdId.value, m.terms.value))
  {
    hide HandleNew, Booked, PendingFor;
    if m.clOrdId.None? || m.clOrdId.value in s.used || m.terms.None? {
      NewRefused(s, m);
      LastSent(s.sent, HandleNew(s, m).sent, NewOrderRejected(m.clOrdId, reason),
               NewOrderRejected(m.clOrdId, if m.clOrdId.Some? && m.clOrdId.value in s.used then DuplicateClOrdId else NotTranslated));
    } else if !m.reached {
      NewUnsent(s, m);
      LastSent(s.sent, HandleNew(s, m).sent, NewOrderRejected(m.clOrdId, reason), NewOrderRejected(m.clOrdId, CoreUnreachable));
    } else {
      NewPlaced(s, m);
    }
  }

  // ---- Executions --------------------------------------------------------------------------------------------

  // An execution moves what is left, at most, from leaves to cumulative, at the trade's price.
  function Executing(order: OrderState, t: SelfTrade): OrderState {
    var q := if order.leaves < t.quantity then order.leaves else t.quantity;
    OrderState(order.symbol, order.side, order.kind, order.tif, order.clOrdId, order.quantity, order.cumulative + q, order.leaves - q,
               order.notional + t.price * q, order.price, if order.leaves <= t.quantity then Filled else PartiallyFilled)
  }

  // One order executes, and this is reported under its own id with the quantity it executed.
  ghost predicate Fills(s: Session, id: OrderId, t: SelfTrade, s': Session) {
    && id in s.orders
    && var order := Executing(s.orders[id], t);
       s' == s.(orders := s.orders[id := order],
                sent := s.sent + [ExecutionReport(id, Fill, order.clOrdId, order.cumulative - s.orders[id].cumulative, order)])
  }

  lemma AppliedFills(s: Session, id: OrderId, t: SelfTrade)
    requires id in s.orders
    ensures Fills(s, id, t, ApplyTrade(s, id, t))
  {
  }

  /**
   A trade is executed for every order of the session that is a side of it, the buyer first, except that
   the second copy of a trade within the session changes nothing but the count of copies to ignore.
   */
  lemma {:induction false} TradeIsExecuted(s: Session, t: SelfTrade) returns (mid: Session)
    ensures var s' := React(s, TradeExecution(t));
      if t.buyId in s.orders && t.sellId in s.orders then
        if s.duplicatesToIgnore > 0 && s.lastSelfTrade == Some(t) then s' == s.(duplicatesToIgnore := s.duplicatesToIgnore - 1)
        else
          && Fills(s, t.buyId, t, mid)
          && Fills(mid, t.sellId, t, s'.(lastSelfTrade := s.lastSelfTrade, duplicatesToIgnore := s.duplicatesToIgnore))
          && s'.lastSelfTrade == Some(t) && s'.duplicatesToIgnore == 1
      else if t.buyId in s.orders then Fills(s, t.buyId, t, s')
      else if t.sellId in s.orders then Fills(s, t.sellId, t, s')
      else s' == s
  {
    hide ApplyTrade;
    mid := s;
    if t.buyId in s.orders {
      AppliedFills(s, t.buyId, t);
      mid := ApplyTrade(s, t.buyId, t);
      if t.sellId in s.orders {
        AppliedFills(mid, t.sellId, t);
      }
    } else if t.sellId in s.orders {
      AppliedFills(s, t.sellId, t);
    }
  }

  // ---- Boundaries ----------------------------------------------------------------------------------------------

  // An order that cannot rest and waits for this book update.
  predicate Ends(s: Session, symbol: string, id: OrderId) {
    id in s.awaitingBoundary && id in s.orders && s.orders[id].symbol == symbol
  }

  function Ended(order: OrderState): OrderState {
    if order.leaves == 0 then order else order.(leaves := 0, status := Cancelled)
  }

  // The reports of those that had something left, in the order listed.
  function EndReports(s: Session, symbol: string, ids: seq<OrderId>): seq<Outgoing> {
    if ids == [] then []
    else
      var id := ids[0];
      (if Ends(s, symbol, id) && s.orders[id].leaves > 0
       then [ExecutionReport(id, CancelAck, s.orders[id].clOrdId, 0, Ended(s.orders[id]))] else [])
      + EndReports(s, symbol, ids[1..])
  }

  lemma {:induction false} SameEndReports(s: Session, s': Session, symbol: string, ids: seq<OrderId>)
    requires forall i :: 0 <= i < |ids| ==> (ids[i] in s'.awaitingBoundary <==> ids[i] in s.awaitingBoundary)
    requires forall i :: 0 <= i < |ids| ==> (ids[i] in s'.orders <==> ids[i] in s.orders)
    requires forall i :: 0 <= i < |ids| && ids[i] in s.orders ==> s'.orders[ids[i]] == s.orders[ids[i]]
    ensures EndReports(s', symbol, ids) == EndReports(s, symbol, ids)
  {
    if ids != [] {
      assert ids[0] in ids;
      assert forall i :: 0 <= i < |ids[1..]| ==> ids[1..][i] == ids[i + 1];
      SameEndReports(s, s', symbol, ids[1..]);
    }
  }

  // What a book update leaves: the orders that end have nothing left, and these are told.
  ghost predicate BoundaryPassed(s: Session, symbol: string, ids: seq<OrderId>, s': Session) {
    && s' == s.(orders := s'.orders, awaitingBoundary := s'.awaitingBoundary, sent := s.sent + EndReports(s, symbol, ids))
    && s'.orders.Keys == s.orders.Keys
    && (forall id :: id in s.orders ==> s'.orders[id] == if id in ids && Ends(s, symbol, id) then Ended(s.orders[id]) else s.orders[id])
    && (forall id :: id in s'.awaitingBoundary <==>
          id in s.awaitingBoundary && !(id in ids && (id !in s.orders || s.orders[id].symbol == symbol)))
  }

  lemma OneEnds(s: Session, symbol: string, id: OrderId)
    ensures BoundaryPassed(s, symbol, [id], FinalizeOne(s, symbol, id))
  {
    assert EndReports(s, symbol, [id][1..]) == [];
  }

  /** At a book update every order of its symbol that waits for one ends, once, and is reported if it had something left. */
  lemma {:induction false} BoundaryIsPassed(s: Session, symbol: string, ids: seq<OrderId>)
    requires forall i, j :: 0 <= i < j < |ids| ==> ids[i] != ids[j]
    ensures BoundaryPassed(s, symbol, ids, React(s, BookUpdate(symbol, ids)))
    decreases |ids|
  {
    hide FinalizeOne;
    if ids != [] {
      var id, rest := ids[0], ids[1..];
      var first := FinalizeOne(s, symbol, id);
      OneEnds(s, symbol, id);
      assert id !in rest;
      BoundaryIsPassed(first, symbol, rest);
      SameEndReports(s, first, symbol, rest);
      OneThenRest(s, symbol, id, rest, first, React(first, BookUpdate(symbol, rest)));
      assert ids == [id] + rest;
    }
  }

  lemma OneThenRest(s: Session, symbol: string, id: OrderId, rest: seq<OrderId>, first: Session, last: Session)
    requires id !in rest && BoundaryPassed(s, symbol, [id], first) && BoundaryPassed(first, symbol, rest, last)
    requires EndReports(first, symbol, rest) == EndReports(s, symbol, rest)
    ensures BoundaryPassed(s, symbol, [id] + rest, last)
  {
    hide EndReports, Ended;
    EndReportsInTurn(s, symbol, id, rest);
    assert forall k :: k in [id] + rest <==> k == id || k in rest;
    assert s.sent + EndReports(s, symbol, [id]) + EndReports(s, symbol, rest) == s.sent + EndReports(s, symbol, [id] + rest);
    forall k | k in s.orders
      ensures last.orders[k] == if k in [id] + rest && Ends(s, symbol, k) then Ended(s.orders[k]) else s.orders[k]
    {
      assert k in first.orders;
      assert k != id ==> Ends(first, symbol, k) == Ends(s, symbol, k);
    }
  }

  lemma EndReportsInTurn(s: Session, symbol: string, id: OrderId, rest: seq<OrderId>)
    ensures EndReports(s, symbol, [id] + rest) == EndReports(s, symbol, [id]) + EndReports(s, symbol, rest)
  {
    assert ([id] + rest)[1..] == rest;
    assert EndReports(s, symbol, [id][1..]) == [];
  }
}
