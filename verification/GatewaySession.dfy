/** The session as an object: each handler updates its maps and queues in place, as Gateway says. */
module GatewaySessions {
  import opened ExchangeTypes
  import opened Risk
  import opened Gateway
  import Exchanges
  import GatewayLaws

  class SessionContext {
    var orders: map<OrderId, OrderState>
    var clOrdIds: map<ClOrdId, OrderId>
    var used: set<ClOrdId>
    var pending: map<OrderId, seq<PendingRequest>>
    var awaitingBoundary: set<OrderId>
    var lastSelfTrade: Option<SelfTrade>
    var duplicatesToIgnore: nat
    var nextOrderId: OrderId
    var sent: seq<Outgoing>

    ghost function State(): Session
      reads this
    {
      Session(orders, clOrdIds, used, pending, awaitingBoundary, lastSelfTrade, duplicatesToIgnore, nextOrderId, sent)
    }

    constructor ()
      ensures State() == NEW_SESSION
    {
      orders, clOrdIds, used, pending, awaitingBoundary := map[], map[], {}, map[], {};
      lastSelfTrade, duplicatesToIgnore, nextOrderId, sent := None, 0, 1, [];
    }

    method Send(m: Outgoing)
      modifies this`sent
      ensures State() == Tell(old(State()), m)
    {
      sent := sent + [m];
    }

    method SendExecutionReport(id: OrderId, exec: ExecType, clOrdId: ClOrdId, lastQuantity: nat, order: OrderState)
      modifies this`orders, this`sent
      ensures State() == Report(old(State()), id, exec, clOrdId, lastQuantity, order)
    {
      orders := orders[id := order];
      Send(ExecutionReport(id, exec, clOrdId, lastQuantity, order));
    }

    method PushPending(id: OrderId, request: PendingRequest)
      modifies this`pending
      ensures State() == Enqueued(old(State()), id, request)
    {
      if id !in pending {
        pending := pending[id := []];
      }
      pending := pending[id := pending[id] + [request]];
    }

    // Taken back when the request could not be sent: the queue stays, as it was.
    method PopPending(id: OrderId)
      requires id in pending && pending[id] != []
      modifies this`pending
      ensures State() == old(State()).(pending := old(pending)[id := old(pending)[id][..|old(pending)[id]| - 1]])
    {
      pending := pending[id := pending[id][..|pending[id]| - 1]];
    }

    method Place(id: OrderId, clOrdId: ClOrdId, order: OrderState)
      modifies this`orders, this`clOrdIds, this`pending
      ensures var s := old(State());
        State() == Enqueued(s.(orders := s.orders[id := order], clOrdIds := Emplaced(s.clOrdIds, clOrdId, id)), id, NewPending(clOrdId))
    {
      orders := orders[id := order];
      clOrdIds := Emplaced(clOrdIds, clOrdId, id);
      PushPending(id, NewPending(clOrdId));
    }

    method Withdraw(id: OrderId, clOrdId: ClOrdId)
      requires PendingFor(State(), id) != []
      modifies this`pending, this`clOrdIds, this`orders
      ensures State() == Withdrawn(old(State()), id, clOrdId)
    {
      PopPending(id);
      clOrdIds := clOrdIds - {clOrdId};
      orders := orders - {id};
    }

    method HandleNewOrder(m: NewRequestMessage)
      modifies this
      ensures State() == HandleNew(old(State()), m)
    {
      hide Emplaced, Withdrawn, OrderFrom;
      if m.clOrdId.Some? {
        if m.clOrdId.value in used {
          Send(NewOrderRejected(m.clOrdId, DuplicateClOrdId));
          return;
        }
        used := used + {m.clOrdId.value};
      }
      var id := nextOrderId + m.skipped;
      nextOrderId := id + 1;
      if m.clOrdId.None? || m.terms.None? {
        Send(NewOrderRejected(m.clOrdId, NotTranslated));
        return;
      }
      Place(id, m.clOrdId.value, OrderFrom(m.terms.value, m.clOrdId.value));
      if !m.reached {
        Withdraw(id, m.clOrdId.value);
        Send(NewOrderRejected(m.clOrdId, CoreUnreachable));
      }
    }

    // The order a cancel or replacement names, or why it is refused at once.
    method FindWorking(clOrdId: Option<ClOrdId>, orig: Option<ClOrdId>) returns (refusal: Option<RefusalReason>, id: OrderId)
      modifies this`used
      ensures State() == Noted(old(State()), clOrdId, orig)
      ensures refusal == Refusal(old(State()), clOrdId, orig)
      ensures refusal.None? ==> orig.value in clOrdIds && id == clOrdIds[orig.value] && id in orders
    {
      id := 0;
      if clOrdId.None? || orig.None? {
        return Some(MissingField), id;
      }
      var unseen := clOrdId.value !in used;
      used := used + {clOrdId.value};
      if !unseen {
        return Some(DuplicateClOrdId), id;
      }
      if orig.value !in clOrdIds {
        return Some(UnknownOrder), id;
      }
      id := clOrdIds[orig.value];
      if id !in orders || orders[id].leaves == 0 {
        return Some(NotWorking), id;
      }
      return None, id;
    }

    method HandleCancel(m: CancelMessage)
      modifies this
      ensures State() == Gateway.HandleCancel(old(State()), m)
    {
      var refusal, id := FindWorking(m.clOrdId, m.orig);
      if refusal.Some? {
        Send(CancelRejected(m.clOrdId, m.orig, refusal.value));
        return;
      }
      PushPending(id, CancelPending(m.clOrdId.value, m.orig.value));
      if !m.reached {
        PopPending(id);
        Send(CancelRejected(m.clOrdId, m.orig, CoreUnreachable));
      }
    }

    method HandleReplace(m: ReplaceMessage)
      modifies this
      ensures State() == Gateway.HandleReplace(old(State()), m)
    {
      var refusal, id := FindWorking(m.clOrdId, m.orig);
      if refusal.Some? {
        Send(CancelRejected(m.clOrdId, m.orig, refusal.value));
        return;
      }
      var objection := ReplaceRefusal(orders[id], m);
      if objection.Some? {
        Send(CancelRejected(m.clOrdId, m.orig, objection.value));
        return;
      }
      var total := m.quantity.value.value;
      var working := total - orders[id].cumulative;
      PushPending(id, ReplacePending(m.clOrdId.value, m.orig.value, total, working, m.price.value.value));
      if !m.reached {
        PopPending(id);
        Send(CancelRejected(m.clOrdId, m.orig, CoreUnreachable));
      }
    }

    method TakePending(id: OrderId) returns (request: PendingRequest)
      requires PendingFor(State(), id) != []
      modifies this`pending
      ensures State() == Dequeued(old(State()), id) && request == PendingFor(old(State()), id)[0]
    {
      request := pending[id][0];
      pending := pending[id := pending[id][1..]];
      if pending[id] == [] {
        pending := pending - {id};
      }
    }

    method HandleCoreOrderResponse(id: OrderId, success: bool)
      modifies this
      ensures State() == HandleResponse(old(State()), id, success)
    {
      hide Dequeued;
      if id !in pending || pending[id] == [] {
        return;
      }
      GatewayLaws.DequeuedParts(State(), id);
      var request := TakePending(id);
      if id !in orders {
        return;
      }
      match request {
        case NewPending(clOrdId) => AnswerNew(id, clOrdId, success);
        case CancelPending(clOrdId, orig) =>
          if success {
            SendExecutionReport(id, CancelAck, clOrdId, 0, orders[id].(leaves := 0, status := Cancelled));
          } else {
            Send(CancelRejected(Some(clOrdId), Some(orig), RejectedByCore));
          }
        case ReplacePending(clOrdId, orig, total, working, price) =>
          if !success {
            Send(CancelRejected(Some(clOrdId), Some(orig), RejectedByCore));
          } else {
            clOrdIds := Emplaced(clOrdIds, clOrdId, id);
            var status := if orders[id].cumulative == 0 then New else PartiallyFilled;
            SendExecutionReport(id, ReplaceAck, clOrdId, 0,
              orders[id].(clOrdId := clOrdId, quantity := total, leaves := working, price := price, status := status));
          }
      }
    }

    method AnswerNew(id: OrderId, clOrdId: ClOrdId, success: bool)
      requires id in orders
      modifies this
      ensures var s, order := old(State()), old(orders)[id];
        State() ==
          if success then
            Report(s.(awaitingBoundary := s.awaitingBoundary + if order.kind.Market? || !order.tif.GoodTillCancel? then {id} else {}),
                   id, NewAck, clOrdId, 0, order.(status := New))
          else
            Tell(s, ExecutionReport(id, CoreReject, clOrdId, 0, order.(leaves := 0, status := Refused))).(
              clOrdIds := s.clOrdIds - {order.clOrdId}, orders := s.orders - {id})
    {
      var order := orders[id];
      if success {
        if order.kind.Market? || !order.tif.GoodTillCancel? {
          awaitingBoundary := awaitingBoundary + {id};
        }
        SendExecutionReport(id, NewAck, clOrdId, 0, order.(status := New));
      } else {
        Send(ExecutionReport(id, CoreReject, clOrdId, 0, order.(leaves := 0, status := Refused)));
        clOrdIds := clOrdIds - {order.clOrdId};
        orders := orders - {id};
      }
    }

    method ApplyTradeToOrder(id: OrderId, t: SelfTrade)
      requires id in orders
      modifies this`orders, this`sent
      ensures State() == ApplyTrade(old(State()), id, t)
    {
      var order := orders[id];
      var quantity := Min(order.leaves, t.quantity);
      order := order.(cumulative := order.cumulative + quantity, leaves := order.leaves - quantity,
                      notional := order.notional + t.price * quantity);
      order := order.(status := if order.leaves == 0 then Filled else PartiallyFilled);
      SendExecutionReport(id, Fill, order.clOrdId, quantity, order);
    }

    method HandleCoreTrade(t: SelfTrade)
      modifies this
      ensures State() == HandleTrade(old(State()), t)
    {
      hide ApplyTrade;
      var ownsBuy, ownsSell := t.buyId in orders, t.sellId in orders;
      if !ownsBuy && !ownsSell {
        return;
      }
      if ownsBuy && ownsSell {
        if duplicatesToIgnore > 0 && lastSelfTrade == Some(t) {
          duplicatesToIgnore := duplicatesToIgnore - 1;
          return;
        }
        StillHeld(State(), t.buyId, t);
        ApplyTradeToOrder(t.buyId, t);
        ApplyTradeToOrder(t.sellId, t);
        lastSelfTrade := Some(t);
        duplicatesToIgnore := 1;
        return;
      }
      ApplyTradeToOrder(if ownsBuy then t.buyId else t.sellId, t);
    }

    lemma StillHeld(s: Session, id: OrderId, t: SelfTrade)
      requires id in s.orders
      ensures ApplyTrade(s, id, t).orders.Keys == s.orders.Keys
    {
    }

    // Each waiting order once, in whatever order the set gives them up.
    method FinalizeNonRestingOrders(symbol: Symbol) returns (ghost ids: seq<OrderId>)
      modifies this
      ensures Exchanges.Lists(ids, old(awaitingBoundary))
      ensures State() == Finalize(old(State()), symbol, ids)
    {
      hide FinalizeOne;
      var left := awaitingBoundary;
      ids := [];
      ghost var all := awaitingBoundary;
      while left != {}
        invariant left <= all && Exchanges.Lists(ids, all - left)
        invariant State() == Finalize(old(State()), symbol, ids)
        decreases |left|
      {
        var id :| id in left;
        FinalizeMore(old(State()), symbol, ids, id);
        FinalizeOrder(symbol, id);
        ids := ids + [id];
        left := left - {id};
      }
    }

    method FinalizeOrder(symbol: Symbol, id: OrderId)
      modifies this
      ensures State() == FinalizeOne(old(State()), symbol, id)
    {
      if id !in awaitingBoundary {
        return;
      }
      if id !in orders {
        awaitingBoundary := awaitingBoundary - {id};
        return;
      }
      if orders[id].symbol != symbol {
        return;
      }
      if orders[id].leaves > 0 {
        SendExecutionReport(id, CancelAck, orders[id].clOrdId, 0, orders[id].(leaves := 0, status := Cancelled));
      }
      awaitingBoundary := awaitingBoundary - {id};
    }
  }

  lemma {:induction false} FinalizeMore(s: Session, symbol: Symbol, ids: seq<OrderId>, id: OrderId)
    ensures Finalize(s, symbol, ids + [id]) == FinalizeOne(Finalize(s, symbol, ids), symbol, id)
    decreases |ids|
  {
    hide FinalizeOne;
    if ids == [] {
      assert (ids + [id])[1..] == [];
    } else {
      assert (ids + [id])[1..] == ids[1..] + [id];
      FinalizeMore(FinalizeOne(s, symbol, ids[0]), symbol, ids[1..], id);
    }
  }
}
