/** What the gateway's bookkeeping keeps, whatever the client and the exchange send and in any order. */
module GatewayLaws {
  import opened ExchangeTypes
  import opened Gateway

  // ---- Ids and orders -----------------------------------------------------------------------------------

  // Every mapped id names a held order; a request to place an order is the oldest outstanding one,
  // and until it is answered the order's own id names it, and no other does.
  ghost predicate Booked(s: Session) {
    && s.clOrdIds.Keys <= s.used
    && (forall c :: c in s.clOrdIds ==> s.clOrdIds[c] in s.orders)
    && (forall id :: id in s.orders || id in s.pending ==> id < s.nextOrderId)
    && (forall id :: Unanswered(s, id) ==> OnlyName(s, id))
    && (forall id, i :: 0 < i < |PendingFor(s, id)| ==> !PendingFor(s, id)[i].NewPending?)
    && (forall id, i :: 0 <= i < |PendingFor(s, id)| ==> PendingFor(s, id)[i].clOrdId in s.used)
  }

  predicate Unanswered(s: Session, id: OrderId) {
    PendingFor(s, id) != [] && PendingFor(s, id)[0].NewPending?
  }

  ghost predicate OnlyName(s: Session, id: OrderId) {
    id in s.orders ==>
      && s.orders[id].clOrdId in s.clOrdIds
      && forall c :: c in s.clOrdIds ==> (s.clOrdIds[c] == id <==> c == s.orders[id].clOrdId)
  }

  // A step that changes neither ids nor requests, and no order's own id.
  lemma {:induction false} SameNames(s: Session, s': Session)
    requires Booked(s)
    requires s'.clOrdIds == s.clOrdIds && s.used <= s'.used && s'.nextOrderId >= s.nextOrderId
    requires forall id :: PendingFor(s', id) == PendingFor(s, id)
    requires forall id :: id in s'.pending ==> id in s.pending || id < s'.nextOrderId
    requires s'.orders.Keys == s.orders.Keys && forall id :: id in s.orders ==> s'.orders[id].clOrdId == s.orders[id].clOrdId
    ensures Booked(s')
  {
    forall id | Unanswered(s', id)
      ensures OnlyName(s', id)
    {
      assert Unanswered(s, id) && OnlyName(s, id);
    }
  }

  // Queueing a request behind others that is not itself for a new order.
  lemma {:induction false} EnqueueKeepsBooked(s: Session, id: OrderId, request: PendingRequest)
    requires Booked(s) && id < s.nextOrderId && !request.NewPending? && request.clOrdId in s.used
    ensures Booked(Enqueued(s, id, request))
  {
    var s' := Enqueued(s, id, request);
    forall k | Unanswered(s', k)
      ensures OnlyName(s', k)
    {
      assert Unanswered(s, k) && OnlyName(s, k);
    }
    forall k, i | 0 <= i < |PendingFor(s', k)|
      ensures (i > 0 ==> !PendingFor(s', k)[i].NewPending?) && PendingFor(s', k)[i].clOrdId in s'.used
    {
      if k == id && i == |PendingFor(s, id)| {
        assert PendingFor(s', k)[i] == request;
      } else {
        assert PendingFor(s', k)[i] == PendingFor(s, k)[i];
      }
    }
  }

  // A new order under a number never used and an id never used.
  lemma {:induction false} PlaceKeepsBooked(s: Session, id: OrderId, clOrdId: ClOrdId, order: OrderState)
    requires Booked(s) && id >= s.nextOrderId && clOrdId !in s.used && order.clOrdId == clOrdId
    ensures Booked(Enqueued(s.(used := s.used + {clOrdId}, nextOrderId := id + 1, orders := s.orders[id := order],
                               clOrdIds := Emplaced(s.clOrdIds, clOrdId, id)), id, NewPending(clOrdId)))
  {
    assert PendingFor(s, id) == [] && id !in s.orders && clOrdId !in s.clOrdIds;
    var s' := Enqueued(s.(used := s.used + {clOrdId}, nextOrderId := id + 1, orders := s.orders[id := order],
                          clOrdIds := Emplaced(s.clOrdIds, clOrdId, id)), id, NewPending(clOrdId));
    assert PendingFor(s', id) == [NewPending(clOrdId)];
    assert forall k :: k != id ==> PendingFor(s', k) == PendingFor(s, k);
    forall k | Unanswered(s', k)
      ensures OnlyName(s', k)
    {
      if k != id {
        assert Unanswered(s, k) && OnlyName(s, k);
      }
    }
    forall k, i | 0 <= i < |PendingFor(s', k)|
      ensures (i > 0 ==> !PendingFor(s', k)[i].NewPending?) && PendingFor(s', k)[i].clOrdId in s'.used
    {
      if k != id {
        assert PendingFor(s', k)[i] == PendingFor(s, k)[i];
      }
    }
  }

  lemma AddedThenRemoved<K, V>(m: map<K, V>, k: K, v: V)
    requires k !in m
    ensures m[k := v] - {k} == m
  {
  }

  /** A new order that could not be sent leaves nothing behind but its used-up ids and an empty queue. */
  lemma {:induction false} UnsentLeavesNothing(s: Session, m: NewRequestMessage)
    requires Booked(s) && m.clOrdId.Some? && m.clOrdId.value !in s.used && m.terms.Some? && !m.reached
    ensures var id := s.nextOrderId + m.skipped;
      HandleNew(s, m) == Tell(s.(used := s.used + {m.clOrdId.value}, nextOrderId := id + 1, pending := s.pending[id := []]),
                              NewOrderRejected(m.clOrdId, CoreUnreachable))
  {
    hide Enqueued, PendingFor, Emplaced, Withdrawn, Submitted, Tell, OrderFrom, HandleNew;
    var id := s.nextOrderId + m.skipped;
    var c := m.clOrdId.value;
    assert id !in s.orders && id !in s.pending && c !in s.clOrdIds by { NumberIsFree(s, id); UnusedIsUnmapped(s, c); }
    hide Booked;
    GetsSubmitted(s, m);
    SubmittedInVain(s.(used := s.used + {c}, nextOrderId := id + 1), id, c, OrderFrom(m.terms.value, c));
  }

  lemma GetsSubmitted(s: Session, m: NewRequestMessage)
    requires m.clOrdId.Some? && m.clOrdId.value !in s.used && m.terms.Some?
    ensures var id, c := s.nextOrderId + m.skipped, m.clOrdId.value;
      HandleNew(s, m) == Submitted(s.(used := s.used + {c}, nextOrderId := id + 1), id, c, OrderFrom(m.terms.value, c), m.reached)
  {
    hide Submitted, OrderFrom;
  }

  lemma SubmittedInVain(drawn: Session, id: OrderId, c: ClOrdId, order: OrderState)
    requires id !in drawn.orders && id !in drawn.pending && c !in drawn.clOrdIds
    ensures Submitted(drawn, id, c, order, false) ==
      Tell(drawn.(pending := drawn.pending[id := []]), NewOrderRejected(Some(c), CoreUnreachable))
  {
    hide Enqueued, Withdrawn, Emplaced, PendingFor;
    PlacedThenWithdrawn(drawn, id, c, order);
  }

  lemma {:induction false} PlacedThenWithdrawn(s: Session, id: OrderId, c: ClOrdId, order: OrderState)
    requires id !in s.orders && id !in s.pending && c !in s.clOrdIds
    ensures var queued := Enqueued(s.(orders := s.orders[id := order], clOrdIds := Emplaced(s.clOrdIds, c, id)), id, NewPending(c));
      PendingFor(queued, id) != [] && Withdrawn(queued, id, c) == s.(pending := s.pending[id := []])
  {
    AddedThenRemoved(s.orders, id, order);
    AddedThenRemoved(s.clOrdIds, c, id);
    TakenBack(s, id, NewPending(c));
  }

  lemma UnusedIsUnmapped(s: Session, c: ClOrdId)
    requires Booked(s) && c !in s.used
    ensures c !in s.clOrdIds
  {
  }

  lemma TakenBack(s: Session, id: OrderId, request: PendingRequest)
    requires id !in s.pending
    ensures var queued := Enqueued(s, id, request).pending;
      id in queued && queued[id] == [request] && queued[id := queued[id][..|queued[id]| - 1]] == s.pending[id := []]
  {
    assert PendingFor(s, id) + [request] == [request];
    assert [request][..0] == [];
  }

  // Whether a new order gets as far as the exchange.
  predicate Placed(s: Session, m: NewRequestMessage) {
    m.clOrdId.Some? && m.clOrdId.value !in s.used && m.terms.Some? && m.reached
  }

  // Otherwise orders, ids and requests stay as they were, and one refusal is sent.
  lemma {:induction false} NotPlaced(s: Session, m: NewRequestMessage)
    requires Booked(s) && !Placed(s, m)
    ensures var s' := HandleNew(s, m);
      && s'.orders == s.orders && s'.clOrdIds == s.clOrdIds && s.used <= s'.used && s'.nextOrderId >= s.nextOrderId
      && (forall id :: PendingFor(s', id) == PendingFor(s, id))
      && (forall id :: id in s'.pending ==> id in s.pending || id < s'.nextOrderId)
      && |s'.sent| == |s.sent| + 1 && s'.sent[..|s.sent|] == s.sent && Quantity(s'.sent[|s.sent|]) == 0
  {
    var id := s.nextOrderId + m.skipped;
    assert PendingFor(s, id) == [] by { NumberIsFree(s, id); }
    if m.clOrdId.Some? && m.clOrdId.value !in s.used && m.terms.Some? {
      UnsentLeavesNothing(s, m);
      hide HandleNew, Booked;
      assert forall k :: PendingFor(s.(pending := s.pending[id := []]), k) == PendingFor(s, k);
    } else {
      RefusedAtOnce(s, m);
      hide HandleNew, Booked;
    }
  }

  lemma RefusedAtOnce(s: Session, m: NewRequestMessage)
    requires m.clOrdId.None? || m.clOrdId.value in s.used || m.terms.None?
    ensures var s' := HandleNew(s, m);
      && s' == s.(used := s'.used, nextOrderId := s'.nextOrderId, sent := s'.sent)
      && s.used <= s'.used && s'.nextOrderId >= s.nextOrderId
      && |s'.sent| == |s.sent| + 1 && s'.sent[..|s.sent|] == s.sent && s'.sent[|s.sent|].NewOrderRejected?
  {
    hide Submitted;
  }

  // The quantity a message reports as just executed.
  function Quantity(m: Outgoing): nat {
    if m.ExecutionReport? then m.lastQuantity else 0
  }

  lemma {:induction false} NewKeepsBooked(s: Session, m: NewRequestMessage)
    requires Booked(s)
    ensures Booked(HandleNew(s, m))
  {
    hide Booked;
    if Placed(s, m) {
      PlaceKeepsBooked(s, s.nextOrderId + m.skipped, m.clOrdId.value, OrderFrom(m.terms.value, m.clOrdId.value));
    } else {
      NotPlaced(s, m);
      hide HandleNew;
      SameNames(s, HandleNew(s, m));
    }
  }

  lemma NumberIsFree(s: Session, id: OrderId)
    requires Booked(s) && id >= s.nextOrderId
    ensures PendingFor(s, id) == [] && id !in s.orders && id !in s.pending
  {
  }

  lemma {:induction false} CancelKeepsBooked(s: Session, m: CancelMessage)
    requires Booked(s)
    ensures Booked(HandleCancel(s, m))
  {
    var noted := Noted(s, m.clOrdId, m.orig);
    SameNames(s, noted);
    if Refusal(s, m.clOrdId, m.orig).Some? || !m.reached {
      SameNames(s, HandleCancel(s, m));
    } else {
      EnqueueKeepsBooked(noted, s.clOrdIds[m.orig.value], CancelPending(m.clOrdId.value, m.orig.value));
    }
  }

  // A replacement that is let through and reaches the exchange, and the request it puts in the queue.
  predicate Admitted(s: Session, m: ReplaceMessage) {
    && Refusal(s, m.clOrdId, m.orig).None?
    && ReplaceRefusal(s.orders[s.clOrdIds[m.orig.value]], m).None?
    && m.reached
  }

  function Asked(s: Session, m: ReplaceMessage): PendingRequest
    requires Admitted(s, m)
  {
    var total := m.quantity.value.value;
    ReplacePending(m.clOrdId.value, m.orig.value, total, total - s.orders[s.clOrdIds[m.orig.value]].cumulative, m.price.value.value)
  }

  // Otherwise the order and its requests stay as they were.
  lemma NotAdmitted(s: Session, m: ReplaceMessage)
    requires !Admitted(s, m)
    ensures var s' := HandleReplace(s, m);
      && s'.orders == s.orders && s'.clOrdIds == s.clOrdIds && s.used <= s'.used && s'.nextOrderId == s.nextOrderId
      && (forall id :: PendingFor(s', id) == PendingFor(s, id))
      && (forall id :: id in s'.pending ==> id in s.pending || id in s.clOrdIds.Values)
  {
    var s' := HandleReplace(s, m);
    if s'.pending != s.pending {
      var id := s.clOrdIds[m.orig.value];
      assert s'.pending == s.pending[id := PendingFor(s, id)] && id in s.clOrdIds.Values;
    }
  }

  lemma {:induction false} ReplaceKeepsBooked(s: Session, m: ReplaceMessage)
    requires Booked(s)
    ensures Booked(HandleReplace(s, m))
  {
    if Admitted(s, m) {
      var noted := Noted(s, m.clOrdId, m.orig);
      SameNames(s, noted);
      EnqueueKeepsBooked(noted, s.clOrdIds[m.orig.value], Asked(s, m));
    } else {
      NotAdmitted(s, m);
      hide HandleReplace;
      SameNames(s, HandleReplace(s, m));
    }
  }

  // Once its oldest request is answered, nothing outstanding for an order is for a new order.
  lemma {:induction false} DequeueKeepsBooked(s: Session, id: OrderId)
    requires Booked(s) && PendingFor(s, id) != []
    ensures Booked(Dequeued(s, id)) && PendingFor(Dequeued(s, id), id) == PendingFor(s, id)[1..]
    ensures !Unanswered(Dequeued(s, id), id)
  {
    var s' := Dequeued(s, id);
    assert PendingFor(s', id) == PendingFor(s, id)[1..];
    assert |PendingFor(s, id)| > 1 ==> PendingFor(s', id)[0] == PendingFor(s, id)[1];
    forall k | Unanswered(s', k)
      ensures OnlyName(s', k) && k != id
    {
      assert Unanswered(s, k) && OnlyName(s, k);
    }
    forall k, i | 0 <= i < |PendingFor(s', k)|
      ensures (i > 0 ==> !PendingFor(s', k)[i].NewPending?) && PendingFor(s', k)[i].clOrdId in s'.used
    {
      if k == id {
        assert PendingFor(s', k)[i] == PendingFor(s, k)[i + 1];
      } else {
        assert PendingFor(s', k)[i] == PendingFor(s, k)[i];
      }
    }
  }

  // The exchange refused a new order: it is forgotten together with its only id.
  lemma {:induction false} RefusedKeepsBooked(s: Session, s': Session, id: OrderId)
    requires Booked(s) && id in s.orders && OnlyName(s, id) && !Unanswered(s, id)
    requires s'.clOrdIds == s.clOrdIds - {s.orders[id].clOrdId} && s'.orders == s.orders - {id}
    requires s'.used == s.used && s'.nextOrderId == s.nextOrderId && s'.pending == s.pending
    ensures Booked(s')
  {
    assert forall k :: PendingFor(s', k) == PendingFor(s, k);
    forall k | Unanswered(s', k)
      ensures OnlyName(s', k)
    {
      assert Unanswered(s, k) && OnlyName(s, k);
    }
  }

  // A replaced order goes by a new id, the old ones still naming it.
  lemma {:induction false} ReplacedKeepsBooked(s: Session, s': Session, id: OrderId, clOrdId: ClOrdId)
    requires Booked(s) && id in s.orders && !Unanswered(s, id) && clOrdId in s.used
    requires s'.clOrdIds == Emplaced(s.clOrdIds, clOrdId, id)
    requires s'.orders.Keys == s.orders.Keys && forall k :: k in s.orders && k != id ==> s'.orders[k] == s.orders[k]
    requires s'.used == s.used && s'.nextOrderId == s.nextOrderId && s'.pending == s.pending
    ensures Booked(s')
  {
    assert forall k :: PendingFor(s', k) == PendingFor(s, k);
    forall k | Unanswered(s', k)
      ensures OnlyName(s', k)
    {
      assert Unanswered(s, k) && OnlyName(s, k) && k != id;
    }
  }

  lemma {:induction false} ResponseKeepsBooked(s: Session, id: OrderId, success: bool)
    requires Booked(s)
    ensures Booked(HandleResponse(s, id, success))
  {
    hide Booked, Dequeued;
    if PendingFor(s, id) != [] {
      DequeueKeepsBooked(s, id);
      DequeuedParts(s, id);
      HeadIsUsed(s, id);
      var answered := Dequeued(s, id);
      var s' := HandleResponse(s, id, success);
      if id in s.orders {
        match PendingFor(s, id)[0]
        case NewPending(_) =>
          if success { SameNames(answered, s'); } else { RefusedKeepsBooked(answered, s', id); }
        case CancelPending(_, _) => SameNames(answered, s');
        case ReplacePending(clOrdId, _, _, _, _) =>
          if success { ReplacedKeepsBooked(answered, s', id, clOrdId); } else { SameNames(answered, s'); }
      }
    }
  }

  lemma DequeuedParts(s: Session, id: OrderId)
    ensures Dequeued(s, id) == s.(pending := Dequeued(s, id).pending)
  {
  }

  lemma HeadIsUsed(s: Session, id: OrderId)
    requires Booked(s) && PendingFor(s, id) != []
    ensures PendingFor(s, id)[0].clOrdId in s.used
    ensures PendingFor(s, id)[0].NewPending? ==> OnlyName(s, id)
  {
    assert PendingFor(s, id)[0].NewPending? ==> Unanswered(s, id);
  }

  // Executions and boundaries change quantities, never ids.
  lemma {:induction false} ApplyKeepsBooked(s: Session, id: OrderId, t: SelfTrade)
    requires Booked(s) && id in s.orders
    ensures Booked(ApplyTrade(s, id, t)) && ApplyTrade(s, id, t).orders.Keys == s.orders.Keys
  {
    SameNames(s, ApplyTrade(s, id, t));
  }

  lemma {:induction false} TradeKeepsBooked(s: Session, t: SelfTrade)
    requires Booked(s)
    ensures Booked(HandleTrade(s, t))
  {
    hide Booked, ApplyTrade;
    var s' := HandleTrade(s, t);
    if t.buyId in s.orders && t.sellId in s.orders {
      if s.duplicatesToIgnore > 0 && s.lastSelfTrade == Some(t) {
        SameNames(s, s');
      } else {
        ApplyKeepsBooked(s, t.buyId, t);
        var bought := ApplyTrade(s, t.buyId, t);
        ApplyKeepsBooked(bought, t.sellId, t);
        SameNames(ApplyTrade(bought, t.sellId, t), s');
      }
    } else if t.buyId in s.orders {
      ApplyKeepsBooked(s, t.buyId, t);
    } else if t.sellId in s.orders {
      ApplyKeepsBooked(s, t.sellId, t);
    }
  }

  lemma {:induction false} FinalizeKeepsBooked(s: Session, symbol: string, ids: seq<OrderId>)
    requires Booked(s)
    ensures Booked(Finalize(s, symbol, ids))
    decreases |ids|
  {
    if ids != [] {
      SameNames(s, FinalizeOne(s, symbol, ids[0]));
      FinalizeKeepsBooked(FinalizeOne(s, symbol, ids[0]), symbol, ids[1..]);
    }
  }

  lemma {:induction false} ReactKeepsBooked(s: Session, input: Input)
    requires Booked(s)
    ensures Booked(React(s, input))
  {
    hide Booked;
    match input
    case NewOrderSingle(m) => NewKeepsBooked(s, m);
    case OrderCancelRequest(m) => CancelKeepsBooked(s, m);
    case OrderCancelReplaceRequest(m) => ReplaceKeepsBooked(s, m);
    case OrderResponse(id, success) => ResponseKeepsBooked(s, id, success);
    case TradeExecution(t) => TradeKeepsBooked(s, t);
    case BookUpdate(symbol, listed) => FinalizeKeepsBooked(s, symbol, listed);
  }

  // ---- Reported quantities ----------------------------------------------------------------------------

  // The quantities reported as just executed for an order, together.
  function Reported(sent: seq<Outgoing>, id: OrderId): nat {
    if sent == [] then 0
    else
      var last := sent[|sent| - 1];
      Reported(sent[..|sent| - 1], id) + if last.ExecutionReport? && last.orderId == id then last.lastQuantity else 0
  }

  // They are the order's cumulative quantity, and nothing for an id not drawn yet.
  ghost predicate Accounted(s: Session) {
    && (forall id :: id in s.orders ==> Reported(s.sent, id) == s.orders[id].cumulative)
    && (forall id :: id >= s.nextOrderId ==> Reported(s.sent, id) == 0)
  }

  lemma {:induction false} ReportedMore(sent: seq<Outgoing>, m: Outgoing, id: OrderId)
    ensures Reported(sent + [m], id) == Reported(sent, id) + if m.ExecutionReport? && m.orderId == id then m.lastQuantity else 0
  {
    assert (sent + [m])[..|sent|] == sent;
  }

  // One message sent, one order perhaps changed by what the message says.
  lemma {:induction false} SentKeepsAccounted(s: Session, s': Session, m: Outgoing)
    requires Accounted(s) && Booked(s) && s'.sent == s.sent + [m] && s'.nextOrderId >= s.nextOrderId
    requires forall id :: id in s'.orders ==>
      && id in s.orders
      && s'.orders[id].cumulative == s.orders[id].cumulative + if m.ExecutionReport? && m.orderId == id then m.lastQuantity else 0
    requires m.ExecutionReport? && m.lastQuantity > 0 ==> m.orderId in s.orders
    ensures Accounted(s')
  {
    hide Reported;
    forall id
      ensures Reported(s'.sent, id) == Reported(s.sent, id) + if m.ExecutionReport? && m.orderId == id then m.lastQuantity else 0
    {
      ReportedMore(s.sent, m, id);
    }
  }

  lemma {:induction false} NewKeepsAccounted(s: Session, m: NewRequestMessage)
    requires Booked(s) && Accounted(s)
    ensures Accounted(HandleNew(s, m))
  {
    hide Reported, Booked;
    var s' := HandleNew(s, m);
    if !Placed(s, m) {
      NotPlaced(s, m);
      hide HandleNew;
      assert s'.sent == s.sent + [s'.sent[|s.sent|]];
      SentKeepsAccounted(s, s', s'.sent[|s.sent|]);
    }
  }

  // No order changes, and at most a message that is no execution report is sent.
  predicate OnlyAsks(s: Session, s': Session) {
    && s'.orders == s.orders && s'.nextOrderId == s.nextOrderId
    && (s'.sent == s.sent || (|s'.sent| == |s.sent| + 1 && s'.sent[..|s.sent|] == s.sent && !s'.sent[|s.sent|].ExecutionReport?))
  }

  lemma CancelOnlyAsks(s: Session, m: CancelMessage)
    ensures OnlyAsks(s, HandleCancel(s, m))
  {
  }

  lemma ReplaceOnlyAsks(s: Session, m: ReplaceMessage)
    ensures OnlyAsks(s, HandleReplace(s, m))
  {
    hide ReplaceRefusal;
  }

  lemma {:induction false} RequestKeepsAccounted(s: Session, s': Session)
    requires Booked(s) && Accounted(s) && OnlyAsks(s, s')
    ensures Accounted(s')
  {
    hide Reported;
    if s'.sent != s.sent {
      assert s'.sent == s.sent + [s'.sent[|s.sent|]];
      SentKeepsAccounted(s, s', s'.sent[|s.sent|]);
    }
  }

  // What a response reports has no quantity of its own, and no order's cumulative quantity moves.
  lemma {:induction false} ResponseExecutesNothing(s: Session, id: OrderId, success: bool)
    ensures var s' := HandleResponse(s, id, success);
      && s'.nextOrderId == s.nextOrderId
      && (s'.sent == s.sent || (|s'.sent| == |s.sent| + 1 && s'.sent[..|s.sent|] == s.sent && Quantity(s'.sent[|s.sent|]) == 0))
      && forall k :: k in s'.orders ==> k in s.orders && s'.orders[k].cumulative == s.orders[k].cumulative
  {
    hide Dequeued, Emplaced;
    DequeuedParts(s, id);
  }

  lemma {:induction false} ResponseKeepsAccounted(s: Session, id: OrderId, success: bool)
    requires Booked(s) && Accounted(s)
    ensures Accounted(HandleResponse(s, id, success))
  {
    hide Reported, Booked, HandleResponse;
    var s' := HandleResponse(s, id, success);
    ResponseExecutesNothing(s, id, success);
    if s'.sent != s.sent {
      assert s'.sent == s.sent + [s'.sent[|s.sent|]];
      SentKeepsAccounted(s, s', s'.sent[|s.sent|]);
    }
  }

  lemma {:induction false} ApplyKeepsAccounted(s: Session, id: OrderId, t: SelfTrade)
    requires Booked(s) && Accounted(s) && id in s.orders
    ensures Accounted(ApplyTrade(s, id, t))
  {
    hide Reported, Booked;
    var s' := ApplyTrade(s, id, t);
    SentKeepsAccounted(s, s', s'.sent[|s.sent|]);
  }

  lemma {:induction false} TradeKeepsAccounted(s: Session, t: SelfTrade)
    requires Booked(s) && Accounted(s)
    ensures Accounted(HandleTrade(s, t))
  {
    hide Booked, ApplyTrade, Reported;
    if t.buyId in s.orders && t.sellId in s.orders {
      ApplyKeepsBooked(s, t.buyId, t);
      ApplyKeepsAccounted(s, t.buyId, t);
      ApplyKeepsAccounted(ApplyTrade(s, t.buyId, t), t.sellId, t);
    } else if t.buyId in s.orders {
      ApplyKeepsAccounted(s, t.buyId, t);
    } else if t.sellId in s.orders {
      ApplyKeepsAccounted(s, t.sellId, t);
    }
  }

  lemma {:induction false} FinalizeKeepsAccounted(s: Session, symbol: string, ids: seq<OrderId>)
    requires Booked(s) && Accounted(s)
    ensures Accounted(Finalize(s, symbol, ids))
    decreases |ids|
  {
    hide Reported, Booked;
    if ids != [] {
      var s' := FinalizeOne(s, symbol, ids[0]);
      SameNames(s, s');
      if s'.sent != s.sent {
        SentKeepsAccounted(s, s', s'.sent[|s.sent|]);
      }
      FinalizeKeepsAccounted(s', symbol, ids[1..]);
    }
  }

  lemma {:induction false} ReactKeepsAccounted(s: Session, input: Input)
    requires Booked(s) && Accounted(s)
    ensures Accounted(React(s, input))
  {
    hide Booked, Accounted, HandleNew, HandleCancel, HandleReplace, HandleResponse, HandleTrade;
    match input
    case NewOrderSingle(m) => NewKeepsAccounted(s, m);
    case OrderCancelRequest(m) =>
      CancelOnlyAsks(s, m);
      RequestKeepsAccounted(s, HandleCancel(s, m));
    case OrderCancelReplaceRequest(m) =>
      ReplaceOnlyAsks(s, m);
      RequestKeepsAccounted(s, HandleReplace(s, m));
    case OrderResponse(id, success) => ResponseKeepsAccounted(s, id, success);
    case TradeExecution(t) => TradeKeepsAccounted(s, t);
    case BookUpdate(symbol, listed) => FinalizeKeepsAccounted(s, symbol, listed);
  }

  /**
   Whatever arrives, in any order: the quantities reported for a held order sum to its cumulative
   quantity, and every id the client may name is that of a held order.
   */
  lemma {:induction false} RunIsAccounted(s: Session, inputs: seq<Input>)
    requires Booked(s) && Accounted(s)
    ensures Booked(Run(s, inputs)) && Accounted(Run(s, inputs))
    decreases |inputs|
  {
    hide Booked, Accounted;
    if inputs != [] {
      ReactKeepsBooked(s, inputs[0]);
      ReactKeepsAccounted(s, inputs[0]);
      RunIsAccounted(React(s, inputs[0]), inputs[1..]);
    }
  }

  lemma {:induction false} EverySessionIsAccounted(inputs: seq<Input>)
    ensures var s := Run(NEW_SESSION, inputs);
      && (forall id :: id in s.orders ==> Reported(s.sent, id) == s.orders[id].cumulative)
      && (forall c :: c in s.clOrdIds ==> s.clOrdIds[c] in s.orders)
  {
    assert Booked(NEW_SESSION) && Accounted(NEW_SESSION);
    RunIsAccounted(NEW_SESSION, inputs);
  }

  // ---- Cumulative, leaves and order quantity -------------------------------------------------------------

  // A replacement is outstanding for the order.
  predicate Replacing(s: Session, id: OrderId) {
    exists i :: 0 <= i < |PendingFor(s, id)| && PendingFor(s, id)[i].ReplacePending?
  }

  // The order's quantities add up while it works, and an outstanding replacement was worked out from
  // the cumulative quantity it still has.
  ghost predicate Level(s: Session, id: OrderId) {
    id in s.orders ==>
      && (s.orders[id].leaves > 0 ==> AddsUp(s.orders[id]))
      && forall i :: 0 <= i < |PendingFor(s, id)| ==> FitsOrder(PendingFor(s, id)[i], s.orders[id])
  }

  predicate AddsUp(order: OrderState) {
    order.cumulative + order.leaves == order.quantity
  }

  predicate FitsOrder(request: PendingRequest, order: OrderState) {
    request.ReplacePending? ==> request.total == request.working + order.cumulative
  }

  // No execution for this order arrives between a replacement request and its response.
  predicate Quiet(s: Session, input: Input, id: OrderId) {
    input.TradeExecution? && id in {input.trade.buyId, input.trade.sellId} ==> !Replacing(s, id)
  }

  // Quantities as they were, or with nothing left; requests no more than before.
  lemma {:induction false} LevelAgain(s: Session, s': Session, id: OrderId)
    requires Level(s, id)
    requires id in s'.orders ==>
      && id in s.orders && s'.orders[id].cumulative == s.orders[id].cumulative
      && (s'.orders[id].leaves == 0 || (s'.orders[id].leaves == s.orders[id].leaves && s'.orders[id].quantity == s.orders[id].quantity))
      && PendingFor(s', id) == PendingFor(s, id)
    ensures Level(s', id)
  {
    if id in s'.orders {
      forall i | 0 <= i < |PendingFor(s', id)|
        ensures FitsOrder(PendingFor(s', id)[i], s'.orders[id])
      {
        assert FitsOrder(PendingFor(s, id)[i], s.orders[id]);
      }
    }
  }

  lemma {:induction false} DequeueKeepsLevel(s: Session, k: OrderId, id: OrderId)
    requires Level(s, id)
    ensures Level(Dequeued(s, k), id)
  {
    var s' := Dequeued(s, k);
    if id in s.orders {
      forall i | 0 <= i < |PendingFor(s', id)|
        ensures FitsOrder(PendingFor(s', id)[i], s'.orders[id])
      {
        if k == id && PendingFor(s, id) != [] {
          assert PendingFor(s', id) == PendingFor(s, id)[1..];
          assert FitsOrder(PendingFor(s, id)[i + 1], s.orders[id]);
        } else {
          assert FitsOrder(PendingFor(s, id)[i], s.orders[id]);
        }
      }
    }
  }

  lemma {:induction false} EnqueueKeepsLevel(s: Session, k: OrderId, request: PendingRequest, id: OrderId)
    requires Level(s, id) && (k == id && id in s.orders ==> FitsOrder(request, s.orders[id]))
    ensures Level(Enqueued(s, k, request), id)
  {
    var s' := Enqueued(s, k, request);
    if id in s.orders {
      forall i | 0 <= i < |PendingFor(s', id)|
        ensures FitsOrder(PendingFor(s', id)[i], s'.orders[id])
      {
        if i < |PendingFor(s, id)| {
          assert PendingFor(s', id)[i] == PendingFor(s, id)[i];
          assert FitsOrder(PendingFor(s, id)[i], s.orders[id]);
        }
      }
    }
  }

  lemma {:induction false} CancelKeepsLevel(s: Session, m: CancelMessage, id: OrderId)
    requires Level(s, id)
    ensures Level(HandleCancel(s, m), id)
  {
    hide Level;
    var noted := Noted(s, m.clOrdId, m.orig);
    LevelAgain(s, noted, id);
    if Refusal(s, m.clOrdId, m.orig).Some? || !m.reached {
      LevelAgain(s, HandleCancel(s, m), id);
    } else {
      EnqueueKeepsLevel(noted, s.clOrdIds[m.orig.value], CancelPending(m.clOrdId.value, m.orig.value), id);
    }
  }

  lemma {:induction false} ReplaceKeepsLevel(s: Session, m: ReplaceMessage, id: OrderId)
    requires Level(s, id)
    ensures Level(HandleReplace(s, m), id)
  {
    hide Level;
    if Admitted(s, m) {
      var noted := Noted(s, m.clOrdId, m.orig);
      LevelAgain(s, noted, id);
      EnqueueKeepsLevel(noted, s.clOrdIds[m.orig.value], Asked(s, m), id);
    } else {
      NotAdmitted(s, m);
      hide HandleReplace;
      LevelAgain(s, HandleReplace(s, m), id);
    }
  }

  lemma {:induction false} NewKeepsLevel(s: Session, m: NewRequestMessage, id: OrderId)
    requires Booked(s) && Level(s, id)
    ensures Level(HandleNew(s, m), id)
  {
    hide Booked, Level;
    if Placed(s, m) {
      var drawn := s.nextOrderId + m.skipped;
      NumberIsFree(s, drawn);
      if id == drawn {
        PlacedIsLevel(HandleNew(s, m), id);
      } else {
        LevelAgain(s, HandleNew(s, m), id);
      }
    } else {
      NotPlaced(s, m);
      hide HandleNew;
      LevelAgain(s, HandleNew(s, m), id);
    }
  }

  lemma PlacedIsLevel(s: Session, id: OrderId)
    requires id in s.orders && AddsUp(s.orders[id])
    requires forall i :: 0 <= i < |PendingFor(s, id)| ==> PendingFor(s, id)[i].NewPending?
    ensures Level(s, id)
  {
  }

  lemma {:induction false} ResponseKeepsLevel(s: Session, k: OrderId, success: bool, id: OrderId)
    requires Level(s, id)
    ensures Level(HandleResponse(s, k, success), id)
  {
    hide Level, Dequeued;
    if PendingFor(s, k) != [] {
      DequeueKeepsLevel(s, k, id);
      DequeuedParts(s, k);
      var answered := Dequeued(s, k);
      var s' := HandleResponse(s, k, success);
      if k == id && id in s.orders && PendingFor(s, id)[0].ReplacePending? && success {
        FirstFits(s, id);
        ReplacedIsLevel(answered, s', id);
      } else {
        LevelAgain(answered, s', id);
      }
    }
  }

  lemma FirstFits(s: Session, id: OrderId)
    requires Level(s, id) && id in s.orders && PendingFor(s, id) != []
    ensures FitsOrder(PendingFor(s, id)[0], s.orders[id])
  {
  }

  lemma {:induction false} ReplacedIsLevel(s: Session, s': Session, id: OrderId)
    requires Level(s, id) && id in s.orders && s'.pending == s.pending
    requires id in s'.orders && s'.orders[id].cumulative == s.orders[id].cumulative && AddsUp(s'.orders[id])
    ensures Level(s', id)
  {
    forall i | 0 <= i < |PendingFor(s', id)|
      ensures FitsOrder(PendingFor(s', id)[i], s'.orders[id])
    {
      assert FitsOrder(PendingFor(s, id)[i], s.orders[id]);
    }
  }

  lemma {:induction false} ApplyKeepsLevel(s: Session, k: OrderId, t: SelfTrade, id: OrderId)
    requires Level(s, id) && k in s.orders && (k == id ==> !Replacing(s, id))
    ensures Level(ApplyTrade(s, k, t), id)
    ensures ApplyTrade(s, k, t).pending == s.pending && ApplyTrade(s, k, t).orders.Keys == s.orders.Keys
  {
    var s' := ApplyTrade(s, k, t);
    if id in s.orders {
      forall i | 0 <= i < |PendingFor(s', id)|
        ensures FitsOrder(PendingFor(s', id)[i], s'.orders[id])
      {
        assert PendingFor(s', id) == PendingFor(s, id) && FitsOrder(PendingFor(s, id)[i], s.orders[id]);
      }
    }
  }

  lemma {:induction false} TradeKeepsLevel(s: Session, t: SelfTrade, id: OrderId)
    requires Level(s, id) && Quiet(s, TradeExecution(t), id)
    ensures Level(HandleTrade(s, t), id)
  {
    hide Level, ApplyTrade;
    var s' := HandleTrade(s, t);
    if t.buyId in s.orders && t.sellId in s.orders {
      if s.duplicatesToIgnore > 0 && s.lastSelfTrade == Some(t) {
        LevelAgain(s, s', id);
      } else {
        ApplyKeepsLevel(s, t.buyId, t, id);
        var bought := ApplyTrade(s, t.buyId, t);
        assert PendingFor(bought, t.sellId) == PendingFor(s, t.sellId);
        ApplyKeepsLevel(bought, t.sellId, t, id);
        LevelAgain(ApplyTrade(bought, t.sellId, t), s', id);
      }
    } else if t.buyId in s.orders {
      ApplyKeepsLevel(s, t.buyId, t, id);
    } else if t.sellId in s.orders {
      ApplyKeepsLevel(s, t.sellId, t, id);
    }
  }

  lemma {:induction false} FinalizeKeepsLevel(s: Session, symbol: string, ids: seq<OrderId>, id: OrderId)
    requires Level(s, id)
    ensures Level(Finalize(s, symbol, ids), id)
    decreases |ids|
  {
    hide Level;
    if ids != [] {
      LevelAgain(s, FinalizeOne(s, symbol, ids[0]), id);
      FinalizeKeepsLevel(FinalizeOne(s, symbol, ids[0]), symbol, ids[1..], id);
    }
  }

  lemma {:induction false} ReactKeepsLevel(s: Session, input: Input, id: OrderId)
    requires Booked(s) && Level(s, id) && Quiet(s, input, id)
    ensures Level(React(s, input), id)
  {
    hide Booked, Level;
    match input
    case NewOrderSingle(m) => NewKeepsLevel(s, m, id);
    case OrderCancelRequest(m) => CancelKeepsLevel(s, m, id);
    case OrderCancelReplaceRequest(m) => ReplaceKeepsLevel(s, m, id);
    case OrderResponse(k, success) => ResponseKeepsLevel(s, k, success, id);
    case TradeExecution(t) => TradeKeepsLevel(s, t, id);
    case BookUpdate(symbol, listed) => FinalizeKeepsLevel(s, symbol, listed, id);
  }

  predicate AllQuiet(s: Session, inputs: seq<Input>, id: OrderId)
    decreases |inputs|
  {
    inputs == [] || (Quiet(s, inputs[0], id) && AllQuiet(React(s, inputs[0]), inputs[1..], id))
  }

  /**
   Order by order: as long as no execution for it arrives between a request to replace it and the
   response, the order keeps CumQty + LeavesQty = OrderQty while it works, whatever becomes of others.
   */
  lemma {:induction false} QuietRunIsLevel(s: Session, inputs: seq<Input>, id: OrderId)
    requires Booked(s) && Level(s, id) && AllQuiet(s, inputs, id)
    ensures Level(Run(s, inputs), id)
    decreases |inputs|
  {
    hide Booked, Level, Quiet;
    if inputs != [] {
      ReactKeepsBooked(s, inputs[0]);
      ReactKeepsLevel(s, inputs[0], id);
      QuietRunIsLevel(React(s, inputs[0]), inputs[1..], id);
    }
  }

  /** From the beginning of a session. */
  lemma {:induction false} QuietOrderAddsUp(inputs: seq<Input>, id: OrderId)
    requires AllQuiet(NEW_SESSION, inputs, id)
    ensures var s := Run(NEW_SESSION, inputs);
      id in s.orders && s.orders[id].leaves > 0 ==> s.orders[id].cumulative + s.orders[id].leaves == s.orders[id].quantity
  {
    assert Booked(NEW_SESSION) && Level(NEW_SESSION, id);
    QuietRunIsLevel(NEW_SESSION, inputs, id);
  }

  // ---- When a replacement adds up ---------------------------------------------------------------------

  // What is outstanding under this request's id is this request, for this order, and the id names no
  // other order.
  ghost predicate Carries(s: Session, id: OrderId, request: PendingRequest) {
    && request.clOrdId in s.used
    && (request.clOrdId in s.clOrdIds ==> s.clOrdIds[request.clOrdId] == id)
    && forall k, i :: 0 <= i < |PendingFor(s, k)| && PendingFor(s, k)[i].clOrdId == request.clOrdId ==>
         k == id && PendingFor(s, k)[i] == request
  }

  // Ids of requests are never used again, so what is queued later goes by another id.
  lemma {:induction false} EnqueueKeepsCarrying(s: Session, id: OrderId, request: PendingRequest, k: OrderId, later: PendingRequest)
    requires Carries(s, id, request) && ((k == id && later == request) || later.clOrdId != request.clOrdId)
    ensures Carries(Enqueued(s, k, later), id, request)
  {
    var s' := Enqueued(s, k, later);
    forall j, i | 0 <= i < |PendingFor(s', j)| && PendingFor(s', j)[i].clOrdId == request.clOrdId
      ensures j == id && PendingFor(s', j)[i] == request
    {
      if i < |PendingFor(s, j)| {
        assert PendingFor(s', j)[i] == PendingFor(s, j)[i];
      }
    }
  }

  lemma {:induction false} DequeueKeepsCarrying(s: Session, id: OrderId, request: PendingRequest, k: OrderId)
    requires Carries(s, id, request)
    ensures Carries(Dequeued(s, k), id, request)
  {
    var s' := Dequeued(s, k);
    forall j, i | 0 <= i < |PendingFor(s', j)| && PendingFor(s', j)[i].clOrdId == request.clOrdId
      ensures j == id && PendingFor(s', j)[i] == request
    {
      if k == j && PendingFor(s, j) != [] {
        assert PendingFor(s', j) == PendingFor(s, j)[1..];
        assert PendingFor(s', j)[i] == PendingFor(s, j)[i + 1];
      } else {
        assert PendingFor(s', j) == PendingFor(s, j);
      }
    }
  }

  // Requests as they were, ids only ever added, and none of them but the request's own order's.
  lemma SameRequests(s: Session, s': Session, id: OrderId, request: PendingRequest)
    requires Carries(s, id, request) && s.used <= s'.used
    requires forall k :: PendingFor(s', k) == PendingFor(s, k)
    requires request.clOrdId in s'.clOrdIds ==>
      s'.clOrdIds[request.clOrdId] == id || (request.clOrdId in s.clOrdIds && s'.clOrdIds[request.clOrdId] == s.clOrdIds[request.clOrdId])
    ensures Carries(s', id, request)
  {
  }

  lemma {:induction false} NewKeepsCarrying(s: Session, m: NewRequestMessage, id: OrderId, request: PendingRequest)
    requires Booked(s) && Carries(s, id, request)
    ensures Carries(HandleNew(s, m), id, request)
  {
    hide Booked, Carries;
    if Placed(s, m) {
      IdIsUsed(s, id, request);
      var drawn := s.nextOrderId + m.skipped;
      var placed := s.(used := s.used + {m.clOrdId.value}, nextOrderId := drawn + 1,
                       orders := s.orders[drawn := OrderFrom(m.terms.value, m.clOrdId.value)],
                       clOrdIds := Emplaced(s.clOrdIds, m.clOrdId.value, drawn));
      SameRequests(s, placed, id, request);
      EnqueueKeepsCarrying(placed, id, request, drawn, NewPending(m.clOrdId.value));
    } else {
      NotPlaced(s, m);
      hide HandleNew;
      SameRequests(s, HandleNew(s, m), id, request);
    }
  }

  lemma IdIsUsed(s: Session, id: OrderId, request: PendingRequest)
    requires Carries(s, id, request)
    ensures request.clOrdId in s.used
  {
  }

  lemma {:induction false} CancelKeepsCarrying(s: Session, m: CancelMessage, id: OrderId, request: PendingRequest)
    requires Carries(s, id, request)
    ensures Carries(HandleCancel(s, m), id, request)
  {
    hide Carries;
    var noted := Noted(s, m.clOrdId, m.orig);
    SameRequests(s, noted, id, request);
    IdIsUsed(s, id, request);
    if Refusal(s, m.clOrdId, m.orig).Some? || !m.reached {
      SameRequests(s, HandleCancel(s, m), id, request);
    } else {
      EnqueueKeepsCarrying(noted, id, request, s.clOrdIds[m.orig.value], CancelPending(m.clOrdId.value, m.orig.value));
    }
  }

  lemma {:induction false} ReplaceKeepsCarrying(s: Session, m: ReplaceMessage, id: OrderId, request: PendingRequest)
    requires Carries(s, id, request)
    ensures Carries(HandleReplace(s, m), id, request)
  {
    hide Carries;
    IdIsUsed(s, id, request);
    if Admitted(s, m) {
      var noted := Noted(s, m.clOrdId, m.orig);
      SameRequests(s, noted, id, request);
      EnqueueKeepsCarrying(noted, id, request, s.clOrdIds[m.orig.value], Asked(s, m));
    } else {
      NotAdmitted(s, m);
      hide HandleReplace;
      SameRequests(s, HandleReplace(s, m), id, request);
    }
  }

  lemma {:induction false} ResponseKeepsCarrying(s: Session, k: OrderId, success: bool, id: OrderId, request: PendingRequest)
    requires Carries(s, id, request)
    ensures Carries(HandleResponse(s, k, success), id, request)
  {
    hide Carries, Dequeued;
    DequeueKeepsCarrying(s, id, request, k);
    DequeuedParts(s, k);
    if PendingFor(s, k) != [] {
      HeadIsForItsOrder(s, id, request, k);
      SameRequests(Dequeued(s, k), HandleResponse(s, k, success), id, request);
    }
  }

  lemma HeadIsForItsOrder(s: Session, id: OrderId, request: PendingRequest, k: OrderId)
    requires Carries(s, id, request) && PendingFor(s, k) != []
    ensures PendingFor(s, k)[0].clOrdId == request.clOrdId ==> k == id
    ensures request.clOrdId in s.clOrdIds ==> s.clOrdIds[request.clOrdId] == id
  {
  }

  lemma {:induction false} FinalizeKeepsRequests(s: Session, symbol: string, ids: seq<OrderId>)
    ensures var s' := Finalize(s, symbol, ids); s'.pending == s.pending && s'.used == s.used && s'.clOrdIds == s.clOrdIds
    decreases |ids|
  {
    if ids != [] {
      FinalizeKeepsRequests(FinalizeOne(s, symbol, ids[0]), symbol, ids[1..]);
    }
  }

  lemma {:induction false} ReactKeepsCarrying(s: Session, input: Input, id: OrderId, request: PendingRequest)
    requires Booked(s) && Carries(s, id, request)
    ensures Carries(React(s, input), id, request)
  {
    hide Booked, Carries;
    match input
    case NewOrderSingle(m) => NewKeepsCarrying(s, m, id, request);
    case OrderCancelRequest(m) => CancelKeepsCarrying(s, m, id, request);
    case OrderCancelReplaceRequest(m) => ReplaceKeepsCarrying(s, m, id, request);
    case OrderResponse(k, success) => ResponseKeepsCarrying(s, k, success, id, request);
    case TradeExecution(t) => SameRequests(s, HandleTrade(s, t), id, request);
    case BookUpdate(symbol, listed) =>
      FinalizeKeepsRequests(s, symbol, listed);
      SameRequests(s, Finalize(s, symbol, listed), id, request);
  }

  lemma {:induction false} RunKeepsCarrying(s: Session, inputs: seq<Input>, id: OrderId, request: PendingRequest)
    requires Booked(s) && Carries(s, id, request)
    ensures Carries(Run(s, inputs), id, request)
    decreases |inputs|
  {
    hide Booked, Carries;
    if inputs != [] {
      ReactKeepsBooked(s, inputs[0]);
      ReactKeepsCarrying(s, inputs[0], id, request);
      RunKeepsCarrying(React(s, inputs[0]), inputs[1..], id, request);
    }
  }

  // No request outstanding at the start has the id of a new request, so there is only that request.
  lemma {:induction false} FirstIsCarried(s: Session, id: OrderId, request: PendingRequest)
    requires Booked(s) && request.clOrdId !in s.used
    ensures Carries(Enqueued(s.(used := s.used + {request.clOrdId}), id, request), id, request)
  {
    var noted := s.(used := s.used + {request.clOrdId});
    assert forall k :: PendingFor(noted, k) == PendingFor(s, k);
    EnqueueKeepsCarrying(noted, id, request, id, request);
  }

  lemma {:induction false} AskedIsCarried(s: Session, m: ReplaceMessage)
    requires Booked(s) && Admitted(s, m)
    ensures Carries(HandleReplace(s, m), s.clOrdIds[m.orig.value], Asked(s, m))
  {
    hide Booked, Carries;
    FirstIsCarried(s, s.clOrdIds[m.orig.value], Asked(s, m));
  }

  // An acknowledged replacement has what it was worked out to have, beside what was executed by then.
  lemma {:induction false} Acknowledged(s: Session, id: OrderId)
    requires id in s.orders && PendingFor(s, id) != [] && PendingFor(s, id)[0].ReplacePending?
    ensures id in HandleResponse(s, id, true).orders
    ensures var order := HandleResponse(s, id, true).orders[id];
      var request := PendingFor(s, id)[0];
      order.cumulative == s.orders[id].cumulative && order.leaves == request.working && order.quantity == request.total
  {
    hide Dequeued;
    DequeuedParts(s, id);
  }

  /**
   Exactly when an acknowledged replacement keeps CumQty + LeavesQty = OrderQty: over every run from
   its request to its response, if and only if nothing was reported as executed for the order meanwhile.
   */
  lemma {:induction false} ReplacementAddsUp(s: Session, m: ReplaceMessage, inputs: seq<Input>)
    requires Booked(s) && Accounted(s) && Admitted(s, m)
    ensures var id := s.clOrdIds[m.orig.value];
      var s' := Run(HandleReplace(s, m), inputs);
      PendingFor(s', id) != [] && PendingFor(s', id)[0].clOrdId == m.clOrdId.value && id in s'.orders ==>
        && id in HandleResponse(s', id, true).orders
        && var order := HandleResponse(s', id, true).orders[id];
           (AddsUp(order) <==> Reported(s'.sent, id) == Reported(s.sent, id))
  {
    hide Run, HandleReplace, HandleResponse, Reported, Booked;
    var id := s.clOrdIds[m.orig.value];
    var asked := HandleReplace(s, m);
    ReplaceKeepsBooked(s, m);
    ReactKeepsAccounted(s, OrderCancelReplaceRequest(m));
    ReactToReplace(s, m);
    AskedIsCarried(s, m);
    RunIsAccounted(asked, inputs);
    RunKeepsCarrying(asked, inputs, id, Asked(s, m));
    var s' := Run(asked, inputs);
    if PendingFor(s', id) != [] && PendingFor(s', id)[0].clOrdId == m.clOrdId.value && id in s'.orders {
      assert PendingFor(s', id)[0] == Asked(s, m);
      Acknowledged(s', id);
    }
  }

  lemma ReactToReplace(s: Session, m: ReplaceMessage)
    ensures React(s, OrderCancelReplaceRequest(m)) == HandleReplace(s, m)
  {
  }

  // ---- Exactly when an order keeps adding up -----------------------------------------------------------

  predicate Works(s: Session, id: OrderId) {
    id in s.orders && s.orders[id].leaves > 0
  }

  predicate WorksLevel(s: Session, id: OrderId) {
    Works(s, id) ==> AddsUp(s.orders[id])
  }

  // An outstanding replacement was asked for with something left to work.
  ghost predicate AsksForMore(s: Session, id: OrderId) {
    forall i :: 0 <= i < |PendingFor(s, id)| && PendingFor(s, id)[i].ReplacePending? ==> PendingFor(s, id)[i].working > 0
  }

  // The response that acknowledges a replacement of the order.
  predicate Acknowledges(s: Session, input: Input, id: OrderId) {
    && input == OrderResponse(id, true) && id in s.orders
    && PendingFor(s, id) != [] && PendingFor(s, id)[0].ReplacePending?
  }

  // It finds the cumulative quantity the replacement was worked out from.
  predicate InTime(s: Session, input: Input, id: OrderId) {
    Acknowledges(s, input, id) ==> FitsOrder(PendingFor(s, id)[0], s.orders[id])
  }

  // The order is gone or done, or its quantities add up to what they did, or it is new.
  predicate SameSum(s: Session, s': Session, id: OrderId) {
    Works(s', id) ==>
      if Works(s, id)
      then s'.orders[id].cumulative + s'.orders[id].leaves - s'.orders[id].quantity
             == s.orders[id].cumulative + s.orders[id].leaves - s.orders[id].quantity
      else AddsUp(s'.orders[id])
  }

  lemma {:induction false} NewKeepsSum(s: Session, m: NewRequestMessage, id: OrderId)
    requires Booked(s)
    ensures SameSum(s, HandleNew(s, m), id)
  {
    hide Booked;
    if Placed(s, m) {
      NumberIsFree(s, s.nextOrderId + m.skipped);
    } else {
      NotPlaced(s, m);
      hide HandleNew;
    }
  }

  lemma {:induction false} ResponseKeepsSum(s: Session, k: OrderId, success: bool, id: OrderId)
    requires !Acknowledges(s, OrderResponse(k, success), id)
    ensures SameSum(s, HandleResponse(s, k, success), id)
  {
    hide Dequeued;
    DequeuedParts(s, k);
  }

  lemma {:induction false} TradeKeepsSum(s: Session, t: SelfTrade, id: OrderId)
    ensures SameSum(s, HandleTrade(s, t), id)
  {
    hide ApplyTrade;
    if t.buyId in s.orders {
      ApplyKeepsSum(s, t.buyId, t, id);
      if t.sellId in s.orders {
        ApplyKeepsSum(ApplyTrade(s, t.buyId, t), t.sellId, t, id);
      }
    } else if t.sellId in s.orders {
      ApplyKeepsSum(s, t.sellId, t, id);
    }
  }

  // An execution moves quantity from leaves to cumulative.
  lemma {:induction false} ApplyKeepsSum(s: Session, k: OrderId, t: SelfTrade, id: OrderId)
    requires k in s.orders
    ensures ApplyTrade(s, k, t).orders.Keys == s.orders.Keys
    ensures SameSum(s, ApplyTrade(s, k, t), id) && (Works(ApplyTrade(s, k, t), id) ==> Works(s, id))
  {
  }

  lemma {:induction false} FinalizeKeepsSum(s: Session, symbol: string, ids: seq<OrderId>, id: OrderId)
    ensures SameSum(s, Finalize(s, symbol, ids), id) && (Works(Finalize(s, symbol, ids), id) ==> Works(s, id))
    decreases |ids|
  {
    if ids != [] {
      FinalizeKeepsSum(FinalizeOne(s, symbol, ids[0]), symbol, ids[1..], id);
    }
  }

  // Nothing but an acknowledged replacement moves what an order's quantities add up to.
  lemma {:induction false} ReactKeepsSum(s: Session, input: Input, id: OrderId)
    requires Booked(s) && !Acknowledges(s, input, id)
    ensures SameSum(s, React(s, input), id)
  {
    hide Booked, HandleNew, HandleCancel, HandleReplace, HandleResponse, HandleTrade, Finalize;
    match input
    case NewOrderSingle(m) => NewKeepsSum(s, m, id);
    case OrderCancelRequest(m) => CancelOnlyAsks(s, m);
    case OrderCancelReplaceRequest(m) => ReplaceOnlyAsks(s, m);
    case OrderResponse(k, success) => ResponseKeepsSum(s, k, success, id);
    case TradeExecution(t) => TradeKeepsSum(s, t, id);
    case BookUpdate(symbol, listed) => FinalizeKeepsSum(s, symbol, listed, id);
  }

  lemma {:induction false} EnqueueAsksForMore(s: Session, k: OrderId, request: PendingRequest, id: OrderId)
    requires AsksForMore(s, id) && (request.ReplacePending? ==> request.working > 0)
    ensures AsksForMore(Enqueued(s, k, request), id)
  {
    var s' := Enqueued(s, k, request);
    forall i | 0 <= i < |PendingFor(s', id)| && PendingFor(s', id)[i].ReplacePending?
      ensures PendingFor(s', id)[i].working > 0
    {
      if i < |PendingFor(s, id)| {
        assert PendingFor(s', id)[i] == PendingFor(s, id)[i];
      }
    }
  }

  lemma {:induction false} DequeueAsksForMore(s: Session, k: OrderId, id: OrderId)
    requires AsksForMore(s, id)
    ensures AsksForMore(Dequeued(s, k), id)
  {
    var s' := Dequeued(s, k);
    if k == id && PendingFor(s, id) != [] {
      assert PendingFor(s', id) == PendingFor(s, id)[1..];
    } else {
      assert PendingFor(s', id) == PendingFor(s, id);
    }
  }

  lemma AsksAgain(s: Session, s': Session, id: OrderId)
    requires AsksForMore(s, id) && PendingFor(s', id) == PendingFor(s, id)
    ensures AsksForMore(s', id)
  {
  }

  lemma {:induction false} NewAsksForMore(s: Session, m: NewRequestMessage, id: OrderId)
    requires Booked(s) && AsksForMore(s, id)
    ensures AsksForMore(HandleNew(s, m), id)
  {
    hide Booked, AsksForMore;
    if Placed(s, m) {
      var drawn, c := s.nextOrderId + m.skipped, m.clOrdId.value;
      var placed := s.(used := s.used + {c}, nextOrderId := drawn + 1, orders := s.orders[drawn := OrderFrom(m.terms.value, c)],
                       clOrdIds := Emplaced(s.clOrdIds, c, drawn));
      AsksAgain(s, placed, id);
      EnqueueAsksForMore(placed, drawn, NewPending(c), id);
    } else {
      NotPlaced(s, m);
      hide HandleNew;
      AsksAgain(s, HandleNew(s, m), id);
    }
  }

  lemma {:induction false} CancelAsksForMore(s: Session, m: CancelMessage, id: OrderId)
    requires AsksForMore(s, id)
    ensures AsksForMore(HandleCancel(s, m), id)
  {
    hide AsksForMore;
    var noted := Noted(s, m.clOrdId, m.orig);
    AsksAgain(s, noted, id);
    if Refusal(s, m.clOrdId, m.orig).Some? || !m.reached {
      AsksAgain(s, HandleCancel(s, m), id);
    } else {
      EnqueueAsksForMore(noted, s.clOrdIds[m.orig.value], CancelPending(m.clOrdId.value, m.orig.value), id);
    }
  }

  lemma {:induction false} ReplaceAsksForMore(s: Session, m: ReplaceMessage, id: OrderId)
    requires AsksForMore(s, id)
    ensures AsksForMore(HandleReplace(s, m), id)
  {
    hide AsksForMore;
    if Admitted(s, m) {
      var noted := Noted(s, m.clOrdId, m.orig);
      AsksAgain(s, noted, id);
      EnqueueAsksForMore(noted, s.clOrdIds[m.orig.value], Asked(s, m), id);
    } else {
      NotAdmitted(s, m);
      hide HandleReplace;
      AsksAgain(s, HandleReplace(s, m), id);
    }
  }

  lemma {:induction false} ResponseAsksForMore(s: Session, k: OrderId, success: bool, id: OrderId)
    requires AsksForMore(s, id)
    ensures AsksForMore(HandleResponse(s, k, success), id)
  {
    hide AsksForMore, Dequeued;
    DequeueAsksForMore(s, k, id);
    DequeuedParts(s, k);
    if PendingFor(s, k) != [] {
      AsksAgain(Dequeued(s, k), HandleResponse(s, k, success), id);
    }
  }

  lemma {:induction false} ReactAsksForMore(s: Session, input: Input, id: OrderId)
    requires Booked(s) && AsksForMore(s, id)
    ensures AsksForMore(React(s, input), id)
  {
    hide Booked, AsksForMore;
    match input
    case NewOrderSingle(m) => NewAsksForMore(s, m, id);
    case OrderCancelRequest(m) => CancelAsksForMore(s, m, id);
    case OrderCancelReplaceRequest(m) => ReplaceAsksForMore(s, m, id);
    case OrderResponse(k, success) => ResponseAsksForMore(s, k, success, id);
    case TradeExecution(t) => AsksAgain(s, HandleTrade(s, t), id);
    case BookUpdate(symbol, listed) =>
      FinalizeKeepsRequests(s, symbol, listed);
      AsksAgain(s, Finalize(s, symbol, listed), id);
  }

  // Whenever the order works along the run, its quantities add up.
  predicate AlwaysLevel(s: Session, inputs: seq<Input>, id: OrderId)
    decreases |inputs|
  {
    WorksLevel(s, id) && (inputs == [] || AlwaysLevel(React(s, inputs[0]), inputs[1..], id))
  }

  // Every acknowledged replacement of the order comes before any execution it did not reckon with.
  predicate AllInTime(s: Session, inputs: seq<Input>, id: OrderId)
    decreases |inputs|
  {
    inputs == [] || (InTime(s, inputs[0], id) && AllInTime(React(s, inputs[0]), inputs[1..], id))
  }

  // One step: it keeps the order adding up exactly when no replacement is acknowledged too late.
  lemma {:induction false} StepIsLevel(s: Session, input: Input, id: OrderId)
    requires Booked(s) && AsksForMore(s, id) && WorksLevel(s, id)
    ensures WorksLevel(React(s, input), id) <==> InTime(s, input, id)
  {
    if Acknowledges(s, input, id) {
      Acknowledged(s, id);
    } else {
      ReactKeepsSum(s, input, id);
    }
  }

  /**
   Over whole runs, order by order: the order keeps CumQty + LeavesQty = OrderQty whenever it works, if
   and only if each acknowledged replacement of it finds the cumulative quantity it was worked out from.
   */
  lemma {:induction false} AlwaysLevelExactly(s: Session, inputs: seq<Input>, id: OrderId)
    requires Booked(s) && AsksForMore(s, id) && WorksLevel(s, id)
    ensures AlwaysLevel(s, inputs, id) <==> AllInTime(s, inputs, id)
    decreases |inputs|
  {
    hide Booked, AsksForMore, WorksLevel, InTime, React;
    if inputs != [] {
      var s' := React(s, inputs[0]);
      StepIsLevel(s, inputs[0], id);
      ReactKeepsBooked(s, inputs[0]);
      ReactAsksForMore(s, inputs[0], id);
      if WorksLevel(s', id) {
        AlwaysLevelExactly(s', inputs[1..], id);
      }
    }
  }

  /** From the beginning of a session. */
  lemma {:induction false} EveryOrderIsLevelExactly(inputs: seq<Input>, id: OrderId)
    ensures AlwaysLevel(NEW_SESSION, inputs, id) <==> AllInTime(NEW_SESSION, inputs, id)
  {
    assert Booked(NEW_SESSION);
    AlwaysLevelExactly(NEW_SESSION, inputs, id);
  }

  /** The race, in full: an execution between request and response leaves the quantities unequal. */
  lemma {:induction false} RaceLeavesUnequal(terms: Terms)
    requires terms.kind.Limit? && terms.tif.GoodTillCancel? && terms.quantity == 10
    ensures var s := Run(NEW_SESSION, RaceInputs(terms));
      && 1 in s.orders && s.orders[1].leaves > 0
      && s.orders[1].cumulative + s.orders[1].leaves > s.orders[1].quantity
  {
    hide React;
    var inputs := RaceInputs(terms);
    var s1 := React(NEW_SESSION, inputs[0]);
    var s2 := React(s1, inputs[1]);
    var s3 := React(s2, inputs[2]);
    var s4 := React(s3, inputs[3]);
    OrderIsTaken(terms);
    OrderIsAcknowledged(s1, terms);
    ReplacementIsAsked(s2, terms);
    TradeComesBetween(s3, terms);
    ReplacementIsLate(s4, terms);
    FiveSteps(NEW_SESSION, inputs, s1, s2, s3, s4);
  }

  function RaceInputs(terms: Terms): seq<Input> {
    [
      NewOrderSingle(NewRequestMessage(Some("A"), Some(terms), 0, true)),
      OrderResponse(1, true),
      OrderCancelReplaceRequest(ReplaceMessage(Some("B"), Some("A"), Some(terms.symbol), Some(Some(20)), Some(Some(5)), None, true)),
      TradeExecution(SelfTrade(1, 2, 5, 4)),
      OrderResponse(1, true)]
  }

  lemma OrderIsTaken(terms: Terms)
    ensures var s := React(NEW_SESSION, RaceInputs(terms)[0]);
      && s.orders == map[1 := OrderFrom(terms, "A")] && s.clOrdIds == map["A" := 1] && s.used == {"A"}
      && PendingFor(s, 1) == [NewPending("A")]
  {
  }

  lemma OrderIsAcknowledged(s: Session, terms: Terms)
    requires s.orders == map[1 := OrderFrom(terms, "A")] && s.clOrdIds == map["A" := 1] && s.used == {"A"}
    requires PendingFor(s, 1) == [NewPending("A")]
    ensures var s' := React(s, RaceInputs(terms)[1]);
      && s'.orders == map[1 := OrderFrom(terms, "A")] && s'.clOrdIds == map["A" := 1] && s'.used == {"A"}
      && PendingFor(s', 1) == []
  {
  }

  lemma ReplacementIsAsked(s: Session, terms: Terms)
    requires terms.kind.Limit? && terms.quantity == 10
    requires s.orders == map[1 := OrderFrom(terms, "A")] && s.clOrdIds == map["A" := 1] && s.used == {"A"}
    requires PendingFor(s, 1) == []
    ensures var s' := React(s, RaceInputs(terms)[2]);
      s'.orders == s.orders && PendingFor(s', 1) == [ReplacePending("B", "A", 20, 20, 5)]
  {
    assert "B" != "A";
  }

  lemma TradeComesBetween(s: Session, terms: Terms)
    requires terms.quantity == 10 && s.orders == map[1 := OrderFrom(terms, "A")]
    requires PendingFor(s, 1) == [ReplacePending("B", "A", 20, 20, 5)]
    ensures var s' := React(s, RaceInputs(terms)[3]);
      1 in s'.orders && s'.orders[1].cumulative == 4 && PendingFor(s', 1) == PendingFor(s, 1)
  {
  }

  lemma ReplacementIsLate(s: Session, terms: Terms)
    requires 1 in s.orders && s.orders[1].cumulative == 4
    requires PendingFor(s, 1) == [ReplacePending("B", "A", 20, 20, 5)]
    ensures var s' := React(s, RaceInputs(terms)[4]);
      1 in s'.orders && s'.orders[1].cumulative == 4 && s'.orders[1].leaves == 20 && s'.orders[1].quantity == 20
  {
    hide Dequeued;
    DequeuedParts(s, 1);
  }

  lemma FiveSteps(s: Session, inputs: seq<Input>, s1: Session, s2: Session, s3: Session, s4: Session)
    requires |inputs| == 5
    requires s1 == React(s, inputs[0]) && s2 == React(s1, inputs[1]) && s3 == React(s2, inputs[2]) && s4 == React(s3, inputs[3])
    ensures Run(s, inputs) == React(s4, inputs[4])
  {
    hide React;
    assert Run(s, inputs) == Run(s1, inputs[1..]);
    assert inputs[1..][1..] == inputs[2..] && Run(s1, inputs[1..]) == Run(s2, inputs[2..]);
    assert inputs[2..][1..] == inputs[3..] && Run(s2, inputs[2..]) == Run(s3, inputs[3..]);
    assert inputs[3..][1..] == inputs[4..] && Run(s3, inputs[3..]) == Run(s4, inputs[4..]);
    assert inputs[4..][1..] == [] && Run(s4, inputs[4..]) == Run(React(s4, inputs[4]), []);
  }

  // ---- Trades within the session ---------------------------------------------------------------------------

  /** A trade between two of the session's orders arrives as two copies and is applied once. */
  lemma {:induction false} SelfTradeAppliesOnce(s: Session, t: SelfTrade)
    requires t.buyId in s.orders && t.sellId in s.orders
    requires !(s.duplicatesToIgnore > 0 && s.lastSelfTrade == Some(t))
    ensures var once := ApplyTrade(ApplyTrade(s, t.buyId, t), t.sellId, t);
      HandleTrade(HandleTrade(s, t), t) == once.(lastSelfTrade := Some(t), duplicatesToIgnore := 0)
  {
  }

  // A trade between the session's own orders.
  predicate Internal(s: Session, input: Input) {
    input.TradeExecution? && input.trade.buyId in s.orders && input.trade.sellId in s.orders
  }

  // The exchange sends every trade within the session as two copies, one straight after the other.
  predicate CopiesTogether(s: Session, inputs: seq<Input>)
    decreases |inputs|
  {
    if inputs == [] then true
    else if Internal(s, inputs[0]) then
      |inputs| > 1 && inputs[1] == inputs[0] && CopiesTogether(React(React(s, inputs[0]), inputs[1]), inputs[2..])
    else CopiesTogether(React(s, inputs[0]), inputs[1..])
  }

  // What such a run amounts to when each trade within the session is simply applied.
  function RunOnce(s: Session, inputs: seq<Input>): Session
    decreases |inputs|
  {
    if inputs == [] then s
    else if Internal(s, inputs[0]) && |inputs| > 1 then
      var t := inputs[0].trade;
      RunOnce(ApplyTrade(ApplyTrade(s, t.buyId, t), t.sellId, t).(lastSelfTrade := Some(t)), inputs[2..])
    else RunOnce(React(s, inputs[0]), inputs[1..])
  }

  lemma {:induction false} OthersIgnoreNothing(s: Session, input: Input)
    requires !Internal(s, input)
    ensures React(s, input).duplicatesToIgnore == s.duplicatesToIgnore
  {
    hide Dequeued;
    match input
    case OrderResponse(id, success) => DequeuedParts(s, id);
    case BookUpdate(symbol, listed) => FinalizeIgnoresNothing(s, symbol, listed);
    case _ =>
  }

  lemma {:induction false} FinalizeIgnoresNothing(s: Session, symbol: string, ids: seq<OrderId>)
    ensures Finalize(s, symbol, ids).duplicatesToIgnore == s.duplicatesToIgnore
    decreases |ids|
  {
    if ids != [] {
      FinalizeIgnoresNothing(FinalizeOne(s, symbol, ids[0]), symbol, ids[1..]);
    }
  }

  /** Over a whole run with the copies together, every trade within the session counts exactly once. */
  lemma {:induction false} CopiesCountOnce(s: Session, inputs: seq<Input>)
    requires s.duplicatesToIgnore == 0 && CopiesTogether(s, inputs)
    ensures Run(s, inputs) == RunOnce(s, inputs) && Run(s, inputs).duplicatesToIgnore == 0
    decreases |inputs|
  {
    hide ApplyTrade;
    if inputs != [] {
      if Internal(s, inputs[0]) {
        var t := inputs[0].trade;
        SelfTradeAppliesOnce(s, t);
        AppliedIgnoresNothing(s, t);
        var s2 := HandleTrade(HandleTrade(s, t), t);
        assert inputs[1..][0] == inputs[1] && inputs[1..][1..] == inputs[2..];
        CopiesCountOnce(s2, inputs[2..]);
      } else {
        OthersIgnoreNothing(s, inputs[0]);
        CopiesCountOnce(React(s, inputs[0]), inputs[1..]);
      }
    }
  }

  lemma AppliedIgnoresNothing(s: Session, t: SelfTrade)
    requires t.buyId in s.orders && t.sellId in s.orders
    ensures ApplyTrade(ApplyTrade(s, t.buyId, t), t.sellId, t).duplicatesToIgnore == s.duplicatesToIgnore
  {
  }
}
