/** A listener that applies the Level-3 feed, event by event, always shows the live books. */
module FeedLaws {
  import opened ExchangeTypes
  import opened PriceTime
  import opened BookLaws
  import opened MatchingLaws
  import opened Risk
  import Wire
  import opened Exchanges
  import opened ExchangeLaws
  import opened RunLaws

  type Byte = Wire.Byte

  // An order as the dashboard shows it.
  datatype View = View(price: Price, quantity: int, side: Side)

  type Orders = map<OrderId, View>
  type Screen = map<Symbol, Orders>

  function OrdersOf(screen: Screen, s: Symbol): Orders {
    if s in screen then screen[s] else map[]
  }

  // ---- The dashboard's reducer -----------------------------------------------------------------

  // An execution lowers a known order; one that reaches zero stays until its deletion arrives.
  function Lower(orders: Orders, id: OrderId, quantity: Quantity): Orders {
    if id in orders && orders[id].quantity - quantity > 0
    then orders[id := orders[id].(quantity := orders[id].quantity - quantity)]
    else orders
  }

  function HearOrders(orders: Orders, event: FeedEvent): Orders {
    match event
    case BookUpdated(_, _, _) => orders
    case Added(_, o) => orders[o.id := View(o.price, o.remaining, o.side)]
    case Executed(_, t) => Lower(Lower(orders, t.buyId, t.quantity), t.sellId, t.quantity)
    case Deleted(_, id) => orders - {id}
  }

  function Hear(screen: Screen, event: FeedEvent): Screen {
    screen[event.symbol := HearOrders(OrdersOf(screen, event.symbol), event)]
  }

  function HearAll(screen: Screen, events: seq<FeedEvent>): Screen
    decreases |events|
  {
    if events == [] then screen else HearAll(Hear(screen, events[0]), events[1..])
  }

  // ---- The picture it should show ------------------------------------------------------------------

  function ViewOf(o: Order): View {
    View(o.price, o.remaining, o.side)
  }

  function Views(index: map<OrderId, Order>): Orders {
    map id | id in index :: ViewOf(index[id])
  }

  ghost predicate Shows(screen: Screen, x: Exchange) {
    forall s :: OrdersOf(screen, s) == Views(InstrumentOf(x, s).book.ById())
  }

  // ---- One symbol's events -----------------------------------------------------------------------

  function HearAllOrders(orders: Orders, events: seq<FeedEvent>): Orders
    decreases |events|
  {
    if events == [] then orders else HearAllOrders(HearOrders(orders, events[0]), events[1..])
  }

  lemma {:induction false} HearOneSymbol(screen: Screen, events: seq<FeedEvent>, s: Symbol, t: Symbol)
    requires forall i :: 0 <= i < |events| ==> events[i].symbol == s
    ensures OrdersOf(HearAll(screen, events), t) ==
      if t == s then HearAllOrders(OrdersOf(screen, s), events) else OrdersOf(screen, t)
    decreases |events|
  {
    if events != [] {
      HearOneSymbol(Hear(screen, events[0]), events[1..], s, t);
    }
  }

  lemma {:induction false} HearConcat(orders: Orders, xs: seq<FeedEvent>, ys: seq<FeedEvent>)
    ensures HearAllOrders(orders, xs + ys) == HearAllOrders(HearAllOrders(orders, xs), ys)
    decreases |xs|
  {
    if xs == [] {
      assert xs + ys == ys;
    } else {
      assert (xs + ys)[1..] == xs[1..] + ys;
      HearConcat(HearOrders(orders, xs[0]), xs[1..], ys);
    }
  }

  // Everything at rest is shown; the screen may still show orders that are used up.
  ghost predicate Tracks(orders: Orders, index: map<OrderId, Order>) {
    forall id :: id in index ==> id in orders && orders[id] == ViewOf(index[id])
  }

  lemma {:induction false} ExecutionsTrack(orders: Orders, index: map<OrderId, Order>, o: Order, s: Symbol,
                                           owners: map<OrderId, Owner>, sender: Owner, trades: seq<Trade>)
    requires Tracks(orders, index) && o.id !in orders && TradesFit(index, trades, o)
    ensures var heard := HearAllOrders(orders, Executions(s, DeliveriesOf(owners, o.id, sender, trades)));
      heard.Keys == orders.Keys && Tracks(heard, ConsumeAll(index, trades, o.side))
    decreases |trades|
  {
    if trades != [] {
      var t := trades[0];
      var id := RestingId(t, o.side);
      var ds := DeliveriesOf(owners, o.id, sender, trades);
      var events := Executions(s, ds);
      assert ds[1..] == DeliveriesOf(owners, o.id, sender, trades[1..]);
      assert events[1..] == Executions(s, ds[1..]);
      var orders1 := HearOrders(orders, events[0]);
      assert orders1 == Lower(orders, id, t.quantity);
      ExecutionsTrack(orders1, Consume(index, id, t.quantity), o, s, owners, sender, trades[1..]);
    }
  }

  lemma {:induction false} DeletionsRemove(orders: Orders, s: Symbol, ids: seq<OrderId>)
    ensures HearAllOrders(orders, Deletions(s, ids)) == orders - (set id | id in ids)
    decreases |ids|
  {
    if ids != [] {
      var events := Deletions(s, ids);
      assert events[1..] == Deletions(s, ids[1..]);
      DeletionsRemove(orders - {ids[0]}, s, ids[1..]);
      assert (set id | id in ids) == {ids[0]} + (set id | id in ids[1..]);
      assert orders - {ids[0]} - (set id | id in ids[1..]) == orders - (set id | id in ids);
    } else {
      assert orders - (set id | id in ids) == orders;
    }
  }

  // Only orders that were at rest, and traded, are announced as used up.
  lemma {:induction false} FilledWereResting(index: map<OrderId, Order>, trades: seq<Trade>, o: Order, after: map<OrderId, Order>)
    requires TradesFit(index, trades, o)
    ensures forall id :: id in FilledBy(trades, o.id, after) ==> id in index
    decreases |trades|
  {
    if trades != [] {
      var index1 := Consume(index, RestingId(trades[0], o.side), trades[0].quantity);
      FilledWereResting(index1, trades[1..], o, after);
      assert index1.Keys <= index.Keys;
    }
  }

  // The screen after the executions and deletions of one matched order.
  lemma {:induction false} MatchedIsShown(index: map<OrderId, Order>, trades: seq<Trade>, o: Order, after: map<OrderId, Order>,
                                          s: Symbol, owners: map<OrderId, Owner>, sender: Owner, ids: seq<OrderId>)
    requires TradesFit(index, trades, o) && o.id !in index
    requires after - {o.id} == ConsumeAll(index, trades, o.side)
    requires Lists(ids, FilledBy(trades, o.id, after))
    ensures var executions := Executions(s, DeliveriesOf(owners, o.id, sender, trades));
      HearAllOrders(HearAllOrders(Views(index), executions), Deletions(s, ids)) ==
      Views(ConsumeAll(index, trades, o.side))
  {
    hide HearAllOrders, DeliveriesOf, FilledBy, ConsumeAll, TradesFit, Executions, Deletions;
    var consumed := ConsumeAll(index, trades, o.side);
    ExecutionsTrack(Views(index), index, o, s, owners, sender, trades);
    var heard := HearAllOrders(Views(index), Executions(s, DeliveriesOf(owners, o.id, sender, trades)));
    DeletionsRemove(heard, s, ids);
    ConsumeAllShrinks(index, trades, o.side);
    FilledIsGone(trades, o.id, after);
    FilledWereResting(index, trades, o, after);
    forall id | id in index && id !in consumed
      ensures id in ids
    {
      ConsumedIsFilled(index, trades, o, after, id);
    }
    assert heard - (set id | id in ids) == Views(consumed);
  }

  lemma {:induction false} AnnouncedSymbol(e: Effects, ids: seq<OrderId>)
    ensures forall i :: 0 <= i < |Announcement(e, ids)| ==> Announcement(e, ids)[i].symbol == e.symbol
  {
    ExecutionsSymbol(e.symbol, e.deliveries);
    DeletionsSymbol(e.symbol, ids);
  }

  lemma {:induction false} ExecutionsSymbol(s: Symbol, deliveries: seq<Delivery>)
    ensures forall i :: 0 <= i < |Executions(s, deliveries)| ==> Executions(s, deliveries)[i].symbol == s
  {
    if deliveries != [] {
      ExecutionsSymbol(s, deliveries[1..]);
    }
  }

  lemma {:induction false} DeletionsSymbol(s: Symbol, ids: seq<OrderId>)
    ensures forall i :: 0 <= i < |Deletions(s, ids)| ==> Deletions(s, ids)[i].symbol == s
  {
    if ids != [] {
      DeletionsSymbol(s, ids[1..]);
    }
  }

  // What a listener makes of a whole announcement, part by part.
  lemma {:induction false} HearAnnouncement(orders: Orders, e: Effects, ids: seq<OrderId>)
    ensures HearAllOrders(orders, Announcement(e, ids)) ==
      var first := match e.withdrawn case Some(id) => orders - {id} case None => orders;
      var matched := HearAllOrders(HearAllOrders(first, Executions(e.symbol, e.deliveries)), Deletions(e.symbol, ids));
      match e.added case Some(o) => matched[o.id := ViewOf(o)] case None => matched
  {
    var update := [BookUpdated(e.symbol, TopOf(e.book.bids), TopOf(e.book.asks))];
    var withdrawal := match e.withdrawn case Some(id) => [Deleted(e.symbol, id)] case None => [];
    var executions := Executions(e.symbol, e.deliveries);
    var deletions := Deletions(e.symbol, ids);
    var addition := match e.added case Some(o) => [Added(e.symbol, o)] case None => [];
    HearConcat(orders, update + withdrawal + executions + deletions, addition);
    HearConcat(orders, update + withdrawal + executions, deletions);
    HearConcat(orders, update + withdrawal, executions);
    HearConcat(orders, update, withdrawal);
    HearSingles(orders, update, withdrawal, e);
    HearAddition(HearAllOrders(orders, update + withdrawal + executions + deletions), e, addition);
  }

  lemma HearSingles(orders: Orders, update: seq<FeedEvent>, withdrawal: seq<FeedEvent>, e: Effects)
    requires update == [BookUpdated(e.symbol, TopOf(e.book.bids), TopOf(e.book.asks))]
    requires withdrawal == match e.withdrawn case Some(id) => [Deleted(e.symbol, id)] case None => []
    ensures HearAllOrders(HearAllOrders(orders, update), withdrawal) ==
      match e.withdrawn case Some(id) => orders - {id} case None => orders
  {
    assert update[1..] == [];
    assert e.withdrawn.Some? ==> withdrawal[1..] == [];
  }

  lemma HearAddition(orders: Orders, e: Effects, addition: seq<FeedEvent>)
    requires addition == match e.added case Some(o) => [Added(e.symbol, o)] case None => []
    ensures HearAllOrders(orders, addition) == match e.added case Some(o) => orders[o.id := ViewOf(o)] case None => orders
  {
    assert e.added.Some? ==> addition[1..] == [];
  }

  // How many events come before the executions: the book update and, if an order was withdrawn, its deletion.
  function Opening(e: Effects): nat {
    if e.withdrawn.Some? then 2 else 1
  }

  lemma {:induction false} ExecutionsOneByOne(s: Symbol, deliveries: seq<Delivery>)
    ensures |Executions(s, deliveries)| == |deliveries|
    ensures forall i :: 0 <= i < |deliveries| ==> Executions(s, deliveries)[i] == Executed(s, deliveries[i].trade)
  {
    if deliveries != [] {
      ExecutionsOneByOne(s, deliveries[1..]);
    }
  }

  lemma {:induction false} DeletionsOneByOne(s: Symbol, ids: seq<OrderId>)
    ensures |Deletions(s, ids)| == |ids|
    ensures forall i :: 0 <= i < |ids| ==> Deletions(s, ids)[i] == Deleted(s, ids[i])
  {
    if ids != [] {
      DeletionsOneByOne(s, ids[1..]);
    }
  }

  /**
   What a command announces and in which order: the new top of the book, the order withdrawn, one
   execution for each trade, the deletion of each order used up, and the order that came to rest.
   */
  lemma {:induction false} AnnouncedInOrder(e: Effects, ids: seq<OrderId>)
    ensures var events := Announcement(e, ids);
      var a, b := Opening(e), Opening(e) + |e.deliveries|;
      && |events| == b + |ids| + (if e.added.Some? then 1 else 0)
      && events[0] == BookUpdated(e.symbol, TopOf(e.book.bids), TopOf(e.book.asks))
      && (e.withdrawn.Some? ==> events[1] == Deleted(e.symbol, e.withdrawn.value))
      && (forall i :: 0 <= i < |e.deliveries| ==> events[a + i] == Executed(e.symbol, e.deliveries[i].trade))
      && (forall i :: 0 <= i < |ids| ==> events[b + i] == Deleted(e.symbol, ids[i]))
      && (e.added.Some? ==> events[|events| - 1] == Added(e.symbol, e.added.value))
  {
    hide Executions, Deletions, TopOf;
    ExecutionsOneByOne(e.symbol, e.deliveries);
    DeletionsOneByOne(e.symbol, ids);
    var opening := [BookUpdated(e.symbol, TopOf(e.book.bids), TopOf(e.book.asks))]
      + (match e.withdrawn case Some(id) => [Deleted(e.symbol, id)] case None => []);
    var addition := match e.added case Some(o) => [Added(e.symbol, o)] case None => [];
    assert Announcement(e, ids) == opening + Executions(e.symbol, e.deliveries) + Deletions(e.symbol, ids) + addition;
    hide Announcement;
    InTurn(opening, Executions(e.symbol, e.deliveries), Deletions(e.symbol, ids), addition);
    var events := Announcement(e, ids);
    assert |opening| == Opening(e);
    assert forall i :: 0 <= i < |opening| ==> events[i] == opening[i];
    assert e.added.Some? ==> events[|events| - 1] == addition[0];
  }

  // Where the parts of four sequences put together are.
  lemma InTurn<T>(a: seq<T>, b: seq<T>, c: seq<T>, d: seq<T>)
    ensures var all := a + b + c + d;
      && (forall i :: 0 <= i < |a| ==> all[i] == a[i])
      && (forall i :: 0 <= i < |b| ==> all[|a| + i] == b[i])
      && (forall i :: 0 <= i < |c| ==> all[|a| + |b| + i] == c[i])
      && (forall i :: 0 <= i < |d| ==> all[|a| + |b| + |c| + i] == d[i])
  {
  }

  // ---- The three commands --------------------------------------------------------------------------

  lemma {:induction false} CompleteIsShown(b: Book, o: Order, s: Symbol, owners: map<OrderId, Owner>, sender: Owner,
                                           e: Effects, orders: Orders, ids: seq<OrderId>)
    requires Coherent(b) && o.id !in b.ById() && o.remaining > 0
    requires Views(b.ById()) == match e.withdrawn case Some(id) => orders - {id} case None => orders
    requires e.symbol == s && Lists(ids, e.filled)
    requires var r := Process(b, o);
      var after := r.book.ById();
      && e.deliveries == DeliveriesOf(owners, o.id, sender, r.trades)
      && e.filled == FilledBy(r.trades, o.id, after)
      && e.added == if o.id in after then Some(after[o.id]) else None
    ensures HearAllOrders(orders, Announcement(e, ids)) == Views(Process(b, o).book.ById())
  {
    hide Process, HearAllOrders, ConsumeAll, FilledBy, DeliveriesOf, Views, Lists, Book.ById, Coherent;
    var r := Process(b, o);
    var after: map<OrderId, Order> := r.book.ById();
    var own: set<OrderId> := {o.id};
    ProcessOnIndex(b, o);
    RemainderIsWhatIsLeft(b, o);
    assert after - own == ConsumeAll(b.ById(), r.trades, o.side);
    HearAnnouncement(orders, e, ids);
    MatchedIsShown(b.ById(), r.trades, o, after, s, owners, sender, ids);
    ViewsWith(after, o.id);
  }

  lemma ViewsWith(after: map<OrderId, Order>, id: OrderId)
    ensures Views(after) == if id in after then Views(after - {id})[id := ViewOf(after[id])] else Views(after - {id})
  {
    if id !in after {
      assert after - {id} == after;
    }
  }

  lemma {:induction false} CancelIsShown(b: Book, id: OrderId, e: Effects, ids: seq<OrderId>)
    requires Coherent(b) && id in b.ById()
    requires e.withdrawn == Some(id) && e.deliveries == [] && e.added == None && Lists(ids, {})
    ensures HearAllOrders(Views(b.ById()), Announcement(e, ids)) == Views(Cancel(b, id).ById())
  {
    HearAnnouncement(Views(b.ById()), e, ids);
    CancelRemovesExactly(b, id);
    var left := Views(b.ById()) - {id};
    DeletionsRemove(left, e.symbol, ids);
    assert left - (set id | id in ids) == left;
    assert Views(b.ById()) - {id} == Views(b.ById() - {id});
  }

  lemma {:induction false} EffectsAreShown(x: Exchange, socket: int, h: Wire.Header, body: seq<Byte>, orders: Orders, ids: seq<OrderId>)
    requires Agree(x)
    requires Handle(x, socket, h, body).1.Some?
    requires var e := Handle(x, socket, h, body).1.value;
      Lists(ids, e.filled) && orders == Views(InstrumentOf(x, e.symbol).book.ById())
    ensures var (x', effects) := Handle(x, socket, h, body);
      var e := effects.value;
      && HearAllOrders(orders, Announcement(e, ids)) == Views(InstrumentOf(x', e.symbol).book.ById())
      && forall t :: t != e.symbol ==> InstrumentOf(x', t) == InstrumentOf(x, t)
  {
    hide NewOrder, ReplaceOrder, HearAllOrders, Announcement;
    var (x', effects) := Handle(x, socket, h, body);
    var s := effects.value.symbol;
    EffectsStayInSymbol(x, socket, h, body);
    assert InstrumentOk(x.risk.working, s, InstrumentOf(x, s));
    if h.kind == Wire.NEW_ORDER {
      NewOrderIsShown(x, socket, h, body, orders, ids);
    } else if h.kind == Wire.CANCEL_ORDER {
      CancelIsShown(x.instruments[s].book, effects.value.withdrawn.value, effects.value, ids);
    } else {
      ReplaceIsShown(x, socket, h, body, orders, ids);
    }
  }

  lemma EffectsStayInSymbol(x: Exchange, socket: int, h: Wire.Header, body: seq<Byte>)
    requires Handle(x, socket, h, body).1.Some?
    ensures var (x', effects) := Handle(x, socket, h, body);
      forall t :: t != effects.value.symbol ==> InstrumentOf(x', t) == InstrumentOf(x, t)
  {
    hide NewOrder, CancelOrder, ReplaceOrder;
    NewOrderStays(x, socket, h, body);
    CancelStays(x, socket, h, body);
    ReplaceStays(x, socket, h, body);
  }

  // Only the command's own symbol changes.
  ghost predicate Stays(x: Exchange, step: Step) {
    step.effects.Some? ==> forall t :: t != step.effects.value.symbol ==> InstrumentOf(step.state, t) == InstrumentOf(x, t)
  }

  lemma NewOrderStays(x: Exchange, socket: int, h: Wire.Header, body: seq<Byte>)
    ensures Stays(x, NewOrder(x, socket, h, body))
  {
    hide Process, SettleTrades, FilledBy, DeliveriesOf, CheckNew, Book.ById, OrderResting, Wire.DecodeNewOrder, ReferencePrice;
  }

  lemma CancelStays(x: Exchange, socket: int, h: Wire.Header, body: seq<Byte>)
    ensures Stays(x, CancelOrder(x, socket, h, body))
  {
    hide Cancel, Book.ById, OrderCancelled, Wire.DecodeCancelOrder;
  }

  lemma ReplaceStays(x: Exchange, socket: int, h: Wire.Header, body: seq<Byte>)
    ensures Stays(x, ReplaceOrder(x, socket, h, body))
  {
    hide Replace, SettleTrades, FilledBy, DeliveriesOf, CheckReplace, Book.ById, OrderResting, OrderCancelled, Wire.DecodeReplaceOrder;
  }

  lemma {:induction false} NewOrderIsShown(x: Exchange, socket: int, h: Wire.Header, body: seq<Byte>, orders: Orders, ids: seq<OrderId>)
    requires NewOrder(x, socket, h, body).effects.Some?
    requires var e := NewOrder(x, socket, h, body).effects.value;
      && Lists(ids, e.filled)
      && Coherent(InstrumentOf(x, e.symbol).book)
      && orders == Views(InstrumentOf(x, e.symbol).book.ById())
    ensures var step := NewOrder(x, socket, h, body);
      HearAllOrders(orders, Announcement(step.effects.value, ids)) ==
      Views(InstrumentOf(step.state, step.effects.value.symbol).book.ById())
  {
    hide SettleTrades, CheckNew, HearAllOrders, Announcement, OrderResting, Process, FilledBy, DeliveriesOf, Views;
    var q := Wire.DecodeNewOrder(body).value;
    var s := Wire.SymbolText(q.symbol);
    var inst := InstrumentOf(x, s);
    var ready := Journaled(x.(instruments := x.instruments[s := inst]), h, body);
    var o := Replays.OrderOf(q);
    assert Process(inst.book, o).book == InstrumentOf(NewOrder(x, socket, h, body).state, s).book;
    CompleteIsShown(inst.book, o, s, inst.owners, Owner(socket, ClientOn(x, socket)), NewOrder(x, socket, h, body).effects.value, orders, ids);
  }

  lemma {:induction false} ReplaceIsShown(x: Exchange, socket: int, h: Wire.Header, body: seq<Byte>, orders: Orders, ids: seq<OrderId>)
    requires ReplaceOrder(x, socket, h, body).effects.Some?
    requires var e := ReplaceOrder(x, socket, h, body).effects.value;
      && Lists(ids, e.filled)
      && Coherent(InstrumentOf(x, e.symbol).book)
      && orders == Views(InstrumentOf(x, e.symbol).book.ById())
    ensures var step := ReplaceOrder(x, socket, h, body);
      HearAllOrders(orders, Announcement(step.effects.value, ids)) ==
      Views(InstrumentOf(step.state, step.effects.value.symbol).book.ById())
  {
    var q := Wire.DecodeReplaceOrder(body).value;
    var inst := x.instruments[Wire.SymbolText(q.symbol)];
    ReplaceEffects(x, socket, h, body);
    LocateId(inst.book, q.id);
    CancelRemovesExactly(inst.book, q.id);
    ViewsWithout(inst.book.ById(), q.id);
    CompleteIsShown(Cancel(inst.book, q.id), Replacement(inst.book.ById()[q.id], q.price, q.quantity, q.timestamp),
                    Wire.SymbolText(q.symbol), inst.owners, Owner(socket, ClientOn(x, socket)),
                    ReplaceOrder(x, socket, h, body).effects.value, orders, ids);
  }

  lemma ViewsWithout(index: map<OrderId, Order>, id: OrderId)
    ensures Views(index) - {id} == Views(index - {id})
  {
  }

  // A successful replacement announces the matching of the new order against the book without the old.
  lemma {:induction false} ReplaceEffects(x: Exchange, socket: int, h: Wire.Header, body: seq<Byte>)
    requires ReplaceOrder(x, socket, h, body).effects.Some?
    ensures Wire.DecodeReplaceOrder(body).Some?
    ensures var q := Wire.DecodeReplaceOrder(body).value;
      var s := Wire.SymbolText(q.symbol);
      && q.quantity > 0 && s in x.instruments && q.id in x.instruments[s].book.ById()
      && var inst := x.instruments[s];
         var r := Process(Cancel(inst.book, q.id), Replacement(inst.book.ById()[q.id], q.price, q.quantity, q.timestamp));
         var step := ReplaceOrder(x, socket, h, body);
         var e := step.effects.value;
         var sender := Owner(socket, ClientOn(x, socket));
         && e.symbol == s && e.withdrawn == Some(q.id)
         && e.deliveries == DeliveriesOf(inst.owners, q.id, sender, r.trades)
         && e.filled == FilledBy(r.trades, q.id, r.book.ById())
         && e.added == (if q.id in r.book.ById() then Some(r.book.ById()[q.id]) else None)
         && InstrumentOf(step.state, s).book == r.book
  {
  }

  /**
   One step: applying the events of a command, in the order they are emitted, to a screen that
   shows the books makes it show the books after the command.
   */
  lemma {:induction false} FeedFollowsReaction(x: Exchange, input: Input, screen: Screen, events: seq<FeedEvent>)
    requires Agree(x) && Shows(screen, x)
    requires Announces(React(x, input).1, events)
    ensures Shows(HearAll(screen, events), React(x, input).0)
  {
    hide Agree, Announcement;
    var (x', effects) := React(x, input);
    match effects {
      case None =>
        assert events == [] && HearAll(screen, events) == screen;
        forall t
          ensures OrdersOf(screen, t) == Views(InstrumentOf(x', t).book.ById())
        {
          assert OrdersOf(screen, t) == Views(InstrumentOf(x, t).book.ById());
          QuietKeepsBooks(x, input, t);
        }
      case Some(e) =>
        var ids :| Lists(ids, e.filled) && events == Announcement(e, ids);
        assert OrdersOf(screen, e.symbol) == Views(InstrumentOf(x, e.symbol).book.ById());
        EffectsAreShown(x, input.socket, input.header, input.body, OrdersOf(screen, e.symbol), ids);
        AnnouncedSymbol(e, ids);
        forall t
          ensures OrdersOf(HearAll(screen, events), t) == Views(InstrumentOf(x', t).book.ById())
        {
          HearOneSymbol(screen, events, e.symbol, t);
          assert OrdersOf(screen, t) == Views(InstrumentOf(x, t).book.ById());
        }
    }
  }

  // A step that announces nothing leaves every book as it was.
  lemma {:induction false} QuietKeepsBooks(x: Exchange, input: Input, t: Symbol)
    requires React(x, input).1.None?
    ensures InstrumentOf(React(x, input).0, t).book == InstrumentOf(x, t).book
  {
  }

  // The events of a whole run, command after command.
  ghost predicate Broadcast(x: Exchange, inputs: seq<Input>, events: seq<FeedEvent>)
    decreases |inputs|
  {
    if inputs == [] then events == []
    else
      exists k :: 0 <= k <= |events|
        && Announces(React(x, inputs[0]).1, events[..k])
        && Broadcast(React(x, inputs[0]).0, inputs[1..], events[k..])
  }

  /** Whole runs: the feed rebuilds the live books for a listener that starts in step. */
  lemma {:induction false} FeedFollowsRun(x: Exchange, inputs: seq<Input>, screen: Screen, events: seq<FeedEvent>)
    requires Agree(x) && Shows(screen, x) && Broadcast(x, inputs, events)
    ensures Shows(HearAll(screen, events), RunLaws.Run(x, inputs))
    decreases |inputs|
  {
    hide Agree, React, Shows, Announces, Hear;
    if inputs != [] {
      var k :| 0 <= k <= |events|
        && Announces(React(x, inputs[0]).1, events[..k])
        && Broadcast(React(x, inputs[0]).0, inputs[1..], events[k..]);
      FeedFollowsReaction(x, inputs[0], screen, events[..k]);
      ReactKeepsAgreement(x, inputs[0]);
      FeedFollowsRun(React(x, inputs[0]).0, inputs[1..], HearAll(screen, events[..k]), events[k..]);
      HearAllConcat(screen, events[..k], events[k..]);
      assert events == events[..k] + events[k..];
    }
  }

  lemma {:induction false} HearAllConcat(screen: Screen, xs: seq<FeedEvent>, ys: seq<FeedEvent>)
    ensures HearAll(screen, xs + ys) == HearAll(HearAll(screen, xs), ys)
    decreases |xs|
  {
    if xs == [] {
      assert xs + ys == ys;
    } else {
      assert (xs + ys)[1..] == xs[1..] + ys;
      HearAllConcat(Hear(screen, xs[0]), xs[1..], ys);
    }
  }

  // ---- Best bid and offer ----------------------------------------------------------------------------

  datatype Quote = Quote(bid: Option<(Price, Quantity)>, ask: Option<(Price, Quantity)>)
  type Quotes = map<Symbol, Quote>

  const NO_QUOTE := Quote(None, None)

  function QuoteOf(quotes: Quotes, s: Symbol): Quote {
    if s in quotes then quotes[s] else NO_QUOTE
  }

  // Only a book update changes what is displayed.
  function HearQuote(quotes: Quotes, event: FeedEvent): Quotes {
    match event
    case BookUpdated(s, bid, ask) => quotes[s := Quote(bid, ask)]
    case _ => quotes
  }

  function HearQuotes(quotes: Quotes, events: seq<FeedEvent>): Quotes
    decreases |events|
  {
    if events == [] then quotes else HearQuotes(HearQuote(quotes, events[0]), events[1..])
  }

  // What rests at one price, wherever it stands in the queue.
  function RestingAt(queue: seq<Order>, price: Price): nat {
    if queue == [] then 0
    else if queue[0].price == price then queue[0].remaining + RestingAt(queue[1..], price)
    else RestingAt(queue[1..], price)
  }

  // The price of the first order of a side, and all that rests there.
  function Best(queue: seq<Order>): Option<(Price, Quantity)> {
    if queue == [] then None else Some((queue[0].price, RestingAt(queue, queue[0].price)))
  }

  function Top(b: Book): Quote {
    Quote(Best(b.bids), Best(b.asks))
  }

  lemma {:induction false} QuantityRests(queue: seq<Order>, price: Price)
    ensures QuantityAt(queue, price) == RestingAt(queue, price)
  {
    if queue != [] {
      QuantityRests(queue[1..], price);
    }
  }

  lemma TopIsBest(queue: seq<Order>)
    ensures TopOf(queue) == Best(queue)
  {
    if queue != [] {
      QuantityRests(queue, queue[0].price);
    }
  }

  ghost predicate Displays(quotes: Quotes, x: Exchange) {
    forall s :: QuoteOf(quotes, s) == Top(InstrumentOf(x, s).book)
  }

  lemma {:induction false} QuietEvents(quotes: Quotes, events: seq<FeedEvent>)
    requires forall i :: 0 <= i < |events| ==> !events[i].BookUpdated?
    ensures HearQuotes(quotes, events) == quotes
    decreases |events|
  {
    if events != [] {
      QuietEvents(quotes, events[1..]);
    }
  }

  lemma {:induction false} OnlyOneUpdate(s: Symbol, deliveries: seq<Delivery>, ids: seq<OrderId>)
    ensures forall i :: 0 <= i < |Executions(s, deliveries)| ==> Executions(s, deliveries)[i].Executed?
    ensures forall i :: 0 <= i < |Deletions(s, ids)| ==> Deletions(s, ids)[i].Deleted?
    decreases |deliveries| + |ids|
  {
    if deliveries != [] {
      OnlyOneUpdate(s, deliveries[1..], ids);
    } else if ids != [] {
      OnlyOneUpdate(s, deliveries, ids[1..]);
    }
  }

  // The first event of an announcement is its only book update.
  lemma {:induction false} HearUpdate(quotes: Quotes, e: Effects, ids: seq<OrderId>)
    ensures HearQuotes(quotes, Announcement(e, ids)) == quotes[e.symbol := Top(e.book)]
  {
    hide TopOf, Best, Executions, Deletions;
    OnlyOneUpdate(e.symbol, e.deliveries, ids);
    TopIsBest(e.book.bids);
    TopIsBest(e.book.asks);
    var events := Announcement(e, ids);
    forall i | 0 <= i < |events[1..]|
      ensures !events[1..][i].BookUpdated?
    {
    }
    QuietEvents(quotes[e.symbol := Top(e.book)], events[1..]);
  }

  lemma EffectsCarryTheBook(x: Exchange, socket: int, h: Wire.Header, body: seq<Byte>)
    requires Handle(x, socket, h, body).1.Some?
    ensures var (x', effects) := Handle(x, socket, h, body);
      effects.value.book == InstrumentOf(x', effects.value.symbol).book
  {
    hide Process, Replace, Cancel, SettleTrades, FilledBy, DeliveriesOf, CheckNew, CheckReplace, Book.ById;
  }

  lemma {:induction false} QuotesFollowReaction(x: Exchange, input: Input, quotes: Quotes, events: seq<FeedEvent>)
    requires Displays(quotes, x) && Announces(React(x, input).1, events)
    ensures Displays(HearQuotes(quotes, events), React(x, input).0)
  {
    hide Announcement, Handle, Best;
    var (x', effects) := React(x, input);
    match effects {
      case None =>
        assert HearQuotes(quotes, events) == quotes;
        forall t
          ensures QuoteOf(quotes, t) == Top(InstrumentOf(x', t).book)
        {
          QuietKeepsBooks(x, input, t);
        }
      case Some(e) =>
        var ids :| Lists(ids, e.filled) && events == Announcement(e, ids);
        HearUpdate(quotes, e, ids);
        EffectsCarryTheBook(x, input.socket, input.header, input.body);
        EffectsStayInSymbol(x, input.socket, input.header, input.body);
    }
  }

  /**
   Over every run the displayed best bid and offer of every symbol are those of the live book, and
   the bid is below the offer.
   */
  lemma {:induction false} QuotesFollowRun(x: Exchange, inputs: seq<Input>, quotes: Quotes, events: seq<FeedEvent>)
    requires Agree(x) && Displays(quotes, x) && Broadcast(x, inputs, events)
    ensures Displays(HearQuotes(quotes, events), RunLaws.Run(x, inputs))
    ensures forall s :: var q := QuoteOf(HearQuotes(quotes, events), s);
      q.bid.Some? && q.ask.Some? ==> q.bid.value.0 < q.ask.value.0
    decreases |inputs|
  {
    hide Agree, React, Announces, HearQuote, Best, WellFormed;
    if inputs == [] {
      forall s
        ensures var q := QuoteOf(quotes, s); q.bid.Some? && q.ask.Some? ==> q.bid.value.0 < q.ask.value.0
      {
        TopIsUncrossed(x, s);
      }
    } else {
      var k :| 0 <= k <= |events|
        && Announces(React(x, inputs[0]).1, events[..k])
        && Broadcast(React(x, inputs[0]).0, inputs[1..], events[k..]);
      QuotesFollowReaction(x, inputs[0], quotes, events[..k]);
      ReactKeepsAgreement(x, inputs[0]);
      QuotesFollowRun(React(x, inputs[0]).0, inputs[1..], HearQuotes(quotes, events[..k]), events[k..]);
      HearQuotesConcat(quotes, events[..k], events[k..]);
      assert events == events[..k] + events[k..];
    }
  }

  lemma TopIsUncrossed(x: Exchange, s: Symbol)
    requires Agree(x)
    ensures var top := Top(InstrumentOf(x, s).book);
      top.bid.Some? && top.ask.Some? ==> top.bid.value.0 < top.ask.value.0
  {
    assert InstrumentOk(x.risk.working, s, InstrumentOf(x, s));
  }

  lemma {:induction false} HearQuotesConcat(quotes: Quotes, xs: seq<FeedEvent>, ys: seq<FeedEvent>)
    ensures HearQuotes(quotes, xs + ys) == HearQuotes(HearQuotes(quotes, xs), ys)
    decreases |xs|
  {
    if xs == [] {
      assert xs + ys == ys;
    } else {
      assert (xs + ys)[1..] == xs[1..] + ys;
      HearQuotesConcat(HearQuote(quotes, xs[0]), xs[1..], ys);
    }
  }
}
