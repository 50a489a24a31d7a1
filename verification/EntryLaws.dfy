/**
 What an accepted command does, told from the fields of its message and the state before it: whose
 trades, at which prices, how much, what comes to rest, and which connections hear of it.
 */
module EntryLaws {
  import opened ExchangeTypes
  import opened PriceTime
  import opened SweepLaws
  import opened BookLaws
  import opened MatchingLaws
  import opened TradingLaws
  import opened Risk
  import Wire
  import Journal
  import opened Replays
  import opened Exchanges
  import opened ExchangeLaws
  import opened RunLaws
  import FeedLaws
  import RecoveryLaws

  type Byte = Wire.Byte

  // ---- One order against one book ------------------------------------------------------------------

  // A trade of this order, on its own side, at a price it accepts and at the time it was sent.
  predicate FairTrade(o: Order, t: Trade) {
    && t.quantity > 0 && t.timestamp == o.timestamp && Accepts(o, t.price)
    && match o.side
       case Buy => t.buyId == o.id && t.sellId != o.id
       case Sell => t.sellId == o.id && t.buyId != o.id
  }

  // How much an order trades: all it can reach of its quantity, or nothing if it is all or nothing.
  function Fillable(b: Book, o: Order): nat {
    var reach := Reachable(o, Facing(b, o.side));
    if reach >= o.remaining then o.remaining
    else if o.tif.FillOrKill? then 0
    else reach
  }

  // Only a limit order that is good till cancelled comes to rest, with what it did not trade.
  function ComesToRest(o: Order, traded: nat): Option<Order> {
    if o.kind.Limit? && o.tif.GoodTillCancel? && traded < o.remaining then Some(LeftOver(o, o.remaining - traded)) else None
  }

  ghost predicate Fulfilled(b: Book, o: Order, trades: seq<Trade>, after: Book, added: Option<Order>) {
    && CarriedOut(b, o, Result(after, trades, Done))
    && (forall i :: 0 <= i < |trades| ==> FairTrade(o, trades[i]))
    && Traded(trades) == Fillable(b, o)
    && added == ComesToRest(o, Traded(trades))
    && (if added.Some? then AtRest(after, added.value) else !Holds(after.bids, o.id) && !Holds(after.asks, o.id))
  }

  lemma {:induction false} TradesAreFair(o: Order, queue: seq<Order>, m: Matched)
    requires SideOk(o.side.Opposite(), queue) && !Holds(queue, o.id) && PriceTimePriority(o, queue, m)
    ensures forall i :: 0 <= i < |m.trades| ==> FairTrade(o, m.trades[i])
  {
    hide SideOk, Traded, Survivors;
    OkIsPositive(o.side.Opposite(), queue);
    forall i | 0 <= i < |m.trades|
      ensures FairTrade(o, m.trades[i])
    {
      assert Accepts(o, queue[i].price) && Joins(m.trades[i], o, queue[i]);
      assert queue[i].id != o.id;
    }
  }

  lemma {:induction false} NobodyHolds(b: Book, id: OrderId)
    ensures id !in b.ById() <==> !Holds(b.bids, id) && !Holds(b.asks, id)
  {
    hide Holds, Index;
    HoldsIsIndexed(b.bids, id);
    HoldsIsIndexed(b.asks, id);
  }

  lemma {:induction false} ProcessFulfils(b: Book, o: Order)
    requires Coherent(b) && o.id !in b.ById() && o.remaining > 0
    ensures var r := Process(b, o);
      && r.outcome == Done
      && Fulfilled(b, o, r.trades, r.book, if o.id in r.book.ById() then Some(r.book.ById()[o.id]) else None)
  {
    hide Process, Reachable, Traded, ConsumeAll, PriceTimePriority, RestsRightly, SideOk, Book.ById, Holds, TradesFit, Remainder;
    var r := Process(b, o);
    OnlyOneWayToCarryOut(b, o, r);
    TradesAllItCan(b, o);
    ProcessOnIndex(b, o);
    NobodyHolds(b, o.id);
    NobodyHolds(r.book, o.id);
    FairWhenCarriedOut(b, o, r);
    RestsAsLeftOver(b, o);
  }

  lemma {:induction false} FairWhenCarriedOut(b: Book, o: Order, r: Result)
    requires Coherent(b) && !Holds(Facing(b, o.side), o.id) && CarriedOut(b, o, r)
    ensures forall i :: 0 <= i < |r.trades| ==> FairTrade(o, r.trades[i])
  {
    hide PriceTimePriority, RestsRightly, SideOk, Holds, FairTrade;
    if o.remaining > 0 && !(o.tif.FillOrKill? && Reachable(o, Facing(b, o.side)) < o.remaining) {
      TradesAreFair(o, Facing(b, o.side), Matched(r.trades, Facing(r.book, o.side), o.remaining - Traded(r.trades)));
    }
  }

  // What rests under the order's id is what the order has left.
  lemma {:induction false} RestsAsLeftOver(b: Book, o: Order)
    requires Coherent(b) && o.id !in b.ById() && o.remaining > 0
    ensures var r := Process(b, o);
      && Coherent(r.book)
      && (if o.id in r.book.ById() then Some(r.book.ById()[o.id]) else None) == ComesToRest(o, Traded(r.trades))
      && (o.id in r.book.ById() ==> AtRest(r.book, r.book.ById()[o.id]))
  {
    hide SideOk, Sweep, Insert, ConsumeAll, TradesFit, Available, Reachable, Traded, PriceTimePriority, Index, Holds, Remainder;
    var r := Process(b, o);
    ProcessOnIndex(b, o);
    RemainderIsWhatIsLeft(b, o);
    OnlyOneWayToCarryOut(b, o, r);
    NobodyHolds(b, o.id);
    NobodyHolds(r.book, o.id);
    hide Process;
    if o.id in r.book.ById() {
      LocateId(r.book, o.id);
    } else if MayRest(o) && Traded(r.trades) < o.remaining {
      assert Joined(Own(b, o.side), LeftOver(o, o.remaining - Traded(r.trades)), Own(r.book, o.side));
      JoinedIsHeld(Own(b, o.side), LeftOver(o, o.remaining - Traded(r.trades)), Own(r.book, o.side));
      assert false;
    }
  }

  lemma JoinedIsHeld(before: seq<Order>, o: Order, after: seq<Order>)
    requires Joined(before, o, after)
    ensures Holds(after, o.id)
  {
    var k :| 0 <= k <= |before| && StandsAt(before, o, after, k);
    assert after[k] == o;
  }

  // ---- Who is told ---------------------------------------------------------------------------------

  function TradesIn(deliveries: seq<Delivery>): seq<Trade> {
    if deliveries == [] then [] else [deliveries[0].trade] + TradesIn(deliveries[1..])
  }

  // The session a connection has been given, if any.
  function SenderOn(x: Exchange, socket: int): Owner {
    Owner(socket, if socket in x.sessions then x.sessions[socket] else NO_CLIENT)
  }

  // Whoever is on record as the owner, and otherwise nobody.
  predicate OnRecord(owners: map<OrderId, Owner>, id: OrderId, owner: Owner) {
    if id in owners then owner == owners[id] else owner.socket < 0 && owner.client == NO_CLIENT
  }

  // The sender is one side of the trade, the owner of the order at rest the other.
  predicate Attributed(d: Delivery, side: Side, sender: Owner, owners: map<OrderId, Owner>) {
    match side
    case Buy => d.buyer == sender && OnRecord(owners, d.trade.sellId, d.seller)
    case Sell => d.seller == sender && OnRecord(owners, d.trade.buyId, d.buyer)
  }

  // How many sides of a trade a connection has: its own order's, and that of an order at rest it owns.
  function SidesOf(t: Trade, side: Side, sender: int, owners: map<OrderId, Owner>, socket: int): nat {
    var other := match side case Buy => t.sellId case Sell => t.buyId;
    (if sender == socket then 1 else 0) + (if other in owners && owners[other].socket == socket then 1 else 0)
  }

  function Copies(t: Trade, n: nat): seq<Trade> {
    if n == 0 then [] else [t] + Copies(t, n - 1)
  }

  // The trades a connection is to be told of, in order, one copy for each side it has.
  function Due(trades: seq<Trade>, side: Side, sender: int, owners: map<OrderId, Owner>, socket: int): seq<Trade> {
    if trades == [] then []
    else Copies(trades[0], SidesOf(trades[0], side, sender, owners, socket)) + Due(trades[1..], side, sender, owners, socket)
  }

  // The trades a connection is told of.
  function HeardOf(report: Report, socket: int): seq<Trade> {
    if report.socket == socket then [report.trade] else []
  }

  function Heard(reports: seq<Report>, socket: int): seq<Trade> {
    if reports == [] then []
    else HeardOf(reports[0], socket) + Heard(reports[1..], socket)
  }

  lemma HeardFirst(reports: seq<Report>, socket: int)
    requires reports != []
    ensures Heard(reports, socket) == HeardOf(reports[0], socket) + Heard(reports[1..], socket)
  {
  }

  lemma {:induction false} HeardConcat(xs: seq<Report>, ys: seq<Report>, socket: int)
    ensures Heard(xs + ys, socket) == Heard(xs, socket) + Heard(ys, socket)
  {
    if xs == [] {
      assert xs + ys == ys;
    } else {
      hide Heard, HeardOf;
      assert (xs + ys)[1..] == xs[1..] + ys && (xs + ys)[0] == xs[0];
      HeardFirst(xs + ys, socket);
      HeardFirst(xs, socket);
      HeardConcat(xs[1..], ys, socket);
    }
  }

  lemma {:induction false} ToldIsHeard(reports: seq<Report>, socket: int)
    ensures Told(reports, socket) == |Heard(reports, socket)|
  {
    if reports != [] {
      ToldIsHeard(reports[1..], socket);
    }
  }

  ghost predicate AllAttributed(deliveries: seq<Delivery>, side: Side, sender: Owner, owners: map<OrderId, Owner>) {
    forall i :: 0 <= i < |deliveries| ==> Attributed(deliveries[i], side, sender, owners)
  }

  // The deliveries of a command's trades: the trades in order, each with its two owners.
  lemma {:induction false} DeliveriesAreAttributed(owners: map<OrderId, Owner>, o: Order, sender: Owner, trades: seq<Trade>)
    requires forall i :: 0 <= i < |trades| ==> FairTrade(o, trades[i])
    ensures var deliveries := DeliveriesOf(owners, o.id, sender, trades);
      TradesIn(deliveries) == trades && AllAttributed(deliveries, o.side, sender, owners)
  {
    if trades != [] {
      var deliveries := DeliveriesOf(owners, o.id, sender, trades);
      DeliveriesAreAttributed(owners, o, sender, trades[1..]);
      assert FairTrade(o, trades[0]);
      forall i | 0 <= i < |deliveries|
        ensures Attributed(deliveries[i], o.side, sender, owners)
      {
        if i > 0 {
          assert Attributed(deliveries[1..][i - 1], o.side, sender, owners);
        }
      }
    }
  }

  // One delivery tells a connection once for each side it has.
  lemma {:induction false} DeliveryIsHeard(d: Delivery, side: Side, sender: Owner, owners: map<OrderId, Owner>, socket: int)
    requires Attributed(d, side, sender, owners) && socket >= 0
    ensures Heard(ReportTo(d.buyer, d.trade) + ReportTo(d.seller, d.trade), socket) ==
      Copies(d.trade, SidesOf(d.trade, side, sender.socket, owners, socket))
  {
    HeardConcat(ReportTo(d.buyer, d.trade), ReportTo(d.seller, d.trade), socket);
    HeardOnce(d.buyer, d.trade, socket);
    HeardOnce(d.seller, d.trade, socket);
    assert Copies(d.trade, 2) == [d.trade] + Copies(d.trade, 1) == [d.trade] + [d.trade];
  }

  lemma HeardOnce(owner: Owner, t: Trade, socket: int)
    requires socket >= 0
    ensures Heard(ReportTo(owner, t), socket) == if owner.socket == socket then [t] else []
  {
    assert ReportTo(owner, t) != [] ==> ReportTo(owner, t)[1..] == [];
  }

  /** Every connection is told of exactly the trades it has a side of, once for each side. */
  lemma {:induction false} EveryOwnerHears(deliveries: seq<Delivery>, side: Side, sender: Owner, owners: map<OrderId, Owner>, socket: int)
    requires AllAttributed(deliveries, side, sender, owners) && socket >= 0
    ensures Heard(ReportsOf(deliveries), socket) == Due(TradesIn(deliveries), side, sender.socket, owners, socket)
  {
    if deliveries != [] {
      var d := deliveries[0];
      assert Attributed(d, side, sender, owners);
      EveryOwnerHears(deliveries[1..], side, sender, owners, socket);
      DeliveryIsHeard(d, side, sender, owners, socket);
      HeardConcat(ReportTo(d.buyer, d.trade) + ReportTo(d.seller, d.trade), ReportsOf(deliveries[1..]), socket);
    }
  }

  // Among connections, the buyer of each trade is told before its seller, trade after trade.
  lemma {:induction false} BuyerIsToldFirst(deliveries: seq<Delivery>)
    requires forall i :: 0 <= i < |deliveries| ==> deliveries[i].buyer.socket >= 0 && deliveries[i].seller.socket >= 0
    ensures |ReportsOf(deliveries)| == 2 * |deliveries|
    ensures forall i :: 0 <= i < |deliveries| ==>
      && ReportsOf(deliveries)[2 * i] == Report(deliveries[i].buyer.socket, deliveries[i].trade)
      && ReportsOf(deliveries)[2 * i + 1] == Report(deliveries[i].seller.socket, deliveries[i].trade)
  {
    if deliveries != [] {
      var d := deliveries[0];
      BuyerIsToldFirst(deliveries[1..]);
      var reports := ReportsOf(deliveries);
      assert reports == [Report(d.buyer.socket, d.trade), Report(d.seller.socket, d.trade)] + ReportsOf(deliveries[1..]);
      forall i | 0 <= i < |deliveries|
        ensures reports[2 * i] == Report(deliveries[i].buyer.socket, deliveries[i].trade)
        ensures reports[2 * i + 1] == Report(deliveries[i].seller.socket, deliveries[i].trade)
      {
        if i > 0 {
          assert reports[2 * i] == ReportsOf(deliveries[1..])[2 * (i - 1)];
          assert reports[2 * i + 1] == ReportsOf(deliveries[1..])[2 * (i - 1) + 1];
        }
      }
    }
  }

  // What a command that was carried out sends: its reply, and reports of its trades.
  ghost predicate Reports(x: Exchange, s: Symbol, side: Side, socket: int, e: Effects) {
    var owners := InstrumentOf(x, s).owners;
    && AllAttributed(e.deliveries, side, SenderOn(x, socket), owners)
    && forall k :: k >= 0 ==> Heard(ReportsOf(e.deliveries), k) == Due(TradesIn(e.deliveries), side, socket, owners, k)
  }

  lemma {:induction false} ReportsAreDue(x: Exchange, s: Symbol, side: Side, socket: int, e: Effects)
    requires AllAttributed(e.deliveries, side, SenderOn(x, socket), InstrumentOf(x, s).owners)
    ensures Reports(x, s, side, socket, e)
  {
    forall k | k >= 0
      ensures Heard(ReportsOf(e.deliveries), k) == Due(TradesIn(e.deliveries), side, socket, InstrumentOf(x, s).owners, k)
    {
      EveryOwnerHears(e.deliveries, side, SenderOn(x, socket), InstrumentOf(x, s).owners, k);
    }
  }

  // Who owns what afterwards: the sender its own order if it rests, everyone else what they owned and
  // still rests.
  ghost predicate OwnersPassOn(owners: map<OrderId, Owner>, id: OrderId, sender: Owner, after: Book, owners': map<OrderId, Owner>) {
    forall k: OrderId :: Lookup(owners', k) ==
      if !Holds(after.bids + after.asks, k) then None
      else if k == id then Some(sender)
      else Lookup(owners, k)
  }

  lemma {:induction false} OwnersArePassedOn(b: Book, o: Order, sender: Owner, owners: map<OrderId, Owner>)
    requires Coherent(b) && o.id !in b.ById() && owners.Keys <= b.ById().Keys + {o.id}
    ensures var r := Process(b, o);
      var after := r.book.ById();
      var filled := FilledBy(r.trades, o.id, after);
      OwnersPassOn(owners, o.id, sender, r.book, if o.id in after then (owners - filled)[o.id := sender] else owners - filled - {o.id})
  {
    hide Process, Book.ById, Holds, FilledBy, Coherent;
    var r := Process(b, o);
    var after := r.book.ById();
    var filled := FilledBy(r.trades, o.id, after);
    var owners' := if o.id in after then (owners - filled)[o.id := sender] else owners - filled - {o.id};
    OwnersFollow(b, o, sender, owners);
    FilledIsGone(r.trades, o.id, after);
    forall k: OrderId
      ensures Lookup(owners', k) ==
        if !Holds(r.book.bids + r.book.asks, k) then None else if k == o.id then Some(sender) else Lookup(owners, k)
    {
      NobodyHolds(r.book, k);
      HoldsEither(r.book.bids, r.book.asks, k);
      assert k in (owners - filled - {o.id}).Keys ==> k in after;
    }
  }

  // ---- The commands ----------------------------------------------------------------------------------

  // What matching an order and completing the command announces.
  lemma {:induction false} CompletedFulfils(x: Exchange, ready: Exchange, s: Symbol, socket: int, b: Book, o: Order, withdrawn: Option<OrderId>)
    requires Coherent(b) && o.id !in b.ById() && o.remaining > 0
    requires InstrumentOf(ready, s).owners == InstrumentOf(x, s).owners
    requires InstrumentOf(x, s).owners.Keys <= b.ById().Keys + {o.id}
    ensures var (x', e) := Complete(ready, s, SenderOn(x, socket), o.id, Process(b, o), withdrawn);
      && e.symbol == s && e.withdrawn == withdrawn && InstrumentOf(x', s).book == e.book
      && Fulfilled(b, o, TradesIn(e.deliveries), e.book, e.added)
      && Reports(x, s, o.side, socket, e)
      && OwnersPassOn(InstrumentOf(x, s).owners, o.id, SenderOn(x, socket), e.book, InstrumentOf(x', s).owners)
  {
    hide Process, CarriedOut, Fillable, Reports, SideOk, Coherent, Book.ById, SettleTrades, OrderResting, FilledBy, DeliveriesOf, FairTrade, OwnersPassOn;
    var r := Process(b, o);
    var sender := SenderOn(x, socket);
    ProcessFulfils(b, o);
    CompleteParts(ready, s, sender, o.id, r, withdrawn);
    DeliveriesAreAttributed(InstrumentOf(x, s).owners, o, sender, r.trades);
    OwnersArePassedOn(b, o, sender, InstrumentOf(x, s).owners);
    ReportsAreDue(x, s, o.side, socket, Complete(ready, s, sender, o.id, r, withdrawn).1);
  }

  /**
   A new order that is accepted does what its message says: it is put to the symbol's book with the
   message's id, side, kind, time in force, price, quantity and time; its trades are its own, within
   its price, and as many as it can reach; what is left rests if it may; and every connection hears of
   each side it has.
   */
  lemma {:induction false} NewOrderDoesWhatItSays(x: Exchange, socket: int, h: Wire.Header, body: seq<Byte>)
    requires Agree(x) && NewOrder(x, socket, h, body).reply.success
    ensures Wire.DecodeNewOrder(body).Some? && NewOrder(x, socket, h, body).effects.Some?
    ensures var q := Wire.DecodeNewOrder(body).value;
      var step := NewOrder(x, socket, h, body);
      var e := step.effects.value;
      var s := Wire.SymbolText(q.symbol);
      && step.reply == Reply(socket, q.id, Accepted, true)
      && e.symbol == s && e.withdrawn == None && e.book == InstrumentOf(step.state, s).book
      && (forall t :: t != s ==> InstrumentOf(step.state, t) == InstrumentOf(x, t))
      && Fulfilled(InstrumentOf(x, s).book, Order(q.id, q.side, q.kind, q.tif, q.price, q.quantity, q.quantity, q.timestamp),
                   TradesIn(e.deliveries), e.book, e.added)
      && Reports(x, s, q.side, socket, e)
      && OwnersPassOn(InstrumentOf(x, s).owners, q.id, SenderOn(x, socket), e.book, InstrumentOf(step.state, s).owners)
  {
    hide Agree, Process, Complete, Fulfilled, Reports, OwnersPassOn, CheckNew, Book.ById, Wire.SymbolText, Coherent, Journal.Frame, Wire.EncodeHeader;
    FeedLaws.NewOrderStays(x, socket, h, body);
    NewOrderReply(x, socket, h, body);
    var q := Wire.DecodeNewOrder(body).value;
    var s := Wire.SymbolText(q.symbol);
    var inst := InstrumentOf(x, s);
    BookIsCoherent(x, s);
    CompletedFulfils(x, Journaled(x.(instruments := x.instruments[s := inst]), h, body), s, socket, inst.book,
                     Order(q.id, q.side, q.kind, q.tif, q.price, q.quantity, q.quantity, q.timestamp), None);
  }

  lemma BookIsCoherent(x: Exchange, s: Symbol)
    requires Agree(x)
    ensures Coherent(InstrumentOf(x, s).book) && InstrumentOf(x, s).owners.Keys <= InstrumentOf(x, s).book.ById().Keys
  {
    assert InstrumentOk(x.risk.working, s, InstrumentOf(x, s));
  }

  // An order at rest that the sender has on record as its own.
  ghost predicate Owns(x: Exchange, s: Symbol, socket: int, earlier: Order) {
    && AtRest(InstrumentOf(x, s).book, earlier)
    && earlier.id in InstrumentOf(x, s).owners && InstrumentOf(x, s).owners[earlier.id] == SenderOn(x, socket)
  }

  /**
   A replacement that is accepted is of an order of the sender, which leaves the book; in its place an
   order of the same id and side, with the message's price, quantity and time, is put to the book.
   */
  lemma {:induction false} ReplaceDoesWhatItSays(x: Exchange, socket: int, h: Wire.Header, body: seq<Byte>) returns (earlier: Order)
    requires Agree(x) && ReplaceOrder(x, socket, h, body).reply.success
    ensures Wire.DecodeReplaceOrder(body).Some? && ReplaceOrder(x, socket, h, body).effects.Some?
    ensures var q := Wire.DecodeReplaceOrder(body).value;
      var step := ReplaceOrder(x, socket, h, body);
      var e := step.effects.value;
      var s := Wire.SymbolText(q.symbol);
      && earlier.id == q.id && Owns(x, s, socket, earlier)
      && step.reply == Reply(socket, q.id, Replaced, true)
      && e.symbol == s && e.withdrawn == Some(q.id) && e.book == InstrumentOf(step.state, s).book
      && (forall t :: t != s ==> InstrumentOf(step.state, t) == InstrumentOf(x, t))
      && Fulfilled(BookWithout(InstrumentOf(x, s).book, q.id),
                   Order(q.id, earlier.side, Limit, GoodTillCancel, q.price, q.quantity, q.quantity, q.timestamp),
                   TradesIn(e.deliveries), e.book, e.added)
      && Reports(x, s, earlier.side, socket, e)
      && OwnersPassOn(InstrumentOf(x, s).owners, q.id, SenderOn(x, socket), e.book, InstrumentOf(step.state, s).owners)
  {
    hide Agree, Process, Complete, Fulfilled, Reports, OwnersPassOn, CheckReplace, Book.ById, Wire.SymbolText, Coherent, Journal.Frame,
      Wire.EncodeHeader, Cancel, BookWithout, OrderCancelled, Index;
    FeedLaws.ReplaceStays(x, socket, h, body);
    ReplaceReply(x, socket, h, body);
    RecoveryLaws.AcceptedReplace(x, socket, h, body);
    var q := Wire.DecodeReplaceOrder(body).value;
    var s := Wire.SymbolText(q.symbol);
    var inst := x.instruments[s];
    earlier := inst.book.ById()[q.id];
    BookIsCoherent(x, s);
    LocateId(inst.book, q.id);
    CancelTakesOne(inst.book, q.id);
    CancelRemovesExactly(inst.book, q.id);
    var withdrawn := Journaled(x, h, body).(risk := OrderCancelled(x.risk, Key(SenderOn(x, socket).client, s, q.id)));
    CompletedFulfils(x, withdrawn, s, socket, BookWithout(inst.book, q.id),
                     Order(q.id, earlier.side, Limit, GoodTillCancel, q.price, q.quantity, q.quantity, q.timestamp), Some(q.id));
  }

  /** A cancel that is accepted takes an order of the sender out of the book, and does nothing else. */
  lemma {:induction false} CancelDoesWhatItSays(x: Exchange, socket: int, h: Wire.Header, body: seq<Byte>) returns (earlier: Order)
    requires Agree(x) && CancelOrder(x, socket, h, body).reply.success
    ensures Wire.DecodeCancelOrder(body).Some?
    ensures var q := Wire.DecodeCancelOrder(body).value;
      var step := CancelOrder(x, socket, h, body);
      var s := Wire.SymbolText(q.symbol);
      var left := BookWithout(InstrumentOf(x, s).book, q.id);
      && earlier.id == q.id && Owns(x, s, socket, earlier)
      && step.reply == Reply(socket, q.id, Cancelled, true)
      && step.effects == Some(Effects(s, left, Some(q.id), [], {}, None))
      && InstrumentOf(step.state, s) == Instrument(left, InstrumentOf(x, s).owners - {q.id})
      && (forall t :: t != s ==> InstrumentOf(step.state, t) == InstrumentOf(x, t))
  {
    hide Agree, Book.ById, Wire.SymbolText, Coherent, Journal.Frame, Wire.EncodeHeader, Cancel, BookWithout, OrderCancelled, Index;
    CancelReply(x, socket, h, body);
    var q := Wire.DecodeCancelOrder(body).value;
    var s := Wire.SymbolText(q.symbol);
    earlier := x.instruments[s].book.ById()[q.id];
    BookIsCoherent(x, s);
    LocateId(x.instruments[s].book, q.id);
    CancelTakesOne(x.instruments[s].book, q.id);
  }

  // ---- The commands in a replay ----------------------------------------------------------------------

  // What a record does to the books and to the counters.
  ghost predicate Records(st: Replayed, st': Replayed, s: Symbol, book: Book, newOrders: nat, trades: nat, rejected: nat) {
    && st'.books == st.books[s := book]
    && st'.summary == Summary(st.summary.records, st.summary.newOrders + newOrders, st.summary.trades + trades,
                              st.summary.rejected + rejected, st.summary.unsupported)
  }

  /** Replaying a new order does to a book what its message says, and counts the order and its trades. */
  lemma {:induction false} ReplayedNewOrderDoesWhatItSays(st: Replayed, body: seq<Byte>) returns (r: Result)
    requires forall s :: s in st.books ==> Coherent(st.books[s])
    ensures var st' := ApplyNewOrder(st, body);
      match Wire.DecodeNewOrder(body)
      case None => st' == OneRejected(st)
      case Some(q) =>
        if q.quantity >= 0x1_0000_0000 then st' == OneRejected(st)
        else
          var s := Wire.SymbolText(q.symbol);
          && CarriedOut(if s in st.books then st.books[s] else Book([], []),
                        Order(q.id, q.side, q.kind, q.tif, q.price, q.quantity, q.quantity, q.timestamp), r)
          && (if r.outcome == Done then Records(st, st', s, r.book, 1, |r.trades|, 0) else Records(st, st', s, r.book, 0, 0, 1))
  {
    hide Process, CarriedOut, Coherent, Wire.SymbolText;
    r := Result(EMPTY_BOOK, [], Done);
    if Wire.DecodeNewOrder(body).Some? {
      var q := Wire.DecodeNewOrder(body).value;
      var s := Wire.SymbolText(q.symbol);
      var o := Order(q.id, q.side, q.kind, q.tif, q.price, q.quantity, q.quantity, q.timestamp);
      RecoveryLaws.SymbolsHaveText(q.symbol);
      EmptyIsCoherent();
      r := Process(BookOf(st.books, s), o);
      OnlyOneWayToCarryOut(BookOf(st.books, s), o, r);
    }
  }

  lemma EmptyIsCoherent()
    ensures Coherent(EMPTY_BOOK)
  {
  }

  /** Replaying a replacement: the order it names leaves its book and the new one is put to it. */
  lemma {:induction false} ReplayedReplaceDoesWhatItSays(st: Replayed, body: seq<Byte>) returns (earlier: Order, r: Result)
    requires forall s :: s in st.books ==> Coherent(st.books[s])
    ensures var st' := ApplyReplaceOrder(st, body);
      match Wire.DecodeReplaceOrder(body)
      case None => st' == OneRejected(st)
      case Some(q) =>
        var s := Wire.SymbolText(q.symbol);
        if q.quantity >= 0x1_0000_0000 || s !in st.books || !Holds(st.books[s].bids + st.books[s].asks, q.id) then st' == OneRejected(st)
        else
          && AtRest(st.books[s], earlier) && earlier.id == q.id
          && CarriedOut(BookWithout(st.books[s], q.id),
                        Order(q.id, earlier.side, Limit, GoodTillCancel, q.price, q.quantity, q.quantity, q.timestamp), r)
          && r.outcome == Done && Records(st, st', s, r.book, 0, |r.trades|, 0)
  {
    hide Replace, CarriedOut, Coherent, Wire.SymbolText, Book.ById, Holds, BookWithout, Index;
    earlier, r := Order(0, Buy, Limit, GoodTillCancel, 0, 0, 0, 0), Result(EMPTY_BOOK, [], Done);
    if Wire.DecodeReplaceOrder(body).Some? {
      var q := Wire.DecodeReplaceOrder(body).value;
      var s := Wire.SymbolText(q.symbol);
      RecoveryLaws.SymbolsHaveText(q.symbol);
      if s in st.books {
        NobodyHolds(st.books[s], q.id);
        HoldsEither(st.books[s].bids, st.books[s].asks, q.id);
        if q.id in st.books[s].ById() {
          LocateId(st.books[s], q.id);
          earlier := st.books[s].ById()[q.id];
          r := Replace(st.books[s], q.id, q.price, q.quantity, q.timestamp);
          OnlyOneWayToReplace(st.books[s], earlier, q.price, q.quantity, q.timestamp, r);
          RecoveryLaws.ReplaceSucceeds(st.books[s], q);
        }
      }
    }
  }

  /** Replaying a cancel: the order it names leaves its book. */
  lemma {:induction false} ReplayedCancelDoesWhatItSays(st: Replayed, body: seq<Byte>)
    requires forall s :: s in st.books ==> Coherent(st.books[s])
    ensures var st' := ApplyCancelOrder(st, body);
      match Wire.DecodeCancelOrder(body)
      case None => st' == OneRejected(st)
      case Some(q) =>
        var s := Wire.SymbolText(q.symbol);
        if s !in st.books || !Holds(st.books[s].bids + st.books[s].asks, q.id) then st' == OneRejected(st)
        else Records(st, st', s, BookWithout(st.books[s], q.id), 0, 0, 0)
  {
    hide Cancel, Coherent, Wire.SymbolText, Book.ById, Holds, BookWithout, Index;
    if Wire.DecodeCancelOrder(body).Some? {
      var q := Wire.DecodeCancelOrder(body).value;
      var s := Wire.SymbolText(q.symbol);
      RecoveryLaws.SymbolsHaveText(q.symbol);
      if s in st.books {
        NobodyHolds(st.books[s], q.id);
        HoldsEither(st.books[s].bids, st.books[s].asks, q.id);
        CancelTakesOne(st.books[s], q.id);
      }
    }
  }

  /** One record of a replay: what is no message is rejected, what is none of the three commands counted apart. */
  lemma {:induction false} ReplayedByNumber(st: Replayed, record: seq<Byte>)
    requires Journal.Recordable(record)
    ensures var counted := Replayed(st.books, Summary(st.summary.records + 1, st.summary.newOrders, st.summary.trades,
                                                      st.summary.rejected, st.summary.unsupported));
      var st' := ApplyRecord(st, record);
      match Wire.DecodeHeader(record[..20])
      case None => st' == OneRejected(counted)
      case Some(h) =>
        && (|record| != 20 + h.bodySize ==> st' == OneRejected(counted))
        && (|record| == 20 + h.bodySize && h.kind == 1 ==> st' == ApplyNewOrder(counted, record[20..]))
        && (|record| == 20 + h.bodySize && h.kind == 2 ==> st' == ApplyCancelOrder(counted, record[20..]))
        && (|record| == 20 + h.bodySize && h.kind == 3 ==> st' == ApplyReplaceOrder(counted, record[20..]))
        && (|record| == 20 + h.bodySize && h.kind !in {1, 2, 3} ==>
              st' == counted.(summary := counted.summary.(unsupported := counted.summary.unsupported + 1)))
  {
    hide ApplyNewOrder, ApplyCancelOrder, ApplyReplaceOrder, Wire.DecodeHeader;
  }

  // ---- Messages and sessions -------------------------------------------------------------------------

  /** The three commands go by their numbers; any other message changes nothing. */
  lemma {:induction false} HandledByNumber(x: Exchange, socket: int, h: Wire.Header, body: seq<Byte>)
    ensures var (x', effects) := React(x, Received(socket, h, body));
      && (h.kind == 1 ==> x' == NewOrder(x, socket, h, body).state && effects == NewOrder(x, socket, h, body).effects)
      && (h.kind == 2 ==> x' == CancelOrder(x, socket, h, body).state && effects == CancelOrder(x, socket, h, body).effects)
      && (h.kind == 3 ==> x' == ReplaceOrder(x, socket, h, body).state && effects == ReplaceOrder(x, socket, h, body).effects)
      && (h.kind !in {1, 2, 3} ==> x' == x && effects == None)
  {
    hide NewOrder, CancelOrder, ReplaceOrder;
  }

  // Every connection has a session number of its own, drawn before.
  ghost predicate SessionsApart(x: Exchange) {
    && x.nextClient > 0
    && (forall a :: a in x.sessions ==> NO_CLIENT < x.sessions[a] < x.nextClient)
    && (forall a, b :: a in x.sessions && b in x.sessions && x.sessions[a] == x.sessions[b] ==> a == b)
  }

  // What a connection coming and going does to the sessions; messages do nothing to them.
  ghost predicate SessionsFollow(x: Exchange, input: Input, x': Exchange) {
    match input
    case Connected(socket) =>
      x' == x.(sessions := x.sessions[socket := x.nextClient], nextClient := x.nextClient + 1)
    case Disconnected(socket) =>
      x' == x.(sessions := x'.sessions) && forall a :: Lookup(x'.sessions, a) == if a == socket then None else Lookup(x.sessions, a)
    case KillSwitch(enabled) => x' == x.(risk := x.risk.(globalKill := enabled))
    case Received(_, _, _) => x'.sessions == x.sessions && x'.nextClient == x.nextClient
  }

  lemma {:induction false} MessagesKeepSessions(x: Exchange, socket: int, h: Wire.Header, body: seq<Byte>)
    ensures var x' := React(x, Received(socket, h, body)).0; x'.sessions == x.sessions && x'.nextClient == x.nextClient
  {
    hide CheckNew, CheckReplace, Process, Replace, Cancel, Book.ById, SettleTrades, DeliveriesOf, FilledBy, OrderResting, OrderCancelled,
      Wire.DecodeNewOrder, Wire.DecodeCancelOrder, Wire.DecodeReplaceOrder, ReferencePrice, Journal.Frame, Wire.EncodeHeader;
  }

  /** Sessions follow the connections, and in every run no two connections share one. */
  lemma {:induction false} SessionsStayApart(x: Exchange, inputs: seq<Input>)
    requires SessionsApart(x)
    ensures SessionsApart(RunLaws.Run(x, inputs))
    ensures inputs != [] ==> SessionsFollow(x, inputs[0], React(x, inputs[0]).0)
    decreases |inputs|
  {
    hide Handle;
    if inputs != [] {
      var input := inputs[0];
      if input.Received? {
        MessagesKeepSessions(x, input.socket, input.header, input.body);
      }
      SessionsStayApart(React(x, input).0, inputs[1..]);
    }
  }
}
