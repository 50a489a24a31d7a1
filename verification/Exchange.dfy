/**
 The exchange as one state and one step per message: books, owners, risk and journal move
 together, and each step says what it answers and announces.
 */
module Exchanges {
  import opened ExchangeTypes
  import opened PriceTime
  import opened Risk
  import Wire
  import Journal
  import Replays

  type Byte = Wire.Byte

  datatype Owner = Owner(socket: int, client: ClientId)
  const NOBODY := Owner(-1, NO_CLIENT)

  datatype Instrument = Instrument(book: Book, owners: map<OrderId, Owner>)
  const NEW_INSTRUMENT := Instrument(EMPTY_BOOK, map[])

  datatype Exchange = Exchange(
    instruments: map<Symbol, Instrument>,
    risk: RiskState,
    sessions: map<int, ClientId>,
    nextClient: ClientId,
    journal: Option<seq<Byte>>)

  datatype ReplyKind = Accepted | Cancelled | Replaced
  datatype Reply = Reply(socket: int, id: OrderId, kind: ReplyKind, success: bool)

  datatype Delivery = Delivery(trade: Trade, buyer: Owner, seller: Owner)

  // What a successful command announces: the book it leaves, the order it withdrew first, its
  // trades, the resting orders they used up, and the order that came to rest.
  datatype Effects = Effects(
    symbol: Symbol,
    book: Book,
    withdrawn: Option<OrderId>,
    deliveries: seq<Delivery>,
    filled: set<OrderId>,
    added: Option<Order>)

  datatype Step = Step(state: Exchange, reply: Reply, effects: Option<Effects>)

  function InstrumentOf(x: Exchange, s: Symbol): Instrument {
    if s in x.instruments then x.instruments[s] else NEW_INSTRUMENT
  }

  function ClientOn(x: Exchange, socket: int): ClientId {
    if socket in x.sessions then x.sessions[socket] else NO_CLIENT
  }

  // ---- Sessions and administration --------------------------------------------------------

  function Connect(x: Exchange, socket: int): Exchange {
    x.(sessions := x.sessions[socket := x.nextClient], nextClient := x.nextClient + 1)
  }

  function Disconnect(x: Exchange, socket: int): Exchange {
    x.(sessions := x.sessions - {socket})
  }

  function SetGlobalKillSwitch(x: Exchange, enabled: bool): Exchange {
    x.(risk := x.risk.(globalKill := enabled))
  }

  // ---- Parts of a command -------------------------------------------------------------------

  function Journaled(x: Exchange, h: Wire.Header, body: seq<Byte>): Exchange {
    match x.journal
    case None => x
    case Some(file) => x.(journal := Some(file + Journal.Frame(Wire.EncodeHeader(h) + body)))
  }

  // The incoming order belongs to the sender; a resting order to whoever is on record, if anyone.
  function OwnerOf(owners: map<OrderId, Owner>, id: OrderId, incoming: OrderId, sender: Owner): Owner {
    if id == incoming then sender else if id in owners then owners[id] else NOBODY
  }

  function DeliveryOf(owners: map<OrderId, Owner>, incoming: OrderId, sender: Owner, t: Trade): Delivery {
    Delivery(t, OwnerOf(owners, t.buyId, incoming, sender), OwnerOf(owners, t.sellId, incoming, sender))
  }

  function DeliveriesOf(owners: map<OrderId, Owner>, incoming: OrderId, sender: Owner, trades: seq<Trade>): seq<Delivery> {
    if trades == [] then []
    else [DeliveryOf(owners, incoming, sender, trades[0])] + DeliveriesOf(owners, incoming, sender, trades[1..])
  }

  function SettleTrades(r: RiskState, s: Symbol, deliveries: seq<Delivery>): RiskState
    decreases |deliveries|
  {
    if deliveries == [] then r
    else
      var d := deliveries[0];
      SettleTrades(TradeDone(r, s, d.buyer.client, d.seller.client, d.trade), s, deliveries[1..])
  }

  function Gone(id: OrderId, incoming: OrderId, index: map<OrderId, Order>): set<OrderId> {
    if id != incoming && id !in index then {id} else {}
  }

  // The resting orders that traded and are no longer in the book.
  function FilledBy(trades: seq<Trade>, incoming: OrderId, index: map<OrderId, Order>): set<OrderId> {
    if trades == [] then {}
    else
      Gone(trades[0].buyId, incoming, index) + Gone(trades[0].sellId, incoming, index)
      + FilledBy(trades[1..], incoming, index)
  }

  function AsWorking(o: Order): Working {
    Working(o.side, o.price, o.remaining)
  }

  // After matching: settle the trades, forget the owners of used-up orders, record a rested order.
  function Complete(x: Exchange, s: Symbol, sender: Owner, id: OrderId, r: Result, withdrawn: Option<OrderId>): (Exchange, Effects) {
    var owners := InstrumentOf(x, s).owners;
    var index := r.book.ById();
    var deliveries := DeliveriesOf(owners, id, sender, r.trades);
    var filled := FilledBy(r.trades, id, index);
    var risk := SettleTrades(x.risk, s, deliveries);
    var rested := id in index;
    var owners' := if rested then (owners - filled)[id := sender] else owners - filled - {id};
    var risk' := if rested then OrderResting(risk, Key(sender.client, s, id), AsWorking(index[id])) else risk;
    (x.(instruments := x.instruments[s := Instrument(r.book, owners')], risk := risk'),
     Effects(s, r.book, withdrawn, deliveries, filled, if rested then Some(index[id]) else None))
  }

  function ReferencePrice(b: Book, side: Side): Option<Price> {
    var queue := b.Queue(side.Opposite());
    if queue == [] then None else Some(queue[0].price)
  }

  function RiskRequest(client: ClientId, s: Symbol, o: Order, b: Book): NewRequest {
    NewRequest(client, s, o.side, o.kind, o.tif, o.price, o.remaining,
               if o.kind.Market? then ReferencePrice(b, o.side) else None)
  }

  // ---- The three commands --------------------------------------------------------------------

  function NewOrder(x: Exchange, socket: int, h: Wire.Header, body: seq<Byte>): Step {
    if h.bodySize != Wire.NEW_ORDER_BODY_SIZE then Step(x, Reply(socket, 0, Accepted, false), None)
    else
      match Wire.DecodeNewOrder(body)
      case None => Step(x, Reply(socket, 0, Accepted, false), None)
      case Some(q) =>
        var s := Wire.SymbolText(q.symbol);
        if q.quantity >= QUANTITY_RANGE || s == "" then Step(x, Reply(socket, q.id, Accepted, false), None)
        else AdmitNewOrder(x, socket, s, Replays.OrderOf(q), h, body)
  }

  function AdmitNewOrder(x: Exchange, socket: int, s: Symbol, o: Order, h: Wire.Header, body: seq<Byte>): Step {
    var inst := InstrumentOf(x, s);
    var known := x.(instruments := x.instruments[s := inst]);
    var client := ClientOn(x, socket);
    if o.id in inst.book.ById() || o.id in inst.owners
       || CheckNew(x.risk, RiskRequest(client, s, o, inst.book)) != Accept then
      Step(known, Reply(socket, o.id, Accepted, false), None)
    else
      var (x', effects) := Complete(Journaled(known, h, body), s, Owner(socket, client), o.id, Process(inst.book, o), None);
      Step(x', Reply(socket, o.id, Accepted, true), Some(effects))
  }

  // Only the owner, on the same connection and session, may touch a resting order.
  predicate MayTouch(x: Exchange, s: Symbol, id: OrderId, sender: Owner) {
    && s in x.instruments
    && id in x.instruments[s].owners && x.instruments[s].owners[id] == sender
    && id in x.instruments[s].book.ById()
  }

  function CancelOrder(x: Exchange, socket: int, h: Wire.Header, body: seq<Byte>): Step {
    if h.bodySize != Wire.CANCEL_ORDER_BODY_SIZE then Step(x, Reply(socket, 0, Cancelled, false), None)
    else
      match Wire.DecodeCancelOrder(body)
      case None => Step(x, Reply(socket, 0, Cancelled, false), None)
      case Some(q) =>
        var s := Wire.SymbolText(q.symbol);
        var sender := Owner(socket, ClientOn(x, socket));
        if !MayTouch(x, s, q.id, sender) then Step(x, Reply(socket, q.id, Cancelled, false), None)
        else
          var inst := x.instruments[s];
          var book := Cancel(inst.book, q.id);
          var x' := Journaled(x, h, body).(
            instruments := x.instruments[s := Instrument(book, inst.owners - {q.id})],
            risk := OrderCancelled(x.risk, Key(sender.client, s, q.id)));
          Step(x', Reply(socket, q.id, Cancelled, true), Some(Effects(s, book, Some(q.id), [], {}, None)))
  }

  function ReplaceOrder(x: Exchange, socket: int, h: Wire.Header, body: seq<Byte>): Step {
    if h.bodySize != Wire.REPLACE_ORDER_BODY_SIZE then Step(x, Reply(socket, 0, Replaced, false), None)
    else
      match Wire.DecodeReplaceOrder(body)
      case None => Step(x, Reply(socket, 0, Replaced, false), None)
      case Some(q) =>
        var s := Wire.SymbolText(q.symbol);
        var sender := Owner(socket, ClientOn(x, socket));
        var key := Key(sender.client, s, q.id);
        if q.quantity >= QUANTITY_RANGE || !MayTouch(x, s, q.id, sender)
           || CheckReplace(x.risk, key, q.price, q.quantity) != Accept then
          Step(x, Reply(socket, q.id, Replaced, false), None)
        else
          var withdrawn := Journaled(x, h, body).(risk := OrderCancelled(x.risk, key));
          var r := Replace(x.instruments[s].book, q.id, q.price, q.quantity, q.timestamp);
          var (x', effects) := Complete(withdrawn, s, sender, q.id, r, Some(q.id));
          Step(x', Reply(socket, q.id, Replaced, true), Some(effects))
  }

  // ---- Execution reports ----------------------------------------------------------------------

  datatype Report = Report(socket: int, trade: Trade)

  function ReportTo(owner: Owner, t: Trade): seq<Report> {
    if owner.socket < 0 then [] else [Report(owner.socket, t)]
  }

  // Both sides of every trade hear of it, buyer first; nobody stands for a recovered order.
  function ReportsOf(deliveries: seq<Delivery>): seq<Report> {
    if deliveries == [] then []
    else
      var d := deliveries[0];
      ReportTo(d.buyer, d.trade) + ReportTo(d.seller, d.trade) + ReportsOf(deliveries[1..])
  }

  function ReportsFor(effects: Option<Effects>): seq<Report> {
    if effects.Some? then ReportsOf(effects.value.deliveries) else []
  }

  // ---- The market-data feed --------------------------------------------------------------------

  datatype FeedEvent =
    | BookUpdated(symbol: Symbol, bid: Option<(Price, Quantity)>, ask: Option<(Price, Quantity)>)
    | Added(symbol: Symbol, order: Order)
    | Executed(symbol: Symbol, trade: Trade)
    | Deleted(symbol: Symbol, id: OrderId)

  function Executions(s: Symbol, deliveries: seq<Delivery>): seq<FeedEvent> {
    if deliveries == [] then [] else [Executed(s, deliveries[0].trade)] + Executions(s, deliveries[1..])
  }

  function Deletions(s: Symbol, ids: seq<OrderId>): seq<FeedEvent> {
    if ids == [] then [] else [Deleted(s, ids[0])] + Deletions(s, ids[1..])
  }

  // The events of one command in emission order, for one order of the deletions.
  function Announcement(e: Effects, ids: seq<OrderId>): seq<FeedEvent> {
    [BookUpdated(e.symbol, TopOf(e.book.bids), TopOf(e.book.asks))]
    + (match e.withdrawn case Some(id) => [Deleted(e.symbol, id)] case None => [])
    + Executions(e.symbol, e.deliveries)
    + Deletions(e.symbol, ids)
    + (match e.added case Some(o) => [Added(e.symbol, o)] case None => [])
  }

  // The used-up orders are announced in whatever order a hash set lists them, each once.
  ghost predicate Lists(ids: seq<OrderId>, members: set<OrderId>) {
    && (forall id :: id in ids <==> id in members)
    && (forall i, j :: 0 <= i < j < |ids| ==> ids[i] != ids[j])
  }

  ghost predicate Announces(effects: Option<Effects>, events: seq<FeedEvent>) {
    match effects
    case None => events == []
    case Some(e) => exists ids :: Lists(ids, e.filled) && events == Announcement(e, ids)
  }
}
