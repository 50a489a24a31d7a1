/** Books, owners and risk mirror each other after every command, and every limit holds. */
module ExchangeLaws {
  import opened ExchangeTypes
  import opened PriceTime
  import opened SweepLaws
  import opened BookLaws
  import opened MatchingLaws
  import opened Risk
  import opened RiskLaws
  import opened LimitLaws
  import Wire
  import Journal
  import opened Exchanges

  function Lookup<K, V>(m: map<K, V>, k: K): Option<V> {
    if k in m then Some(m[k]) else None
  }

  // The working order the risk engine should have under a key: the resting order, if the key's
  // client is its (valid) owner.
  function Expected(owners: map<OrderId, Owner>, index: map<OrderId, Order>, k: Key): Option<Working> {
    if k.client != NO_CLIENT && k.id in index && k.id in owners && owners[k.id].client == k.client
    then Some(Working(index[k.id].side, index[k.id].price, index[k.id].remaining)) else None
  }

  ghost predicate MirrorsAt(working: map<Key, Working>, s: Symbol, owners: map<OrderId, Owner>, index: map<OrderId, Order>) {
    forall k: Key :: k.symbol == s ==> Lookup(working, k) == Expected(owners, index, k)
  }

  ghost predicate InstrumentOk(working: map<Key, Working>, s: Symbol, inst: Instrument) {
    && WellFormed(inst.book)
    && inst.owners.Keys <= inst.book.ById().Keys
    && MirrorsAt(working, s, inst.owners, inst.book.ById())
  }

  /**
   The agreement between the five structures: each book is well formed, owners own resting
   orders, the working orders are exactly the resting orders with a valid owner, the cached
   aggregates are their counts and sums, and every limit holds.
   */
  ghost predicate Agree(x: Exchange) {
    && (forall s :: InstrumentOk(x.risk.working, s, InstrumentOf(x, s)))
    && Sound(x.risk)
    && Modest(x.risk.limits) && WithinLimits(x.risk)
  }

  // ---- Settling the trades of one command ----------------------------------------------------

  ghost predicate SameElsewhere(before: map<Key, Working>, after: map<Key, Working>, s: Symbol) {
    forall k: Key :: k.symbol != s ==> Lookup(after, k) == Lookup(before, k)
  }

  lemma {:induction false} OneTradeMirrors(working: map<Key, Working>, s: Symbol, owners: map<OrderId, Owner>,
                                           index: map<OrderId, Order>, id: OrderId, quantity: Quantity)
    requires MirrorsAt(working, s, owners, index)
    requires id in index
    ensures var client := if id in owners then owners[id].client else NO_CLIENT;
      var working' := if client == NO_CLIENT then working else Shrink(working, Key(client, s, id), quantity);
      MirrorsAt(working', s, owners, Consume(index, id, quantity)) && SameElsewhere(working, working', s)
  {
    var client := if id in owners then owners[id].client else NO_CLIENT;
    var key := Key(client, s, id);
    var working' := if client == NO_CLIENT then working else Shrink(working, key, quantity);
    forall k: Key | k.symbol == s
      ensures Lookup(working', k) == Expected(owners, Consume(index, id, quantity), k)
    {
      assert Lookup(working, k) == Expected(owners, index, k);
    }
  }

  lemma {:induction false} SettlingKeeps(r: RiskState, s: Symbol, owners: map<OrderId, Owner>, index: map<OrderId, Order>,
                                         o: Order, sender: Owner, trades: seq<Trade>, pending: Quantity)
    requires Sound(r) && Modest(r.limits) && WithinLimits(r)
    requires o.id !in index && TradesFit(index, trades, o)
    requires Traded(trades) <= pending && Room(r, sender.client, s, o.side, pending)
    requires MirrorsAt(r.working, s, owners, index)
    ensures var r' := SettleTrades(r, s, DeliveriesOf(owners, o.id, sender, trades));
      && Sound(r') && WithinLimits(r') && SameSettings(r, r')
      && Room(r', sender.client, s, o.side, pending - Traded(trades))
      && MirrorsAt(r'.working, s, owners, ConsumeAll(index, trades, o.side))
      && SameElsewhere(r.working, r'.working, s)
      && (forall c :: Cached(r', Count(c)) <= Cached(r, Count(c)))
      && (forall c :: Cached(r', Gross(c)) <= Cached(r, Gross(c)))
    decreases |trades|
  {
    hide Sound, Modest, Room, TradeDone, WithinLimits, SameSettings;
    SameSettingsHere(r);
    if trades != [] {
      var t := trades[0];
      var id := RestingId(t, o.side);
      var d := DeliveryOf(owners, o.id, sender, t);
      var incoming := Key(sender.client, s, o.id);
      var resting := Key(OwnerOf(owners, id, o.id, sender).client, s, id);
      assert Lookup(r.working, incoming) == Expected(owners, index, incoming);
      assert Lookup(r.working, resting) == Expected(owners, index, resting);
      TradeKeepsLimits(r, s, incoming, resting, o.side, t, pending);
      OneTradeMirrors(r.working, s, owners, index, id, t.quantity);
      var r1 := TradeDone(r, s, d.buyer.client, d.seller.client, t);
      ComposeSettings(r, r1, r1);
      var index1 := Consume(index, id, t.quantity);
      SettlingKeeps(r1, s, owners, index1, o, sender, trades[1..], pending - t.quantity);
      var ds := DeliveriesOf(owners, o.id, sender, trades);
      assert ds[1..] == DeliveriesOf(owners, o.id, sender, trades[1..]);
      var r' := SettleTrades(r1, s, ds[1..]);
      ComposeElsewhere(r.working, r1.working, r'.working, s);
      ComposeLower(r, r1, r');
      ComposeSettings(r, r1, r');
    }
  }

  lemma ComposeElsewhere(a: map<Key, Working>, b: map<Key, Working>, c: map<Key, Working>, s: Symbol)
    requires SameElsewhere(a, b, s) && SameElsewhere(b, c, s)
    ensures SameElsewhere(a, c, s)
  {
    forall k: Key | k.symbol != s ensures Lookup(c, k) == Lookup(a, k) {
      assert Lookup(c, k) == Lookup(b, k) == Lookup(a, k);
    }
  }

  lemma ComposeLower(a: RiskState, b: RiskState, c: RiskState)
    requires forall k :: Cached(b, Count(k)) <= Cached(a, Count(k))
    requires forall k :: Cached(c, Count(k)) <= Cached(b, Count(k))
    requires forall k :: Cached(b, Gross(k)) <= Cached(a, Gross(k))
    requires forall k :: Cached(c, Gross(k)) <= Cached(b, Gross(k))
    ensures forall k :: Cached(c, Count(k)) <= Cached(a, Count(k))
    ensures forall k :: Cached(c, Gross(k)) <= Cached(a, Gross(k))
  {
    forall k
      ensures Cached(c, Count(k)) <= Cached(a, Count(k)) && Cached(c, Gross(k)) <= Cached(a, Gross(k))
    {
      assert Cached(c, Count(k)) <= Cached(b, Count(k)) && Cached(c, Gross(k)) <= Cached(b, Gross(k));
    }
  }

  // ---- Owners after the trades ----------------------------------------------------------------

  // An order that traded away is among the filled ones.
  lemma {:induction false} ConsumedIsFilled(index: map<OrderId, Order>, trades: seq<Trade>, o: Order, after: map<OrderId, Order>, id: OrderId)
    requires id in index && id !in ConsumeAll(index, trades, o.side)
    requires id != o.id && id !in after
    ensures id in FilledBy(trades, o.id, after)
    decreases |trades|
  {
    if trades != [] && RestingId(trades[0], o.side) != id {
      ConsumedIsFilled(Consume(index, RestingId(trades[0], o.side), trades[0].quantity), trades[1..], o, after, id);
    }
  }

  lemma {:induction false} FilledIsGone(trades: seq<Trade>, incoming: OrderId, after: map<OrderId, Order>)
    ensures forall id :: id in FilledBy(trades, incoming, after) ==> id != incoming && id !in after
  {
    if trades != [] {
      FilledIsGone(trades[1..], incoming, after);
    }
  }

  // ---- One command ------------------------------------------------------------------------------

  // The parts of the state that completing a command leaves.
  lemma CompleteParts(x: Exchange, s: Symbol, sender: Owner, id: OrderId, r: Result, withdrawn: Option<OrderId>)
    ensures var (x', e) := Complete(x, s, sender, id, r, withdrawn);
      var owners := InstrumentOf(x, s).owners;
      var after := r.book.ById();
      var filled := FilledBy(r.trades, id, after);
      var risk := SettleTrades(x.risk, s, DeliveriesOf(owners, id, sender, r.trades));
      && x'.instruments == x.instruments[s := InstrumentOf(x', s)]
      && x'.sessions == x.sessions && x'.nextClient == x.nextClient && x'.journal == x.journal
      && e == Effects(s, r.book, withdrawn, DeliveriesOf(owners, id, sender, r.trades), filled,
                      if id in after then Some(after[id]) else None)
      && InstrumentOf(x', s).book == r.book
      && InstrumentOf(x', s).owners == (if id in after then (owners - filled)[id := sender] else owners - filled - {id})
      && x'.risk == if id in after then OrderResting(risk, Key(sender.client, s, id), AsWorking(after[id])) else risk
  {
    hide FilledBy, SettleTrades, DeliveriesOf, OrderResting, Book.ById;
  }

  /**
   Matching an admitted order and completing the command, for a new order and for the second half
   of a replacement: the order itself is in neither the book nor the working orders.
   */
  lemma {:induction false} CompleteKeeps(x: Exchange, s: Symbol, sender: Owner, b: Book, o: Order, withdrawn: Option<OrderId>)
    requires Sound(x.risk) && Modest(x.risk.limits) && WithinLimits(x.risk)
    requires WellFormed(b) && o.id !in b.ById() && o.remaining > 0
    requires InstrumentOf(x, s).owners.Keys <= b.ById().Keys + {o.id}
    requires MirrorsAt(x.risk.working, s, InstrumentOf(x, s).owners, b.ById())
    requires Room(x.risk, sender.client, s, o.side, o.remaining)
    requires MayRest(o) && sender.client != NO_CLIENT ==> RoomToRest(x.risk, sender.client, o.remaining)
    ensures var x' := Complete(x, s, sender, o.id, Process(b, o), withdrawn).0;
      && Sound(x'.risk) && WithinLimits(x'.risk) && SameSettings(x.risk, x'.risk)
      && InstrumentOk(x'.risk.working, s, InstrumentOf(x', s))
      && SameElsewhere(x.risk.working, x'.risk.working, s)
      && x'.instruments == x.instruments[s := InstrumentOf(x', s)]
  {
    hide Sound, Modest, WithinLimits, Process, Room, MirrorsAt, SettleTrades, OrderResting, FilledBy, DeliveriesOf, Complete, Consume, ConsumeAll, Book.ById;
    var owners := InstrumentOf(x, s).owners;
    var r := Process(b, o);
    var consumed := ConsumeAll(b.ById(), r.trades, o.side);
    var after := r.book.ById();
    var risk := SettleTrades(x.risk, s, DeliveriesOf(owners, o.id, sender, r.trades));
    ProcessOnIndex(b, o);
    ProcessKeepsWellFormed(b, o);
    ProcessConserves(b, o);
    SettlingKeeps(x.risk, s, owners, b.ById(), o, sender, r.trades, o.remaining);
    RemainderIsWhatIsLeft(b, o);
    RestKeepsMirror(x.risk, risk, s, sender, o.(remaining := o.remaining - Traded(r.trades)), owners, consumed, after);
    OwnersFollow(b, o, sender, owners);
    FilledIsGone(r.trades, o.id, after);
    CompleteParts(x, s, sender, o.id, r, withdrawn);
    var x' := Complete(x, s, sender, o.id, r, withdrawn).0;
    OwnersMirror(x'.risk.working, s, sender, o.id, owners, FilledBy(r.trades, o.id, after), after);
    ComposeElsewhere(x.risk.working, risk.working, x'.risk.working, s);
  }

  // The working order the sender should have for the order it just sent.
  function ExpectedOwn(sender: Owner, id: OrderId, after: map<OrderId, Order>, k: Key): Option<Working> {
    if id in after && k.client == sender.client && k.client != NO_CLIENT then Some(Working(after[id].side, after[id].price, after[id].remaining)) else None
  }

  ghost predicate MirrorsWithOwn(working: map<Key, Working>, s: Symbol, sender: Owner, id: OrderId,
                                 owners: map<OrderId, Owner>, after: map<OrderId, Order>)
  {
    forall k: Key :: k.symbol == s ==>
      Lookup(working, k) == (if k.id == id then ExpectedOwn(sender, id, after, k) else Expected(owners, after, k))
  }

  // The remainder, if it rests, starts working; otherwise nothing more happens to the risk state.
  lemma {:induction false} RestKeepsMirror(before: RiskState, risk: RiskState, s: Symbol, sender: Owner, left: Order,
                                           owners: map<OrderId, Owner>, consumed: map<OrderId, Order>, after: map<OrderId, Order>)
    requires Sound(risk) && Modest(risk.limits) && WithinLimits(risk) && SameSettings(before, risk)
    requires left.id !in consumed
    requires after == if left.id in after then consumed[left.id := left] else consumed
    requires left.id in after ==> left.remaining > 0
    requires Room(risk, sender.client, s, left.side, left.remaining)
    requires MirrorsAt(risk.working, s, owners, consumed)
    requires left.id in after && sender.client != NO_CLIENT ==> RoomToRest(before, sender.client, left.remaining)
    requires Cached(risk, Count(sender.client)) <= Cached(before, Count(sender.client))
    requires Cached(risk, Gross(sender.client)) <= Cached(before, Gross(sender.client))
    ensures var key := Key(sender.client, s, left.id);
      var risk' := if left.id in after then OrderResting(risk, key, AsWorking(left)) else risk;
      && Sound(risk') && WithinLimits(risk') && SameSettings(risk, risk')
      && SameElsewhere(risk.working, risk'.working, s)
      && MirrorsWithOwn(risk'.working, s, sender, left.id, owners, after)
  {
    hide Sound, WithinLimits, Modest, Room, OrderResting;
    var key := Key(sender.client, s, left.id);
    assert Lookup(risk.working, key) == Expected(owners, consumed, key);
    if left.id in after {
      RestingKeepsLimits(risk, key, AsWorking(left));
    }
    var risk' := if left.id in after then OrderResting(risk, key, AsWorking(left)) else risk;
    forall k: Key | k.symbol == s
      ensures Lookup(risk'.working, k) ==
        (if k.id == left.id then ExpectedOwn(sender, left.id, after, k) else Expected(owners, after, k))
    {
      assert Lookup(risk.working, k) == Expected(owners, consumed, k);
    }
  }

  lemma {:induction false} RemainderIsWhatIsLeft(b: Book, o: Order)
    requires Coherent(b) && o.id !in b.ById() && o.remaining > 0
    ensures var r := Process(b, o);
      var consumed := ConsumeAll(b.ById(), r.trades, o.side);
      && o.id !in consumed
      && Traded(r.trades) <= o.remaining
      && (if o.id in r.book.ById()
          then MayRest(o) && Traded(r.trades) < o.remaining
               && r.book.ById() == consumed[o.id := o.(remaining := o.remaining - Traded(r.trades))]
          else r.book.ById() == consumed)
  {
    hide Available, Sweep, SideOk, Insert, ConsumeAll, TradesFit, Traded, Index;
    ProcessOnIndex(b, o);
    ProcessConserves(b, o);
    var queue := b.Queue(o.side.Opposite());
    ConsumeAllShrinks(b.ById(), Process(b, o).trades, o.side);
    if MayRest(o) {
      SweepConserves(o, queue);
    }
  }

  lemma {:induction false} OwnersFollow(b: Book, o: Order, sender: Owner, owners: map<OrderId, Owner>)
    requires Coherent(b) && o.id !in b.ById()
    requires owners.Keys <= b.ById().Keys + {o.id}
    ensures var r := Process(b, o);
      var after := r.book.ById();
      (owners - FilledBy(r.trades, o.id, after) - {o.id}).Keys <= after.Keys
  {
    var r := Process(b, o);
    var after := r.book.ById();
    ProcessOnIndex(b, o);
    forall id | id in owners && id !in FilledBy(r.trades, o.id, after) && id != o.id
      ensures id in after
    {
      if id !in after {
        ConsumedIsFilled(b.ById(), r.trades, o, after, id);
        assert false;
      }
    }
  }

  lemma {:induction false} OwnersMirror(working: map<Key, Working>, s: Symbol, sender: Owner, id: OrderId,
                                        owners: map<OrderId, Owner>, filled: set<OrderId>, after: map<OrderId, Order>)
    requires forall f :: f in filled ==> f != id && f !in after
    requires MirrorsWithOwn(working, s, sender, id, owners, after)
    ensures MirrorsAt(working, s, if id in after then (owners - filled)[id := sender] else owners - filled - {id}, after)
  {
    var owners' := if id in after then (owners - filled)[id := sender] else owners - filled - {id};
    forall k: Key | k.symbol == s
      ensures Lookup(working, k) == Expected(owners', after, k)
    {
      assert Lookup(working, k) == (if k.id == id then ExpectedOwn(sender, id, after, k) else Expected(owners, after, k));
    }
  }

  // ---- Replies and reports ------------------------------------------------------------------------

  // Books, owners, risk, sessions and journal are as they were.
  ghost predicate Untouched(x: Exchange, x': Exchange) {
    x' == x.(instruments := x'.instruments) && forall s :: InstrumentOf(x', s) == InstrumentOf(x, s)
  }

  // The order a command names: none that can be told from a body of the wrong size or of no meaning.
  function NewOrderId(h: Wire.Header, body: seq<Wire.Byte>): OrderId {
    match Wire.DecodeNewOrder(body) case Some(q) => (if h.bodySize == 43 then q.id else 0) case None => 0
  }

  function CancelId(h: Wire.Header, body: seq<Wire.Byte>): OrderId {
    match Wire.DecodeCancelOrder(body) case Some(q) => (if h.bodySize == 24 then q.id else 0) case None => 0
  }

  function ReplaceId(h: Wire.Header, body: seq<Wire.Byte>): OrderId {
    match Wire.DecodeReplaceOrder(body) case Some(q) => (if h.bodySize == 40 then q.id else 0) case None => 0
  }

  // It answers the sender about the order named. A command that was carried out is on record; one that
  // was not has touched nothing.
  ghost predicate TrueReply(x: Exchange, step: Step, socket: int, h: Wire.Header, body: seq<Wire.Byte>, kind: ReplyKind, id: OrderId) {
    && step.reply == Reply(socket, id, kind, step.reply.success)
    && (if step.reply.success
        then step.state.journal == Journaled(x, h, body).journal && step.effects.Some?
        else Untouched(x, step.state) && step.effects.None?)
  }

  // With a journal, it grows exactly when the reply is a success.
  predicate JournalTells(x: Exchange, step: Step) {
    x.journal.Some? ==>
      && step.state.journal.Some?
      && (step.reply.success <==> |step.state.journal.value| > |x.journal.value|)
  }

  lemma TrueReplyShows(x: Exchange, step: Step, socket: int, h: Wire.Header, body: seq<Wire.Byte>, kind: ReplyKind, id: OrderId)
    requires TrueReply(x, step, socket, h, body, kind, id)
    ensures JournalTells(x, step)
  {
    var message := Wire.EncodeHeader(h) + body;
    Wire.LittleEndianWidth(|message|, Journal.LENGTH_SIZE);
  }

  /**
   A reply goes to the sender, names the order and tells what happened: success means the command was written to the
   journal and took effect, failure that books, owners, risk and journal are as they were.
   */
  lemma {:induction false} RepliesTellTheOutcome(x: Exchange, socket: int, h: Wire.Header, body: seq<Wire.Byte>)
    ensures var step := NewOrder(x, socket, h, body);
      TrueReply(x, step, socket, h, body, Accepted, NewOrderId(h, body)) && JournalTells(x, step)
    ensures var step := CancelOrder(x, socket, h, body);
      TrueReply(x, step, socket, h, body, Cancelled, CancelId(h, body)) && JournalTells(x, step)
    ensures var step := ReplaceOrder(x, socket, h, body);
      TrueReply(x, step, socket, h, body, Replaced, ReplaceId(h, body)) && JournalTells(x, step)
  {
    hide JournalTells;
    NewOrderReply(x, socket, h, body);
    CancelReply(x, socket, h, body);
    ReplaceReply(x, socket, h, body);
    hide TrueReply;
    TrueReplyShows(x, NewOrder(x, socket, h, body), socket, h, body, Accepted, NewOrderId(h, body));
    TrueReplyShows(x, CancelOrder(x, socket, h, body), socket, h, body, Cancelled, CancelId(h, body));
    TrueReplyShows(x, ReplaceOrder(x, socket, h, body), socket, h, body, Replaced, ReplaceId(h, body));
  }

  lemma {:induction false} NewOrderReply(x: Exchange, socket: int, h: Wire.Header, body: seq<Wire.Byte>)
    ensures TrueReply(x, NewOrder(x, socket, h, body), socket, h, body, Accepted, NewOrderId(h, body))
  {
    hide CheckNew, Process, Book.ById, Wire.DecodeNewOrder, ReferencePrice, SettleTrades, DeliveriesOf, FilledBy, OrderResting;
  }

  lemma {:induction false} CancelReply(x: Exchange, socket: int, h: Wire.Header, body: seq<Wire.Byte>)
    ensures TrueReply(x, CancelOrder(x, socket, h, body), socket, h, body, Cancelled, CancelId(h, body))
  {
    hide MayTouch, Cancel, Wire.DecodeCancelOrder, OrderCancelled;
  }

  lemma {:induction false} ReplaceReply(x: Exchange, socket: int, h: Wire.Header, body: seq<Wire.Byte>)
    ensures TrueReply(x, ReplaceOrder(x, socket, h, body), socket, h, body, Replaced, ReplaceId(h, body))
  {
    hide CheckReplace, Replace, Book.ById, Wire.DecodeReplaceOrder, OrderCancelled, SettleTrades, DeliveriesOf, FilledBy, OrderResting;
  }

  // How often a connection is told of trades.
  function Told(reports: seq<Report>, socket: int): nat {
    if reports == [] then 0 else (if reports[0].socket == socket then 1 else 0) + Told(reports[1..], socket)
  }

  // How many sides of the trades a connection owns.
  function Sides(deliveries: seq<Delivery>, socket: int): nat {
    if deliveries == [] then 0
    else
      (if deliveries[0].buyer.socket == socket then 1 else 0) + (if deliveries[0].seller.socket == socket then 1 else 0)
      + Sides(deliveries[1..], socket)
  }

  lemma {:induction false} ToldConcat(xs: seq<Report>, ys: seq<Report>, socket: int)
    ensures Told(xs + ys, socket) == Told(xs, socket) + Told(ys, socket)
  {
    if xs == [] {
      assert xs + ys == ys;
    } else {
      assert (xs + ys)[1..] == xs[1..] + ys;
      ToldConcat(xs[1..], ys, socket);
    }
  }

  /** Every connection hears once of each side it owns, and nobody else hears anything. */
  lemma {:induction false} EverySideIsTold(deliveries: seq<Delivery>, socket: int)
    ensures Told(ReportsOf(deliveries), socket) == if socket < 0 then 0 else Sides(deliveries, socket)
  {
    if deliveries != [] {
      var d := deliveries[0];
      var bought, sold := ReportTo(d.buyer, d.trade), ReportTo(d.seller, d.trade);
      EverySideIsTold(deliveries[1..], socket);
      ToldConcat(bought + sold, ReportsOf(deliveries[1..]), socket);
      ToldConcat(bought, sold, socket);
      TellOne(d.buyer, d.trade, socket);
      TellOne(d.seller, d.trade, socket);
    }
  }

  lemma TellOne(owner: Owner, t: Trade, socket: int)
    ensures Told(ReportTo(owner, t), socket) == if owner.socket >= 0 && owner.socket == socket then 1 else 0
  {
    assert ReportTo(owner, t) != [] ==> ReportTo(owner, t)[1..] == [];
  }

  /** A connection that owns both sides of a trade is sent two copies, one straight after the other. */
  lemma {:induction false} SelfTradeIsSentTwice(deliveries: seq<Delivery>, i: nat) returns (k: nat)
    requires i < |deliveries| && deliveries[i].buyer.socket == deliveries[i].seller.socket >= 0
    ensures k + 1 < |ReportsOf(deliveries)|
    ensures ReportsOf(deliveries)[k] == ReportsOf(deliveries)[k + 1] == Report(deliveries[i].buyer.socket, deliveries[i].trade)
  {
    var d := deliveries[0];
    if i == 0 {
      k := 0;
    } else {
      var later := SelfTradeIsSentTwice(deliveries[1..], i - 1);
      var first := ReportTo(d.buyer, d.trade) + ReportTo(d.seller, d.trade);
      assert ReportsOf(deliveries) == first + ReportsOf(deliveries[1..]);
      k := |first| + later;
    }
  }
}
