/**
 The server's engine state and its three command handlers. Each handler runs as one step, the
 engine and journal locks being held throughout, and is proved to take the step of Exchanges.
 */
module ExchangeServers {
  import opened ExchangeTypes
  import opened PriceTime
  import opened BookTables
  import opened MatchingEngines
  import opened Risk
  import opened RiskEngines
  import opened Exchanges
  import opened ExchangeLaws
  import opened RunLaws
  import opened FeedLaws
  import opened RoomLaws
  import RecoveryLaws
  import BookLaws
  import Framing
  import Wire
  import WireLaws
  import Codec
  import Journal
  import Replays
  import opened Replayers

  type Byte = Wire.Byte

  // Books and owners, instrument by instrument.
  ghost predicate Pictures(instruments: map<Symbol, Instrument>, flat: map<Symbol, Book>, owners: map<Symbol, map<OrderId, Owner>>) {
    && instruments.Keys == flat.Keys == owners.Keys
    && forall s :: s in instruments ==> instruments[s] == Instrument(flat[s], owners[s])
  }

  lemma PictureAgain(instruments: map<Symbol, Instrument>, flat: map<Symbol, Book>, owners: map<Symbol, map<OrderId, Owner>>,
                     s: Symbol, mine: map<OrderId, Owner>)
    requires s in flat && s in owners && Pictures(instruments[s := Instrument(flat[s], owners[s])], flat, owners)
    ensures Pictures(instruments[s := Instrument(flat[s], mine)], flat, owners[s := mine])
  {
  }

  lemma PictureAhead(instruments: map<Symbol, Instrument>, flat: map<Symbol, Book>, owners: map<Symbol, map<OrderId, Owner>>,
                     s: Symbol, b: Book)
    requires Pictures(instruments, flat, owners) && s in flat
    ensures s in owners && Pictures(instruments[s := Instrument(b, owners[s])], flat[s := b], owners)
  {
  }

  // A symbol asked for the first time gets an empty book without owners.
  lemma PictureOpened(instruments: map<Symbol, Instrument>, flat: map<Symbol, Book>, owners: map<Symbol, map<OrderId, Owner>>, s: Symbol)
    requires Pictures(instruments, flat, owners)
    ensures Pictures(instruments[s := if s in instruments then instruments[s] else NEW_INSTRUMENT],
                     flat[s := Replays.BookOf(flat, s)], if s in owners then owners else owners[s := map[]])
  {
  }

  lemma CompleteEffects(x: Exchange, s: Symbol, sender: Owner, id: OrderId, r: Result, withdrawn: Option<OrderId>)
    ensures var e := Complete(x, s, sender, id, r, withdrawn).1;
      e == Effects(s, r.book, withdrawn, e.deliveries, e.filled, e.added)
  {
  }

  function Inputs(socket: int, messages: seq<Framing.Message>): seq<Input> {
    if messages == [] then []
    else [Received(socket, messages[0].header, messages[0].body)] + Inputs(socket, messages[1..])
  }

  lemma {:induction false} RunMore(x: Exchange, inputs: seq<Input>, input: Input)
    ensures RunLaws.Run(x, inputs + [input]) == React(RunLaws.Run(x, inputs), input).0
    decreases |inputs|
  {
    hide React;
    if inputs == [] {
      assert (inputs + [input])[1..] == [];
    } else {
      assert (inputs + [input])[1..] == inputs[1..] + [input];
      RunMore(React(x, inputs[0]).0, inputs[1..], input);
    }
  }

  lemma {:induction false} BroadcastMore(x: Exchange, inputs: seq<Input>, events: seq<FeedEvent>, input: Input, more: seq<FeedEvent>)
    requires Broadcast(x, inputs, events) && Announces(React(RunLaws.Run(x, inputs), input).1, more)
    ensures Broadcast(x, inputs + [input], events + more)
    decreases |inputs|
  {
    hide React, Announces;
    if inputs == [] {
      assert events + more == more && more[..|more|] == more;
      assert (inputs + [input])[1..] == [];
      assert Broadcast(React(x, input).0, [], more[|more|..]);
    } else {
      var k :| 0 <= k <= |events|
        && Announces(React(x, inputs[0]).1, events[..k])
        && Broadcast(React(x, inputs[0]).0, inputs[1..], events[k..]);
      BroadcastMore(React(x, inputs[0]).0, inputs[1..], events[k..], input, more);
      assert (inputs + [input])[1..] == inputs[1..] + [input];
      assert (events + more)[..k] == events[..k] && (events + more)[k..] == events[k..] + more;
    }
  }

  // Each of the three commands is answered, anything else is not.
  function Answers(x: Exchange, socket: int, h: Wire.Header, body: seq<Byte>): seq<Reply> {
    if h.kind == Wire.NEW_ORDER then [NewOrder(x, socket, h, body).reply]
    else if h.kind == Wire.CANCEL_ORDER then [CancelOrder(x, socket, h, body).reply]
    else if h.kind == Wire.REPLACE_ORDER then [ReplaceOrder(x, socket, h, body).reply]
    else []
  }

  // What an input makes the server send to the connections: replies, and reports of executions.
  datatype Mail = Mail(replies: seq<Reply>, reports: seq<Report>)

  function Sends(x: Exchange, input: Input): Mail {
    match input
    case Received(socket, h, body) => Mail(Answers(x, socket, h, body), ReportsFor(React(x, input).1))
    case _ => Mail([], [])
  }

  function Then(first: Mail, second: Mail): Mail {
    Mail(first.replies + second.replies, first.reports + second.reports)
  }

  // All of it along a run, in order.
  function SentDuring(x: Exchange, inputs: seq<Input>): Mail
    decreases |inputs|
  {
    if inputs == [] then Mail([], []) else Then(Sends(x, inputs[0]), SentDuring(React(x, inputs[0]).0, inputs[1..]))
  }

  lemma {:induction false} SentMore(x: Exchange, inputs: seq<Input>, input: Input)
    ensures SentDuring(x, inputs + [input]) == Then(SentDuring(x, inputs), Sends(RunLaws.Run(x, inputs), input))
    decreases |inputs|
  {
    hide React, Sends;
    if inputs == [] {
      assert (inputs + [input])[1..] == [];
    } else {
      assert (inputs + [input])[1..] == inputs[1..] + [input];
      SentMore(React(x, inputs[0]).0, inputs[1..], input);
    }
  }

  lemma ThenNothing(first: Mail)
    ensures Then(first, Mail([], [])) == first
  {
  }

  lemma ThenTwice(first: Mail, second: Mail, third: Mail)
    ensures Then(Then(first, second), third) == Then(first, Then(second, third))
  {
  }

  // ---- Messages as the framing hands them over ----------------------------------------------------

  lemma {:induction false} InputsAt(socket: int, messages: seq<Framing.Message>, i: nat)
    requires i < |messages|
    ensures |Inputs(socket, messages)| == |messages|
    ensures Inputs(socket, messages)[i] == Received(socket, messages[i].header, messages[i].body)
  {
    if i > 0 {
      InputsAt(socket, messages[1..], i - 1);
    } else if |messages| > 1 {
      InputsAt(socket, messages[1..], 0);
    }
  }

  predicate AllFramed(inputs: seq<Input>) {
    forall i :: 0 <= i < |inputs| ==> RecoveryLaws.Framed(inputs[i])
  }

  /** Whatever the receive buffer holds, each message taken from it has the header and body replay relies on. */
  lemma {:induction false} InputsAreFramed(socket: int, received: seq<Byte>)
    ensures AllFramed(Inputs(socket, Framing.Drain(received).messages))
  {
    hide Framing.Drain, Inputs;
    var messages := Framing.Drain(received).messages;
    var inputs := Inputs(socket, messages);
    Framing.DrainedIsSendable(received);
    InputsLength(socket, messages);
    forall i | 0 <= i < |inputs|
      ensures RecoveryLaws.Framed(inputs[i])
    {
      InputsAt(socket, messages, i);
    }
  }

  lemma {:induction false} InputsLength(socket: int, messages: seq<Framing.Message>)
    ensures |Inputs(socket, messages)| == |messages|
  {
    if messages != [] {
      InputsLength(socket, messages[1..]);
    }
  }

  /** So whatever bytes arrive on a connection, the journal goes on replaying to exactly the live books. */
  lemma {:induction false} BytesKeepRecoverable(x: Exchange, socket: int, received: seq<Byte>)
    requires Agree(x) && RecoveryLaws.Recoverable(x)
    ensures var x' := RunLaws.Run(x, Inputs(socket, Framing.Drain(received).messages));
      Agree(x') && RecoveryLaws.Recoverable(x')
  {
    hide Agree, RecoveryLaws.Recoverable, RunLaws.Run, Inputs, Framing.Drain;
    InputsAreFramed(socket, received);
    RecoveryLaws.RunIsRecoverable(x, Inputs(socket, Framing.Drain(received).messages));
  }

  // Recovered orders have no owners.
  function Unowned(symbols: set<Symbol>): map<Symbol, map<OrderId, Owner>> {
    map s | s in symbols :: map[]
  }

  lemma NobodyOwns(flat: map<Symbol, Book>, limits: Limits)
    ensures forall journal ::
      Started(flat, limits, journal) ==
      Exchange(Started(flat, limits, None).instruments, RiskState(limits, false, map[], map[]), map[], 1, journal)
    ensures Pictures(Started(flat, limits, None).instruments, flat, Unowned(flat.Keys))
  {
  }

  class ExchangeServer {
    const engine: MatchingEngine
    const riskEngine: RiskEngine
    const table: BookTable
    const journal: Journal.ExchangeJournal?   // null when no journal is configured
    var owners: map<Symbol, map<OrderId, Owner>>
    var sessions: map<int, ClientId>
    var nextClient: ClientId
    ghost var instruments: map<Symbol, Instrument>

    // Everything sent so far, oldest first.
    var replies: seq<Reply>
    var reports: seq<Report>
    var feed: seq<FeedEvent>

    ghost function Repr(): set<object>
      reads this, table
    {
      {this, riskEngine, table} + table.own + (if journal == null then {} else {journal})
    }

    // The server's own objects are not part of any book.
    ghost predicate Separate()
      reads this, table
    {
      this !in table.own && riskEngine !in table.own && table !in table.own && (journal == null || journal !in table.own)
    }

    ghost predicate Valid()
      reads Repr()
    {
      Separate() && table.Valid() && Pictures(instruments, table.flat, owners)
    }

    ghost function File(): Option<seq<Byte>>
      reads if journal == null then {} else {journal}
    {
      if journal == null then None else Some(journal.output)
    }

    // The state the laws are about.
    ghost function State(): Exchange
      reads Repr()
    {
      Exchange(instruments, riskEngine.State(), sessions, nextClient, File())
    }

    // A server as started, on the books recovered from its journal (an empty table if none).
    constructor (limits: Limits, recovered: BookTable, journal: Journal.ExchangeJournal?)
      requires recovered.Valid() && (journal == null || journal !in recovered.own)
      ensures Valid() && table == recovered && this.journal == journal
      ensures fresh(Repr() - {recovered} - recovered.own - if journal == null then {} else {journal})
      ensures State() == Started(recovered.flat, limits, File())
      ensures replies == [] && reports == [] && feed == []
    {
      engine := new MatchingEngine();
      riskEngine := new RiskEngine(limits);
      table := recovered;
      this.journal := journal;
      owners := Unowned(recovered.books.Keys);
      sessions, nextClient := map[], 1;
      instruments := Started(recovered.flat, limits, None).instruments;
      NobodyOwns(recovered.flat, limits);
      replies, reports, feed := [], [], [];
      recovered.Keys();
      hide BookTable.Valid, Kept, Pictures, Started, Unowned, Separate;
      new;
      StandsApart();
    }

    lemma StandsApart()
      requires this !in table.own && riskEngine !in table.own && table !in table.own && (journal == null || journal !in table.own)
      ensures Separate()
    {
    }

    // ---- Sessions -------------------------------------------------------------------------------

    method RegisterClient(socket: int) returns (client: ClientId)
      requires Valid()
      modifies this`sessions, this`nextClient
      ensures Valid() && State() == Connect(old(State()), socket) && client == ClientOn(State(), socket)
    {
      hide BookTable.Valid, Pictures;
      client := nextClient;
      nextClient := nextClient + 1;
      sessions := sessions[socket := client];
    }

    method UnregisterClient(socket: int)
      requires Valid()
      modifies this`sessions
      ensures Valid() && State() == Disconnect(old(State()), socket)
    {
      hide BookTable.Valid, Pictures;
      sessions := sessions - {socket};
    }

    method SetGlobalKillSwitch(enabled: bool)
      requires Valid()
      modifies riskEngine
      ensures Valid() && State() == Exchanges.SetGlobalKillSwitch(old(State()), enabled)
    {
      riskEngine.SetGlobalKillSwitch(enabled);
    }

    method RiskClientIdForSocket(socket: int) returns (client: ClientId)
      ensures client == ClientOn(State(), socket)
    {
      client := if socket in sessions then sessions[socket] else NO_CLIENT;
    }

    // ---- Parts of the handlers --------------------------------------------------------------------

    method SendOrderResponse(socket: int, id: OrderId, kind: ReplyKind, success: bool)
      modifies this`replies
      ensures replies == old(replies) + [Reply(socket, id, kind, success)]
    {
      replies := replies + [Reply(socket, id, kind, success)];
    }

    method InstrumentFor(s: Symbol)
      requires Valid()
      modifies this`owners, this`instruments, table
      ensures Valid() && fresh(table.own - old(table.own)) && s in instruments
      ensures instruments == old(instruments)[s := InstrumentOf(old(State()), s)]
    {
      hide BookTable.Valid, Pictures, Replays.BookOf;
      PictureOpened(instruments, table.flat, owners, s);
      ghost var inst := InstrumentOf(State(), s);
      table.Open(s);
      if s !in owners {
        owners := owners[s := map[]];
      }
      instruments := instruments[s := inst];
    }

    method AppendJournalRecord(h: Wire.Header, body: seq<Byte>)
      requires Valid() && Wire.HEADER_SIZE + |body| < QUANTITY_RANGE
      modifies if journal == null then {} else {journal}
      ensures Valid() && State() == Journaled(old(State()), h, body)
    {
      hide BookTable.Valid;
      if journal == null {
        return;
      }
      WireLaws.HeaderWidth(h);
      var encodedHeader := Codec.EncodeHeader(h);
      var _ := journal.Append(encodedHeader[..] + body);
    }

    // The id if it names a resting order that this matching used up.
    method IfGone(s: Symbol, id: OrderId, incoming: OrderId) returns (gone: set<OrderId>)
      requires table.Valid() && s in table.flat
      ensures gone == Gone(id, incoming, table.flat[s].ById())
    {
      var found := table.FindOrder(s, id);
      gone := if id != incoming && found.None? then {id} else {};
    }

    // Trade by trade: who is to hear of it, the risk engine, and which orders it used up.
    method SettleTrades(s: Symbol, sender: Owner, incoming: OrderId, trades: seq<Trade>)
      returns (deliveries: seq<Delivery>, filled: set<OrderId>)
      requires Separate() && table.Valid() && s in table.flat && s in owners
      modifies riskEngine
      ensures deliveries == DeliveriesOf(owners[s], incoming, sender, trades)
      ensures filled == FilledBy(trades, incoming, table.flat[s].ById())
      ensures riskEngine.State() == Exchanges.SettleTrades(old(riskEngine.State()), s, deliveries)
      ensures table.Valid()
    {
      hide BookTable.Valid, TradeDone, Gone, Book.ById, OwnerOf;
      deliveries, filled := [], {};
      ghost var all := DeliveriesOf(owners[s], incoming, sender, trades);
      ghost var index := table.flat[s].ById();
      var i := 0;
      assert trades[0..] == trades;
      while i < |trades|
        invariant i <= |trades| && table.Valid()
        invariant deliveries + DeliveriesOf(owners[s], incoming, sender, trades[i..]) == all
        invariant filled + FilledBy(trades[i..], incoming, index) == FilledBy(trades, incoming, index)
        invariant Exchanges.SettleTrades(riskEngine.State(), s, DeliveriesOf(owners[s], incoming, sender, trades[i..]))
          == Exchanges.SettleTrades(old(riskEngine.State()), s, all)
      {
        ghost var rest := DeliveriesOf(owners[s], incoming, sender, trades[i..]);
        var trade := trades[i];
        var delivery := Delivery(trade,
          OwnerOf(owners[s], trade.buyId, incoming, sender), OwnerOf(owners[s], trade.sellId, incoming, sender));
        assert trades[i..][1..] == trades[i + 1..];
        assert rest == [delivery] + DeliveriesOf(owners[s], incoming, sender, trades[i + 1..]);
        deliveries := deliveries + [delivery];
        riskEngine.OnTrade(s, delivery.buyer.client, delivery.seller.client, trade);
        assert rest[1..] == DeliveriesOf(owners[s], incoming, sender, trades[i + 1..]);
        var bought := IfGone(s, trade.buyId, incoming);
        var sold := IfGone(s, trade.sellId, incoming);
        filled := filled + bought + sold;
        i := i + 1;
      }
    }

    method RemoveFilledOrderOwners(s: Symbol, trades: seq<Trade>, incoming: OrderId)
      requires Separate() && table.Valid() && s in table.flat && s in owners
      modifies this`owners
      ensures table.Valid()
      ensures owners == old(owners)[s := old(owners)[s] - FilledBy(trades, incoming, table.flat[s].ById())]
    {
      hide BookTable.Valid, Gone, Book.ById;
      ghost var index := table.flat[s].ById();
      ghost var removed: set<OrderId> := {};
      assert old(owners)[s] - removed == old(owners)[s];
      assert trades[0..] == trades;
      var i := 0;
      while i < |trades|
        invariant i <= |trades| && table.Valid()
        invariant removed + FilledBy(trades[i..], incoming, index) == FilledBy(trades, incoming, index)
        invariant owners == old(owners)[s := old(owners)[s] - removed]
      {
        var bought := IfGone(s, trades[i].buyId, incoming);
        var sold := IfGone(s, trades[i].sellId, incoming);
        assert trades[i..][1..] == trades[i + 1..];
        assert owners[s] - bought - sold == old(owners)[s] - (removed + bought + sold);
        owners := owners[s := owners[s] - bought - sold];
        removed := removed + bought + sold;
        i := i + 1;
      }
    }

    // The book has been matched; the risk engine and the owners follow.
    method FollowMatching(s: Symbol, sender: Owner, id: OrderId, trades: seq<Trade>)
      returns (deliveries: seq<Delivery>, filled: set<OrderId>, added: Option<Order>)
      requires Separate() && table.Valid() && s in owners && s in table.flat
      modifies this`owners, riskEngine
      ensures table.Valid()
      ensures deliveries == DeliveriesOf(old(owners)[s], id, sender, trades)
      ensures var after := table.flat[s].ById();
        var risk := Exchanges.SettleTrades(old(riskEngine.State()), s, deliveries);
        && filled == FilledBy(trades, id, after)
        && (if id in after
            then && added == Some(after[id])
                 && owners == old(owners)[s := (old(owners)[s] - filled)[id := sender]]
                 && riskEngine.State() == OrderResting(risk, Key(sender.client, s, id), AsWorking(after[id]))
            else && added == None
                 && owners == old(owners)[s := old(owners)[s] - filled - {id}]
                 && riskEngine.State() == risk)
    {
      hide BookTable.Valid, Exchanges.SettleTrades, OrderResting, FilledBy, DeliveriesOf, Book.ById;
      deliveries, filled := SettleTrades(s, sender, id, trades);
      RemoveFilledOrderOwners(s, trades, id);
      added := table.FindOrder(s, id);
      if added.Some? {
        var mine: map<OrderId, Owner> := owners[s];
        owners := owners[s := mine[id := sender]];
        riskEngine.OnOrderResting(Key(sender.client, s, id), Working(added.value.side, added.value.price, added.value.remaining));
      } else {
        owners := owners[s := owners[s] - {id}];
      }
    }

    // The same, and the picture with it.
    method CompleteCommand(s: Symbol, sender: Owner, id: OrderId, trades: seq<Trade>, ghost r: Result,
                           ghost withdrawn: Option<OrderId>)
      returns (deliveries: seq<Delivery>, filled: set<OrderId>, added: Option<Order>)
      requires Separate() && table.Valid()
      requires s in instruments && s in owners && s in table.flat
      requires table.flat[s] == r.book && trades == r.trades && instruments[s].owners == owners[s]
      requires Pictures(instruments[s := Instrument(r.book, owners[s])], table.flat, owners)
      modifies this`owners, this`instruments, riskEngine
      ensures Valid()
      ensures var (x', e) := Complete(old(State()), s, sender, id, r, withdrawn);
        State() == x' && deliveries == e.deliveries && filled == e.filled && added == e.added
    {
      hide BookTable.Valid, Exchanges.SettleTrades, OrderResting, FilledBy, DeliveriesOf, Book.ById, Complete, Pictures;
      CompleteParts(State(), s, sender, id, r, withdrawn);
      ghost var x' := Complete(State(), s, sender, id, r, withdrawn).0;
      ghost var before := owners;
      deliveries, filled, added := FollowMatching(s, sender, id, trades);
      PictureAgain(instruments, table.flat, before, s, owners[s]);
      assert owners == before[s := owners[s]];
      instruments := instruments[s := Instrument(r.book, owners[s])];
      assert x'.instruments == instruments by {
        assert InstrumentOf(x', s) == Instrument(r.book, owners[s]);
      }
    }

    // ---- Sending ------------------------------------------------------------------------------------

    method SendTradeExecution(owner: Owner, trade: Trade)
      modifies this`reports
      ensures reports == old(reports) + ReportTo(owner, trade)
    {
      if owner.socket < 0 {
        return;
      }
      reports := reports + [Report(owner.socket, trade)];
    }

    method SendExecutionDeliveries(deliveries: seq<Delivery>)
      modifies this`reports
      ensures reports == old(reports) + ReportsOf(deliveries)
    {
      hide ReportTo;
      assert deliveries[0..] == deliveries;
      var i := 0;
      while i < |deliveries|
        invariant i <= |deliveries|
        invariant reports + ReportsOf(deliveries[i..]) == old(reports) + ReportsOf(deliveries)
      {
        assert deliveries[i..][1..] == deliveries[i + 1..];
        SendTradeExecution(deliveries[i].buyer, deliveries[i].trade);
        SendTradeExecution(deliveries[i].seller, deliveries[i].trade);
        i := i + 1;
      }
    }

    method BroadcastBookUpdate(s: Symbol)
      requires Valid() && s in table.flat
      modifies this`feed
      ensures Valid()
      ensures feed == old(feed) + [BookUpdated(s, TopOf(table.flat[s].bids), TopOf(table.flat[s].asks))]
    {
      hide BookTable.Valid, TopOf;
      var bid := table.BestLevel(s, Buy);
      var ask := table.BestLevel(s, Sell);
      feed := feed + [BookUpdated(s, bid, ask)];
    }

    method BroadcastExecutions(s: Symbol, deliveries: seq<Delivery>)
      modifies this`feed
      ensures feed == old(feed) + Executions(s, deliveries)
    {
      assert deliveries[0..] == deliveries;
      var i := 0;
      while i < |deliveries|
        invariant i <= |deliveries|
        invariant feed + Executions(s, deliveries[i..]) == old(feed) + Executions(s, deliveries)
      {
        assert deliveries[i..][1..] == deliveries[i + 1..];
        feed := feed + [Executed(s, deliveries[i].trade)];
        i := i + 1;
      }
    }

    // In whatever order the set gives them up.
    method BroadcastDeletions(s: Symbol, filled: set<OrderId>) returns (ghost ids: seq<OrderId>)
      modifies this`feed
      ensures Lists(ids, filled) && feed == old(feed) + Deletions(s, ids)
    {
      var left := filled;
      ids := [];
      while left != {}
        invariant left <= filled && Lists(ids, filled - left)
        invariant feed == old(feed) + Deletions(s, ids)
        decreases |left|
      {
        var id :| id in left;
        DeletionsGrow(s, ids, id);
        feed := feed + [Deleted(s, id)];
        ids := ids + [id];
        left := left - {id};
      }
    }

    lemma {:induction false} DeletionsGrow(s: Symbol, ids: seq<OrderId>, id: OrderId)
      ensures Deletions(s, ids + [id]) == Deletions(s, ids) + [Deleted(s, id)]
    {
      if ids != [] {
        assert (ids + [id])[1..] == ids[1..] + [id];
        DeletionsGrow(s, ids[1..], id);
      } else {
        assert (ids + [id])[1..] == [];
      }
    }

    // What happened to single orders, in the order it is announced.
    method BroadcastLevel3(s: Symbol, withdrawn: Option<OrderId>, deliveries: seq<Delivery>, filled: set<OrderId>, added: Option<Order>)
      returns (ghost ids: seq<OrderId>)
      modifies this`feed
      ensures Lists(ids, filled)
      ensures feed == old(feed)
        + (match withdrawn case Some(id) => [Deleted(s, id)] case None => [])
        + Executions(s, deliveries) + Deletions(s, ids)
        + (match added case Some(o) => [Added(s, o)] case None => [])
    {
      hide Executions, Deletions, Lists;
      if withdrawn.Some? {
        feed := feed + [Deleted(s, withdrawn.value)];
      }
      BroadcastExecutions(s, deliveries);
      ids := BroadcastDeletions(s, filled);
      if added.Some? {
        feed := feed + [Added(s, added.value)];
      }
    }

    // Everything a successful command sends besides its response.
    method Announce(s: Symbol, withdrawn: Option<OrderId>, deliveries: seq<Delivery>, filled: set<OrderId>, added: Option<Order>)
      returns (ghost events: seq<FeedEvent>)
      requires Valid() && s in table.flat
      modifies this`reports, this`feed
      ensures Valid() && reports == old(reports) + ReportsOf(deliveries) && feed == old(feed) + events
      ensures Announces(Some(Effects(s, table.flat[s], withdrawn, deliveries, filled, added)), events)
    {
      hide BookTable.Valid, TopOf, Executions, Deletions, ReportsOf, Lists, Pictures;
      SendExecutionDeliveries(deliveries);
      BroadcastBookUpdate(s);
      ghost var ids := BroadcastLevel3(s, withdrawn, deliveries, filled, added);
      events := Announcement(Effects(s, table.flat[s], withdrawn, deliveries, filled, added), ids);
    }

    // ---- The three handlers ------------------------------------------------------------------------

    // Turned down: a response, nothing else.
    method Refuse(socket: int, id: OrderId, kind: ReplyKind) returns (ghost events: seq<FeedEvent>)
      requires Valid()
      modifies this`replies
      ensures Valid() && State() == old(State())
      ensures replies == old(replies) + [Reply(socket, id, kind, false)]
      ensures events == [] && Announces(None, events)
    {
      SendOrderResponse(socket, id, kind, false);
      events := [];
    }

    method HandleNewOrder(socket: int, h: Wire.Header, body: seq<Wire.Byte>) returns (ghost events: seq<FeedEvent>)
      requires Valid() && Roomy(NewOrder(State(), socket, h, body).effects)
      modifies Repr()
      ensures Valid() && fresh(Repr() - old(Repr()))
      ensures var step := NewOrder(old(State()), socket, h, body);
        && State() == step.state && replies == old(replies) + [step.reply]
        && reports == old(reports) + ReportsFor(step.effects)
        && feed == old(feed) + events && Announces(step.effects, events)
    {
      hide Valid, AdmitNewOrder, Announces, Roomy;
      if h.bodySize != Wire.NEW_ORDER_BODY_SIZE {
        events := Refuse(socket, 0, Accepted);
        return;
      }
      var request := Codec.DecodeNewOrder(body);
      if request.None? {
        events := Refuse(socket, 0, Accepted);
        return;
      }
      var symbol := Wire.SymbolText(request.value.symbol);
      if request.value.quantity >= QUANTITY_RANGE || symbol == "" {
        events := Refuse(socket, request.value.id, Accepted);
        return;
      }
      events := AdmitOrder(socket, symbol, Replays.OrderOf(request.value), h, body);
    }

    method AdmitOrder(socket: int, s: Symbol, o: Order, h: Wire.Header, body: seq<Wire.Byte>) returns (ghost events: seq<FeedEvent>)
      requires Valid() && |body| <= Wire.NEW_ORDER_BODY_SIZE
      requires Roomy(AdmitNewOrder(State(), socket, s, o, h, body).effects)
      modifies Repr()
      ensures Valid() && fresh(Repr() - old(Repr()))
      ensures var step := AdmitNewOrder(old(State()), socket, s, o, h, body);
        && State() == step.state && replies == old(replies) + [step.reply]
        && reports == old(reports) + ReportsFor(step.effects)
        && feed == old(feed) + events && Announces(step.effects, events)
    {
      hide BookTable.Valid, Book.ById, Complete, Process, CheckNew, ReferencePrice, Announces, Pictures, Journaled, ReportsOf, Narrow;
      var client := RiskClientIdForSocket(socket);
      InstrumentFor(s);
      var passes := PassesChecks(s, client, o);
      if !passes {
        events := Refuse(socket, o.id, Accepted);
        return;
      }
      CompleteEffects(Journaled(State(), h, body), s, Owner(socket, client), o.id, Process(instruments[s].book, o), None);
      events := AcceptOrder(socket, s, client, o, h, body);
    }

    // The id is new to book and owners, and the risk engine has no objection.
    method PassesChecks(s: Symbol, client: ClientId, o: Order) returns (passes: bool)
      requires Valid() && s in instruments
      ensures var inst := instruments[s];
        passes <==>
        && o.id !in inst.book.ById() && o.id !in inst.owners
        && CheckNew(riskEngine.State(), RiskRequest(client, s, o, inst.book)) == Accept
    {
      hide BookTable.Valid, Book.ById, CheckNew, ReferencePrice, Pictures;
      Pictured(s);
      var resting := table.FindOrder(s, o.id);
      var reference := None;
      if o.kind.Market? {
        reference := MarketReferencePrice(s, o.side);
      }
      var request := NewRequest(client, s, o.side, o.kind, o.tif, o.price, o.remaining, reference);
      passes := resting.None? && o.id !in owners[s] && riskEngine.CheckNewOrder(request) == Accept;
    }

    // Past every check: the order is executed, answered and announced.
    method AcceptOrder(socket: int, s: Symbol, client: ClientId, o: Order, h: Wire.Header, body: seq<Wire.Byte>)
      returns (ghost events: seq<FeedEvent>)
      requires Valid() && s in instruments && |body| <= Wire.NEW_ORDER_BODY_SIZE
      requires Narrow(Process(instruments[s].book, o).book)
      modifies Repr()
      ensures Valid() && fresh(Repr() - old(Repr()))
      ensures var (x', e) := Complete(Journaled(old(State()), h, body), s, Owner(socket, client), o.id,
                                      Process(old(instruments)[s].book, o), None);
        && State() == x' && replies == old(replies) + [Reply(socket, o.id, Accepted, true)]
        && reports == old(reports) + ReportsOf(e.deliveries)
        && feed == old(feed) + events && Announces(Some(e), events)
    {
      hide BookTable.Valid, Book.ById, Complete, Process, Narrow, Announces, Pictures, Journaled, ReportsOf;
      CompleteEffects(Journaled(State(), h, body), s, Owner(socket, client), o.id, Process(instruments[s].book, o), None);
      var deliveries, filled, added := ExecuteOrder(s, Owner(socket, client), o, h, body);
      SendOrderResponse(socket, o.id, Accepted, true);
      events := Announce(s, None, deliveries, filled, added);
    }

    lemma Pictured(s: Symbol)
      requires Valid() && s in instruments
      ensures s in table.flat && s in owners && instruments[s] == Instrument(table.flat[s], owners[s])
    {
    }

    // Write the accepted order to the journal, match it, and let owners and risk follow.
    method ExecuteOrder(s: Symbol, sender: Owner, o: Order, h: Wire.Header, body: seq<Wire.Byte>)
      returns (deliveries: seq<Delivery>, filled: set<OrderId>, added: Option<Order>)
      requires Valid() && s in instruments && |body| <= Wire.NEW_ORDER_BODY_SIZE
      requires Narrow(Process(instruments[s].book, o).book)
      modifies this`owners, this`instruments, riskEngine, table, table.own, if journal == null then {} else {journal}
      ensures Valid() && fresh(table.own - old(table.own))
      ensures var r := Process(old(instruments)[s].book, o);
        var (x', e) := Complete(Journaled(old(State()), h, body), s, sender, o.id, r, None);
        && State() == x' && deliveries == e.deliveries && filled == e.filled && added == e.added
        && s in table.flat && table.flat[s] == r.book
    {
      hide BookTable.Valid, Book.ById, Complete, Process, Narrow, Pictures, Journaled;
      Pictured(s);
      ghost var r := Process(instruments[s].book, o);
      AppendJournalRecord(h, body);
      PictureAhead(instruments, table.flat, owners, s, r.book);
      var trades, _ := table.ProcessOrder(engine, s, o);
      deliveries, filled, added := CompleteCommand(s, sender, o.id, trades, r, None);
    }

    method MarketReferencePrice(s: Symbol, side: Side) returns (price: Option<Price>)
      requires Valid() && s in table.flat
      ensures price == ReferencePrice(table.flat[s], side)
    {
      var top := table.BestLevel(s, side.Opposite());
      price := if top.Some? then Some(top.value.0) else None;
    }

    // Whether this sender may cancel or replace this order.
    method Touches(s: Symbol, id: OrderId, sender: Owner) returns (may: bool)
      requires Valid()
      ensures may <==> MayTouch(State(), s, id, sender)
    {
      hide BookTable.Valid, Book.ById;
      if s !in owners || id !in owners[s] || owners[s][id] != sender {
        return false;
      }
      Pictured(s);
      var resting := table.FindOrder(s, id);
      may := resting.Some?;
    }

    method HandleCancelOrder(socket: int, h: Wire.Header, body: seq<Wire.Byte>) returns (ghost events: seq<FeedEvent>)
      requires Valid()
      modifies Repr()
      ensures Valid() && fresh(Repr() - old(Repr()))
      ensures var step := Exchanges.CancelOrder(old(State()), socket, h, body);
        && State() == step.state && replies == old(replies) + [step.reply]
        && reports == old(reports) + ReportsFor(step.effects)
        && feed == old(feed) + events && Announces(step.effects, events)
    {
      hide Valid, Announces, MayTouch, Cancel, OrderCancelled, Journaled;
      if h.bodySize != Wire.CANCEL_ORDER_BODY_SIZE {
        events := Refuse(socket, 0, Cancelled);
        return;
      }
      var request := Codec.DecodeCancelOrder(body);
      if request.None? {
        events := Refuse(socket, 0, Cancelled);
        return;
      }
      var symbol := Wire.SymbolText(request.value.symbol);
      var client := RiskClientIdForSocket(socket);
      var may := Touches(symbol, request.value.id, Owner(socket, client));
      if !may {
        events := Refuse(socket, request.value.id, Cancelled);
        return;
      }
      events := AcceptCancel(socket, symbol, client, request.value.id, h, body);
    }

    method AcceptCancel(socket: int, s: Symbol, client: ClientId, id: OrderId, h: Wire.Header, body: seq<Wire.Byte>)
      returns (ghost events: seq<FeedEvent>)
      requires Valid() && MayTouch(State(), s, id, Owner(socket, client)) && |body| <= Wire.NEW_ORDER_BODY_SIZE
      modifies Repr()
      ensures Valid() && fresh(Repr() - old(Repr()))
      ensures var inst := old(instruments)[s];
        var book := Cancel(inst.book, id);
        && State() == Journaled(old(State()), h, body).(
             instruments := old(instruments)[s := Instrument(book, inst.owners - {id})],
             risk := OrderCancelled(old(riskEngine.State()), Key(client, s, id)))
        && replies == old(replies) + [Reply(socket, id, Cancelled, true)] && reports == old(reports)
        && feed == old(feed) + events && Announces(Some(Effects(s, book, Some(id), [], {}, None)), events)
    {
      hide BookTable.Valid, Book.ById, Cancel, Pictures, TopOf, OrderCancelled;
      ExecuteCancel(s, client, id, h, body);
      SendOrderResponse(socket, id, Cancelled, true);
      BroadcastBookUpdate(s);
      feed := feed + [Deleted(s, id)];
      events := [BookUpdated(s, TopOf(table.flat[s].bids), TopOf(table.flat[s].asks)), Deleted(s, id)];
      assert Lists([], {});
      assert events == Announcement(Effects(s, table.flat[s], Some(id), [], {}, None), []);
    }

    method ExecuteCancel(s: Symbol, client: ClientId, id: OrderId, h: Wire.Header, body: seq<Wire.Byte>)
      requires Valid() && s in instruments && id in instruments[s].book.ById() && |body| <= Wire.NEW_ORDER_BODY_SIZE
      modifies this`owners, this`instruments, riskEngine, table, table.own, if journal == null then {} else {journal}
      ensures Valid() && fresh(table.own - old(table.own))
      ensures var inst := old(instruments)[s];
        var book := Cancel(inst.book, id);
        && State() == Journaled(old(State()), h, body).(
             instruments := old(instruments)[s := Instrument(book, inst.owners - {id})],
             risk := OrderCancelled(old(riskEngine.State()), Key(client, s, id)))
        && s in table.flat && table.flat[s] == book
    {
      hide BookTable.Valid, Book.ById, Cancel, Pictures, OrderCancelled;
      Pictured(s);
      AppendJournalRecord(h, body);
      PictureAhead(instruments, table.flat, owners, s, Cancel(table.flat[s], id));
      var cancelled := table.CancelOrder(s, id);
      if cancelled {
        riskEngine.OnOrderCancelled(Key(client, s, id));
        PictureAgain(instruments, table.flat, owners, s, owners[s] - {id});
        owners := owners[s := owners[s] - {id}];
        instruments := instruments[s := Instrument(table.flat[s], owners[s])];
      }
    }

    method HandleReplaceOrder(socket: int, h: Wire.Header, body: seq<Wire.Byte>) returns (ghost events: seq<FeedEvent>)
      requires Valid() && Roomy(Exchanges.ReplaceOrder(State(), socket, h, body).effects)
      modifies Repr()
      ensures Valid() && fresh(Repr() - old(Repr()))
      ensures var step := Exchanges.ReplaceOrder(old(State()), socket, h, body);
        && State() == step.state && replies == old(replies) + [step.reply]
        && reports == old(reports) + ReportsFor(step.effects)
        && feed == old(feed) + events && Announces(step.effects, events)
    {
      hide Valid, Announces, MayTouch, Replace, OrderCancelled, Journaled, CheckReplace, Complete, ReportsOf, Narrow, Book.ById;
      if h.bodySize != Wire.REPLACE_ORDER_BODY_SIZE {
        events := Refuse(socket, 0, Replaced);
        return;
      }
      var request := Codec.DecodeReplaceOrder(body);
      if request.None? {
        events := Refuse(socket, 0, Replaced);
        return;
      }
      var q := request.value;
      if q.quantity >= QUANTITY_RANGE {
        events := Refuse(socket, q.id, Replaced);
        return;
      }
      var symbol := Wire.SymbolText(q.symbol);
      var client := RiskClientIdForSocket(socket);
      var may := Touches(symbol, q.id, Owner(socket, client));
      if !may || riskEngine.CheckReplaceOrder(Key(client, symbol, q.id), q.price, q.quantity) != Accept {
        events := Refuse(socket, q.id, Replaced);
        return;
      }
      Touched(symbol, q.id, Owner(socket, client));
      CompleteEffects(Journaled(State(), h, body).(risk := OrderCancelled(riskEngine.State(), Key(client, symbol, q.id))),
                      symbol, Owner(socket, client), q.id,
                      Replace(instruments[symbol].book, q.id, q.price, q.quantity, q.timestamp), Some(q.id));
      events := AcceptReplace(socket, symbol, client, q, h, body);
    }

    lemma Touched(s: Symbol, id: OrderId, sender: Owner)
      requires MayTouch(State(), s, id, sender)
      ensures s in instruments && id in instruments[s].book.ById()
    {
    }

    method AcceptReplace(socket: int, s: Symbol, client: ClientId, q: Wire.ReplaceOrderRequest, h: Wire.Header, body: seq<Wire.Byte>)
      returns (ghost events: seq<FeedEvent>)
      requires Valid() && s in instruments && |body| <= Wire.NEW_ORDER_BODY_SIZE
      requires q.id in instruments[s].book.ById() && q.quantity > 0
      requires Narrow(Replace(instruments[s].book, q.id, q.price, q.quantity, q.timestamp).book)
      modifies Repr()
      ensures Valid() && fresh(Repr() - old(Repr()))
      ensures var withdrawn := Journaled(old(State()), h, body).(
          risk := OrderCancelled(old(riskEngine.State()), Key(client, s, q.id)));
        var (x', e) := Complete(withdrawn, s, Owner(socket, client), q.id,
                                Replace(old(instruments)[s].book, q.id, q.price, q.quantity, q.timestamp), Some(q.id));
        && State() == x' && replies == old(replies) + [Reply(socket, q.id, Replaced, true)]
        && reports == old(reports) + ReportsOf(e.deliveries)
        && feed == old(feed) + events && Announces(Some(e), events)
    {
      hide BookTable.Valid, Book.ById, Complete, Replace, Narrow, Announces, Pictures, Journaled, ReportsOf, OrderCancelled;
      CompleteEffects(Journaled(State(), h, body).(risk := OrderCancelled(riskEngine.State(), Key(client, s, q.id))),
                      s, Owner(socket, client), q.id,
                      Replace(instruments[s].book, q.id, q.price, q.quantity, q.timestamp), Some(q.id));
      var deliveries, filled, added := ExecuteReplace(s, Owner(socket, client), q, h, body);
      SendOrderResponse(socket, q.id, Replaced, true);
      events := Announce(s, Some(q.id), deliveries, filled, added);
    }

    /**
     Write the replacement to the journal, take the old exposure out of the risk engine and match
     the new order. The order rests, so the engine reports it as replaced, and the old exposure
     never has to be put back.
     */
    method ExecuteReplace(s: Symbol, sender: Owner, q: Wire.ReplaceOrderRequest, h: Wire.Header, body: seq<Wire.Byte>)
      returns (deliveries: seq<Delivery>, filled: set<OrderId>, added: Option<Order>)
      requires Valid() && s in instruments && |body| <= Wire.NEW_ORDER_BODY_SIZE
      requires q.id in instruments[s].book.ById() && q.quantity > 0
      requires Narrow(Replace(instruments[s].book, q.id, q.price, q.quantity, q.timestamp).book)
      modifies this`owners, this`instruments, riskEngine, table, table.own, if journal == null then {} else {journal}
      ensures Valid() && fresh(table.own - old(table.own))
      ensures var r := Replace(old(instruments)[s].book, q.id, q.price, q.quantity, q.timestamp);
        var withdrawn := Journaled(old(State()), h, body).(
          risk := OrderCancelled(old(riskEngine.State()), Key(sender.client, s, q.id)));
        var (x', e) := Complete(withdrawn, s, sender, q.id, r, Some(q.id));
        && State() == x' && deliveries == e.deliveries && filled == e.filled && added == e.added
        && s in table.flat && table.flat[s] == r.book
    {
      hide BookTable.Valid, Book.ById, Complete, Replace, Narrow, Pictures, OrderCancelled;
      Pictured(s);
      ghost var r := Replace(instruments[s].book, q.id, q.price, q.quantity, q.timestamp);
      AppendJournalRecord(h, body);
      riskEngine.OnOrderCancelled(Key(sender.client, s, q.id));
      PictureAhead(instruments, table.flat, owners, s, r.book);
      table.IsCoherent(s);
      RecoveryLaws.ReplaceSucceeds(table.flat[s], q);
      var replaced, trades, _ := table.ReplaceOrder(engine, s, q.id, q.price, q.quantity, q.timestamp);
      assert replaced;
      deliveries, filled, added := CompleteCommand(s, sender, q.id, trades, r, Some(q.id));
    }

    // The switch on the message type; any other type is ignored.
    method HandleMessage(socket: int, h: Wire.Header, body: seq<Wire.Byte>) returns (ghost events: seq<FeedEvent>)
      requires Valid() && Roomy(Handle(State(), socket, h, body).1)
      modifies Repr()
      ensures Valid() && fresh(Repr() - old(Repr()))
      ensures var (x', effects) := Handle(old(State()), socket, h, body);
        && State() == x' && replies == old(replies) + Answers(old(State()), socket, h, body)
        && reports == old(reports) + ReportsFor(effects)
        && feed == old(feed) + events && Announces(effects, events)
    {
      hide Valid, NewOrder, Exchanges.CancelOrder, Exchanges.ReplaceOrder, Roomy, Announcement;
      events := [];
      if h.kind == Wire.NEW_ORDER {
        events := HandleNewOrder(socket, h, body);
      } else if h.kind == Wire.CANCEL_ORDER {
        events := HandleCancelOrder(socket, h, body);
      } else if h.kind == Wire.REPLACE_ORDER {
        events := HandleReplaceOrder(socket, h, body);
      }
    }

    /**
     Handles every whole message in the receive buffer, oldest first, and leaves what is not yet a
     whole message; a bad header empties the buffer.
     */
    method ProcessReceiveBuffer(socket: int, received: seq<Wire.Byte>) returns (receiveBuffer: seq<Wire.Byte>, ghost events: seq<FeedEvent>)
      requires Valid() && AllRoomy(State(), Inputs(socket, Framing.Drain(received).messages))
      modifies Repr()
      ensures Valid() && fresh(Repr() - old(Repr()))
      ensures receiveBuffer == Framing.Drain(received).left
      ensures var inputs := Inputs(socket, Framing.Drain(received).messages);
        && State() == RunLaws.Run(old(State()), inputs)
        && AllFramed(inputs)
        && Mail(replies, reports) == Then(Mail(old(replies), old(reports)), SentDuring(old(State()), inputs))
        && feed == old(feed) + events && Broadcast(old(State()), inputs, events)
    {
      InputsAreFramed(socket, received);
      hide SentDuring, Then, AllFramed;
      hide Valid, React, Broadcast, Wire.DecodeHeader, Announces, Roomy, AllRoomy, Inputs, RunLaws.Run;
      receiveBuffer, events := received, [];
      ghost var x, sent, mail, objects := State(), feed, Mail(replies, reports), Repr();
      ghost var done: seq<Input> := [];
      ghost var all := Inputs(socket, Framing.Drain(received).messages);
      NothingYet(x);
      ThenNothing(mail);
      while |receiveBuffer| >= Wire.HEADER_SIZE
        invariant Valid() && fresh(Repr() - objects)
        invariant Framing.Drain(receiveBuffer).left == Framing.Drain(received).left
        invariant done + Inputs(socket, Framing.Drain(receiveBuffer).messages) == all
        invariant State() == RunLaws.Run(x, done) && Broadcast(x, done, events) && feed == sent + events
        invariant Mail(replies, reports) == Then(mail, SentDuring(x, done))
        invariant AllRoomy(State(), Inputs(socket, Framing.Drain(receiveBuffer).messages))
        decreases |receiveBuffer|
      {
        var header := Codec.DecodeHeader(receiveBuffer[..Wire.HEADER_SIZE]);
        if header.None? || header.value.bodySize > Framing.MAXIMUM_BODY_SIZE {
          assert Framing.Drain(receiveBuffer) == Framing.Drained([], [], false);
          receiveBuffer := [];
          break;
        }
        var size := Wire.HEADER_SIZE + header.value.bodySize;
        if |receiveBuffer| < size {
          assert Framing.Drain(receiveBuffer) == Framing.Drained([], receiveBuffer, true);
          break;
        }
        ghost var body := receiveBuffer[Wire.HEADER_SIZE..size];
        ghost var rest := Framing.Drain(receiveBuffer[size..]).messages;
        assert Framing.Drain(receiveBuffer).messages == [Framing.Message(header.value, body)] + rest;
        ghost var next := HandleNext(socket, header.value, receiveBuffer[Wire.HEADER_SIZE..size], x, done, events, mail, rest);
        InputsSplit(socket, header.value, body, rest, done);
        done, events := done + [Received(socket, header.value, body)], events + next;
        receiveBuffer := receiveBuffer[size..];
      }
      assert Framing.Drain(receiveBuffer) == Framing.Drained([], receiveBuffer, true);
      InputsEnd(socket, done);
    }

    lemma InputsEnd(socket: int, done: seq<Input>)
      ensures done + Inputs(socket, []) == done
    {
    }

    lemma InputsSplit(socket: int, h: Wire.Header, body: seq<Wire.Byte>, rest: seq<Framing.Message>, done: seq<Input>)
      ensures done + Inputs(socket, [Framing.Message(h, body)] + rest) ==
        done + [Received(socket, h, body)] + Inputs(socket, rest)
    {
      assert ([Framing.Message(h, body)] + rest)[1..] == rest;
    }

    lemma NothingYet(x: Exchange)
      ensures RunLaws.Run(x, []) == x && Broadcast(x, [], []) && SentDuring(x, []) == Mail([], [])
    {
    }

    // One message of a longer run.
    method HandleNext(socket: int, h: Wire.Header, body: seq<Wire.Byte>,
                      ghost x: Exchange, ghost done: seq<Input>, ghost before: seq<FeedEvent>, ghost mail: Mail,
                      ghost rest: seq<Framing.Message>)
      returns (ghost events: seq<FeedEvent>)
      requires Valid() && State() == RunLaws.Run(x, done) && Broadcast(x, done, before)
      requires Mail(replies, reports) == Then(mail, SentDuring(x, done))
      requires AllRoomy(State(), Inputs(socket, [Framing.Message(h, body)] + rest))
      modifies Repr()
      ensures Valid() && fresh(Repr() - old(Repr())) && feed == old(feed) + events
      ensures State() == RunLaws.Run(x, done + [Received(socket, h, body)])
      ensures Broadcast(x, done + [Received(socket, h, body)], before + events)
      ensures Mail(replies, reports) == Then(mail, SentDuring(x, done + [Received(socket, h, body)]))
      ensures AllRoomy(State(), Inputs(socket, rest))
    {
      hide Valid, Handle, Broadcast, Announces, Roomy, SentDuring, Answers;
      ghost var input := Received(socket, h, body);
      ghost var messages := [Framing.Message(h, body)] + rest;
      assert messages[1..] == rest;
      assert Inputs(socket, messages)[1..] == Inputs(socket, rest);
      RunMore(x, done, input);
      SentMore(x, done, input);
      ghost var soFar, sends := Mail(replies, reports), Sends(State(), input);
      events := HandleMessage(socket, h, body);
      BroadcastMore(x, done, before, input, events);
      assert Mail(replies, reports) == Then(soFar, sends);
      ThenTwice(mail, SentDuring(x, done), sends);
    }
  }

  // The books a journal holds; no journal holds none.
  function Recovered(file: Option<seq<Wire.Byte>>): map<Symbol, Book> {
    match file
    case None => Replays.START.books
    case Some(bytes) => Replays.Replay(bytes).1.books
  }

  /**
   Recovery, then start: the journal is replayed before it is opened for appending. Null when the
   journal cannot be replayed to its end.
   */
  method RecoverAndStart(limits: Limits, journal: Journal.ExchangeJournal?) returns (server: ExchangeServer?)
    requires journal != null ==>
      && Journal.AllRecordable(Journal.Read(journal.output).records)
      && NarrowThroughout(Journal.Read(journal.output).records)
    ensures server == null <==> journal != null && !Replays.Replay(journal.output).0
    ensures server != null ==>
      && fresh(server) && server.Valid() && server.journal == journal
      && server.State() == Started(Recovered(server.File()), limits, server.File())
      && server.replies == [] && server.reports == [] && server.feed == []
  {
    hide BookTable.Valid, ExchangeServer.Valid, Started, NarrowThroughout, Journal.Read;
    if journal == null || journal.output == [] {
      var none := new BookTable();
      server := new ExchangeServer(limits, none, journal);
      NothingRecorded();
      return;
    }
    var replayer := new ExchangeReplayer();
    var ok := replayer.Replay(journal.output);
    if !ok {
      return null;
    }
    server := new ExchangeServer(limits, replayer.books, journal);
  }

  lemma NothingRecorded()
    ensures Replays.Replay([]) == (true, Replays.START)
  {
  }
}
