/** What one client gains another gives: positions in a symbol always sum to zero. */
module BalanceLaws {
  import opened ExchangeTypes
  import opened PriceTime
  import opened BookLaws
  import opened MatchingLaws
  import opened Risk
  import opened RiskLaws
  import opened LimitLaws
  import Wire
  import opened Exchanges
  import opened ExchangeLaws
  import opened RunLaws

  type Byte = Wire.Byte

  // The sum of the positions of all clients numbered below n.
  function Net(r: RiskState, n: nat, s: Symbol): int {
    if n == 0 then 0 else Net(r, n - 1, s) + PositionOf(r, n - 1, s)
  }

  lemma {:induction false} NetFollowsTrade(r: RiskState, r': RiskState, n: nat, s: Symbol, buyer: ClientId, seller: ClientId, quantity: int)
    requires forall c :: PositionOf(r', c, s) - PositionOf(r, c, s) ==
               (if c == buyer then quantity else 0) - (if c == seller then quantity else 0)
    ensures Net(r', n, s) == Net(r, n, s) + (if buyer < n then quantity else 0) - (if seller < n then quantity else 0)
  {
    if n > 0 {
      NetFollowsTrade(r, r', n - 1, s, buyer, seller, quantity);
    }
  }

  lemma {:induction false} NetUnmoved(r: RiskState, r': RiskState, n: nat, s: Symbol)
    requires SamePositions(r, r')
    ensures Net(r', n, s) == Net(r, n, s)
  {
    if n > 0 {
      assert PositionOf(r', n - 1, s) == PositionOf(r, n - 1, s);
      NetUnmoved(r, r', n - 1, s);
    }
  }

  // Nobody outside the first n clients holds anything, and the first n hold nothing in total.
  ghost predicate Balanced(r: RiskState, n: nat) {
    && (forall c, s :: c >= n ==> PositionOf(r, c, s) == 0)
    && (forall s :: Net(r, n, s) == 0)
  }

  predicate Session(c: ClientId, n: nat) {
    NO_CLIENT < c < n
  }

  // Every resting order belongs to a session.
  ghost predicate Owned(index: map<OrderId, Order>, owners: map<OrderId, Owner>, n: nat) {
    forall id :: id in index ==> id in owners && Session(owners[id].client, n)
  }

  ghost predicate Tracked(x: Exchange) {
    && x.nextClient > 0
    && (forall socket :: socket in x.sessions ==> Session(x.sessions[socket], x.nextClient))
    && (forall s :: Owned(InstrumentOf(x, s).book.ById(), InstrumentOf(x, s).owners, x.nextClient))
    && Balanced(x.risk, x.nextClient)
  }

  lemma BalancedAfterTrade(r: RiskState, r': RiskState, n: nat, s: Symbol, buyer: ClientId, seller: ClientId, t: Trade)
    requires Balanced(r, n) && Session(buyer, n) && Session(seller, n)
    requires forall c, s' :: PositionOf(r', c, s') == PositionOf(r, c, s') + TradeDelta(buyer, seller, s, t, c, s')
    ensures Balanced(r', n)
  {
    forall s'
      ensures Net(r', n, s') == 0
    {
      NetFollowsTrade(r, r', n, s', buyer, seller, if s' == s then t.quantity else 0);
      assert Net(r, n, s') == 0;
    }
  }

  lemma BalancedUnmoved(r: RiskState, r': RiskState, n: nat)
    requires Balanced(r, n) && SamePositions(r, r')
    ensures Balanced(r', n)
  {
    forall s
      ensures Net(r', n, s) == 0
    {
      NetUnmoved(r, r', n, s);
    }
    forall c, s | c >= n
      ensures PositionOf(r', c, s) == 0
    {
      assert PositionOf(r', c, s) == PositionOf(r, c, s);
    }
  }

  lemma {:induction false} SettlingBalances(r: RiskState, s: Symbol, owners: map<OrderId, Owner>, index: map<OrderId, Order>,
                                            o: Order, sender: Owner, trades: seq<Trade>, pending: Quantity, n: nat)
    requires Sound(r) && Modest(r.limits) && WithinLimits(r)
    requires o.id !in index && TradesFit(index, trades, o)
    requires Traded(trades) <= pending && Room(r, sender.client, s, o.side, pending)
    requires MirrorsAt(r.working, s, owners, index)
    requires Balanced(r, n) && Owned(index, owners, n) && Session(sender.client, n)
    ensures Balanced(SettleTrades(r, s, DeliveriesOf(owners, o.id, sender, trades)), n)
    decreases |trades|
  {
    if trades != [] {
      var t := trades[0];
      var id := RestingId(t, o.side);
      var d := DeliveryOf(owners, o.id, sender, t);
      var incoming := Key(sender.client, s, o.id);
      var resting := Key(owners[id].client, s, id);
      assert Lookup(r.working, incoming) == Expected(owners, index, incoming);
      assert Lookup(r.working, resting) == Expected(owners, index, resting);
      TradeKeepsLimits(r, s, incoming, resting, o.side, t, pending);
      OneTradeMirrors(r.working, s, owners, index, id, t.quantity);
      var r1 := TradeDone(r, s, d.buyer.client, d.seller.client, t);
      BalancedAfterTrade(r, r1, n, s, d.buyer.client, d.seller.client, t);
      SettlingBalances(r1, s, owners, Consume(index, id, t.quantity), o, sender, trades[1..], pending - t.quantity, n);
      assert DeliveriesOf(owners, o.id, sender, trades)[1..] == DeliveriesOf(owners, o.id, sender, trades[1..]);
    }
  }

  lemma {:induction false} CompleteBalances(x: Exchange, s: Symbol, sender: Owner, b: Book, o: Order, withdrawn: Option<OrderId>)
    requires Sound(x.risk) && Modest(x.risk.limits) && WithinLimits(x.risk)
    requires WellFormed(b) && o.id !in b.ById() && o.remaining > 0
    requires MirrorsAt(x.risk.working, s, InstrumentOf(x, s).owners, b.ById())
    requires Room(x.risk, sender.client, s, o.side, o.remaining)
    requires MayRest(o) ==> RoomToRest(x.risk, sender.client, o.remaining)
    requires Balanced(x.risk, x.nextClient) && Session(sender.client, x.nextClient)
    requires Owned(b.ById(), InstrumentOf(x, s).owners, x.nextClient)
    ensures var x' := Complete(x, s, sender, o.id, Process(b, o), withdrawn).0;
      && Balanced(x'.risk, x.nextClient)
      && Owned(InstrumentOf(x', s).book.ById(), InstrumentOf(x', s).owners, x.nextClient)
  {
    hide SettleTrades, FilledBy, Consume, Process, Complete, DeliveriesOf, Sound, Modest, WithinLimits, Balanced, Room, Owned;
    var owners := InstrumentOf(x, s).owners;
    var r := Process(b, o);
    var after := r.book.ById();
    var risk := SettleTrades(x.risk, s, DeliveriesOf(owners, o.id, sender, r.trades));
    ProcessOnIndex(b, o);
    RemainderIsWhatIsLeft(b, o);
    SettlingBalances(x.risk, s, owners, b.ById(), o, sender, r.trades, o.remaining, x.nextClient);
    SettlingKeeps(x.risk, s, owners, b.ById(), o, sender, r.trades, o.remaining);
    CompleteParts(x, s, sender, o.id, r, withdrawn);
    StaysOwned(b, o, owners, sender, x.nextClient);
    if o.id in after {
      var key := Key(sender.client, s, o.id);
      assert Lookup(risk.working, key) == Expected(owners, ConsumeAll(b.ById(), r.trades, o.side), key);
      RestingKeepsLimits(risk, key, AsWorking(after[o.id]));
      BalancedUnmoved(risk, OrderResting(risk, key, AsWorking(after[o.id])), x.nextClient);
    }
  }

  lemma {:induction false} StaysOwned(b: Book, o: Order, owners: map<OrderId, Owner>, sender: Owner, n: nat)
    requires Coherent(b) && o.id !in b.ById() && o.remaining > 0
    requires Owned(b.ById(), owners, n) && Session(sender.client, n)
    ensures var r := Process(b, o);
      var after := r.book.ById();
      var filled := FilledBy(r.trades, o.id, after);
      Owned(after, if o.id in after then (owners - filled)[o.id := sender] else owners - filled - {o.id}, n)
  {
    hide Process, Book.ById, FilledBy, Coherent;
    var r := Process(b, o);
    RemainderIsWhatIsLeft(b, o);
    ConsumeAllShrinks(b.ById(), r.trades, o.side);
    FilledIsGone(r.trades, o.id, r.book.ById());
  }

  // ---- The commands ------------------------------------------------------------------------------

  // A message from a connected socket.
  predicate Live(x: Exchange, input: Input) {
    input.Received? ==> input.socket in x.sessions
  }

  lemma TrackedAgain(x: Exchange, x': Exchange, s: Symbol)
    requires Tracked(x) && x'.sessions == x.sessions && x'.nextClient == x.nextClient
    requires x'.instruments == x.instruments[s := InstrumentOf(x', s)]
    requires Balanced(x'.risk, x.nextClient)
    requires Owned(InstrumentOf(x', s).book.ById(), InstrumentOf(x', s).owners, x.nextClient)
    ensures Tracked(x')
  {
    forall t
      ensures Owned(InstrumentOf(x', t).book.ById(), InstrumentOf(x', t).owners, x'.nextClient)
    {
      assert Owned(InstrumentOf(x, t).book.ById(), InstrumentOf(x, t).owners, x.nextClient);
    }
  }

  lemma {:induction false} NewOrderBalances(x: Exchange, socket: int, h: Wire.Header, body: seq<Byte>)
    requires Agree(x) && Tracked(x) && socket in x.sessions
    ensures Tracked(NewOrder(x, socket, h, body).state)
  {
    var q := Wire.DecodeNewOrder(body);
    if h.bodySize == Wire.NEW_ORDER_BODY_SIZE && q.Some? && q.value.quantity < QUANTITY_RANGE && Wire.SymbolText(q.value.symbol) != "" {
      var s := Wire.SymbolText(q.value.symbol);
      var o := Replays.OrderOf(q.value);
      var inst := InstrumentOf(x, s);
      var known := x.(instruments := x.instruments[s := inst]);
      assert InstrumentOk(x.risk.working, s, inst);
      var request := RiskRequest(ClientOn(x, socket), s, o, inst.book);
      if o.id in inst.book.ById() || o.id in inst.owners || CheckNew(x.risk, request) != Accept {
        TrackedAgain(x, known, s);
      } else {
        AcceptedNewHasRoom(x.risk, request);
        AcceptedNewBalances(x, s, Owner(socket, ClientOn(x, socket)), o, Journaled(known, h, body));
      }
    }
  }

  lemma {:induction false} AcceptedNewBalances(x: Exchange, s: Symbol, sender: Owner, o: Order, ready: Exchange)
    requires Agree(x) && Tracked(x) && o.remaining > 0 && Session(sender.client, x.nextClient)
    requires ready == x.(instruments := x.instruments[s := InstrumentOf(x, s)], journal := ready.journal)
    requires o.id !in InstrumentOf(x, s).book.ById()
    requires Room(x.risk, sender.client, s, o.side, o.remaining)
    requires MayRest(o) ==> RoomToRest(x.risk, sender.client, o.remaining)
    ensures Tracked(Complete(ready, s, sender, o.id, Process(InstrumentOf(x, s).book, o), None).0)
  {
    var b := InstrumentOf(x, s).book;
    assert InstrumentOk(x.risk.working, s, InstrumentOf(x, s));
    CompleteBalances(ready, s, sender, b, o, None);
    var x' := Complete(ready, s, sender, o.id, Process(b, o), None).0;
    PutTwice(x, ready, x', s);
    TrackedAgain(x, x', s);
  }

  lemma {:induction false} CancelBalances(x: Exchange, socket: int, h: Wire.Header, body: seq<Byte>)
    requires Agree(x) && Tracked(x) && socket in x.sessions
    ensures Tracked(CancelOrder(x, socket, h, body).state)
  {
    var step := CancelOrder(x, socket, h, body);
    if step.effects.Some? {
      var q := Wire.DecodeCancelOrder(body).value;
      var s := Wire.SymbolText(q.symbol);
      var inst := x.instruments[s];
      var key := Key(ClientOn(x, socket), s, q.id);
      assert InstrumentOk(x.risk.working, s, InstrumentOf(x, s));
      CancelRemovesExactly(inst.book, q.id);
      CancelledKey(x.risk, key);
      BalancedUnmoved(x.risk, OrderCancelled(x.risk, key), x.nextClient);
      assert Owned(InstrumentOf(x, s).book.ById(), InstrumentOf(x, s).owners, x.nextClient);
      TrackedAgain(x, step.state, s);
    }
  }

  lemma {:induction false} ReplaceBalances(x: Exchange, socket: int, h: Wire.Header, body: seq<Byte>)
    requires Agree(x) && Tracked(x) && socket in x.sessions
    ensures Tracked(ReplaceOrder(x, socket, h, body).state)
  {
    if ReplaceOrder(x, socket, h, body).effects.Some? {
      var q := Wire.DecodeReplaceOrder(body).value;
      AcceptedReplaceBalances(x, Wire.SymbolText(q.symbol), Owner(socket, ClientOn(x, socket)), q, Journaled(x, h, body));
    }
  }

  lemma {:induction false} AcceptedReplaceBalances(x: Exchange, s: Symbol, sender: Owner, q: Wire.ReplaceOrderRequest, journaled: Exchange)
    requires Agree(x) && Tracked(x) && MayTouch(x, s, q.id, sender) && q.quantity > 0
    requires Session(sender.client, x.nextClient)
    requires CheckReplace(x.risk, Key(sender.client, s, q.id), q.price, q.quantity) == Accept
    requires journaled == x.(journal := journaled.journal)
    ensures var withdrawn := journaled.(risk := OrderCancelled(x.risk, Key(sender.client, s, q.id)));
      var r := Replace(x.instruments[s].book, q.id, q.price, q.quantity, q.timestamp);
      Tracked(Complete(withdrawn, s, sender, q.id, r, Some(q.id)).0)
  {
    hide Complete, Modest, WithinLimits, Process;
    var inst := x.instruments[s];
    var key := Key(sender.client, s, q.id);
    var o := Replacement(inst.book.ById()[q.id], q.price, q.quantity, q.timestamp);
    var b := Cancel(inst.book, q.id);
    assert InstrumentOk(x.risk.working, s, InstrumentOf(x, s));
    AcceptedReplaceHasRoom(x.risk, key, q.price, q.quantity);
    assert Lookup(x.risk.working, key) == Expected(inst.owners, inst.book.ById(), key);
    LocateId(inst.book, q.id);
    CancelRemovesExactly(inst.book, q.id);
    WithdrawnMirrors(x.risk.working, s, inst.owners, inst.book.ById(), key);
    var withdrawn := journaled.(risk := OrderCancelled(x.risk, key));
    BalancedUnmoved(x.risk, withdrawn.risk, x.nextClient);
    assert Owned(InstrumentOf(x, s).book.ById(), InstrumentOf(x, s).owners, x.nextClient);
    CompleteBalances(withdrawn, s, sender, b, o, Some(q.id));
    CompleteParts(withdrawn, s, sender, q.id, Process(b, o), Some(q.id));
    var x' := Complete(withdrawn, s, sender, q.id, Process(b, o), Some(q.id)).0;
    TrackedAgain(x, x', s);
  }

  lemma {:induction false} HandleBalances(x: Exchange, socket: int, h: Wire.Header, body: seq<Byte>)
    requires Agree(x) && Tracked(x) && socket in x.sessions
    ensures Tracked(Handle(x, socket, h, body).0)
  {
    hide Agree, Tracked, NewOrder, CancelOrder, ReplaceOrder;
    NewOrderBalances(x, socket, h, body);
    CancelBalances(x, socket, h, body);
    ReplaceBalances(x, socket, h, body);
  }

  lemma {:induction false} ReactBalances(x: Exchange, input: Input)
    requires Agree(x) && Tracked(x) && Live(x, input)
    ensures Tracked(React(x, input).0)
  {
    hide Agree, Tracked, Handle;
    match input
    case Received(socket, h, body) => HandleBalances(x, socket, h, body);
    case KillSwitch(enabled) => SwitchBalances(x, enabled);
    case Connected(socket) => SessionOpens(x, socket);
    case Disconnected(socket) => SessionCloses(x, socket);
  }

  lemma SwitchBalances(x: Exchange, enabled: bool)
    requires Tracked(x)
    ensures Tracked(SetGlobalKillSwitch(x, enabled))
  {
    var x' := SetGlobalKillSwitch(x, enabled);
    assert forall s :: InstrumentOf(x', s) == InstrumentOf(x, s);
    BalancedUnmoved(x.risk, x'.risk, x.nextClient);
  }

  lemma SessionCloses(x: Exchange, socket: int)
    requires Tracked(x)
    ensures Tracked(Disconnect(x, socket))
  {
    assert forall s :: InstrumentOf(Disconnect(x, socket), s) == InstrumentOf(x, s);
  }

  lemma SessionOpens(x: Exchange, socket: int)
    requires Tracked(x)
    ensures Tracked(Connect(x, socket))
  {
    var x' := Connect(x, socket);
    forall s
      ensures Net(x.risk, x'.nextClient, s) == 0
    {
      assert Net(x.risk, x.nextClient, s) == 0;
      assert PositionOf(x.risk, x.nextClient, s) == 0;
    }
    forall s
      ensures Owned(InstrumentOf(x', s).book.ById(), InstrumentOf(x', s).owners, x'.nextClient)
    {
      assert Owned(InstrumentOf(x, s).book.ById(), InstrumentOf(x, s).owners, x.nextClient);
    }
  }

  // Every message of the run comes from a socket connected at that moment.
  predicate AllLive(x: Exchange, inputs: seq<Input>)
    decreases |inputs|
  {
    inputs == [] || (Live(x, inputs[0]) && AllLive(React(x, inputs[0]).0, inputs[1..]))
  }

  lemma {:induction false} RunBalances(x: Exchange, inputs: seq<Input>)
    requires Agree(x) && Tracked(x) && AllLive(x, inputs)
    ensures Tracked(RunLaws.Run(x, inputs))
    decreases |inputs|
  {
    if inputs != [] {
      ReactKeepsAgreement(x, inputs[0]);
      ReactBalances(x, inputs[0]);
      RunBalances(React(x, inputs[0]).0, inputs[1..]);
    }
  }

  lemma InitialTracked(limits: Limits, journal: Option<seq<Byte>>)
    ensures Tracked(Initial(limits, journal))
  {
    var x0 := Initial(limits, journal);
    forall t
      ensures Net(x0.risk, x0.nextClient, t) == 0
    {
      assert Net(x0.risk, 0, t) == 0;
    }
  }

  /** In any run that starts with empty books, the positions of all clients in a symbol sum to zero. */
  lemma {:induction false} PositionsSumToZero(limits: Limits, journal: Option<seq<Byte>>, inputs: seq<Input>, s: Symbol)
    requires Modest(limits) && AllLive(Initial(limits, journal), inputs)
    ensures var x := RunLaws.Run(Initial(limits, journal), inputs);
      Net(x.risk, x.nextClient, s) == 0 && forall c :: c >= x.nextClient ==> PositionOf(x.risk, c, s) == 0
  {
    var x0 := Initial(limits, journal);
    InitialAgrees(limits, journal);
    InitialTracked(limits, journal);
    RunBalances(x0, inputs);
  }
}
