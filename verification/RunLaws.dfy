/** Safety over whole runs: whatever clients send, the exchange stays in agreement and in limits. */
module RunLaws {
  import opened ExchangeTypes
  import opened PriceTime
  import opened BookLaws
  import opened MatchingLaws
  import opened Risk
  import opened RiskLaws
  import opened LimitLaws
  import Wire
  import opened Exchanges
  import opened ExchangeLaws

  type Byte = Wire.Byte

  // Other symbols do not notice a command.
  lemma {:induction false} OthersStayOk(before: map<Key, Working>, after: map<Key, Working>, s: Symbol, t: Symbol, inst: Instrument)
    requires InstrumentOk(before, t, inst) && SameElsewhere(before, after, s) && s != t
    ensures InstrumentOk(after, t, inst)
  {
    forall k: Key | k.symbol == t
      ensures Lookup(after, k) == Expected(inst.owners, inst.book.ById(), k)
    {
      assert Lookup(after, k) == Lookup(before, k);
    }
  }

  lemma {:induction false} AgreeAgain(x: Exchange, x': Exchange, s: Symbol)
    requires Agree(x)
    requires x'.instruments == x.instruments[s := InstrumentOf(x', s)]
    requires SameElsewhere(x.risk.working, x'.risk.working, s)
    requires InstrumentOk(x'.risk.working, s, InstrumentOf(x', s))
    requires Sound(x'.risk) && WithinLimits(x'.risk) && x'.risk.limits == x.risk.limits
    ensures Agree(x')
  {
    forall t
      ensures InstrumentOk(x'.risk.working, t, InstrumentOf(x', t))
    {
      assert InstrumentOk(x.risk.working, t, InstrumentOf(x, t));
      if t != s {
        OthersStayOk(x.risk.working, x'.risk.working, s, t, InstrumentOf(x, t));
      }
    }
  }

  lemma {:induction false} NewOrderKeepsAgreement(x: Exchange, socket: int, h: Wire.Header, body: seq<Byte>)
    requires Agree(x)
    ensures var x' := NewOrder(x, socket, h, body).state; Agree(x') && SameSettings(x.risk, x'.risk)
  {
    hide AdmitNewOrder, Agree, Wire.SymbolText;
    var q := Wire.DecodeNewOrder(body);
    if h.bodySize == Wire.NEW_ORDER_BODY_SIZE && q.Some? && q.value.quantity < QUANTITY_RANGE && Wire.SymbolText(q.value.symbol) != "" {
      AdmissionKeepsAgreement(x, socket, Wire.SymbolText(q.value.symbol), Replays.OrderOf(q.value), h, body);
    }
  }

  lemma {:induction false} AdmissionKeepsAgreement(x: Exchange, socket: int, s: Symbol, o: Order, h: Wire.Header, body: seq<Byte>)
    requires Agree(x) && o.remaining > 0
    ensures var x' := AdmitNewOrder(x, socket, s, o, h, body).state; Agree(x') && SameSettings(x.risk, x'.risk)
  {
    var inst := InstrumentOf(x, s);
    var known := x.(instruments := x.instruments[s := inst]);
    assert InstrumentOk(x.risk.working, s, inst);
    var request := RiskRequest(ClientOn(x, socket), s, o, inst.book);
    if o.id in inst.book.ById() || o.id in inst.owners || CheckNew(x.risk, request) != Accept {
      AgreeAgain(x, known, s);
    } else {
      AcceptedNewHasRoom(x.risk, request);
      AcceptedNewKeepsAgreement(x, s, Owner(socket, ClientOn(x, socket)), o, Journaled(known, h, body));
    }
  }

  lemma {:induction false} AcceptedNewKeepsAgreement(x: Exchange, s: Symbol, sender: Owner, o: Order, ready: Exchange)
    requires Agree(x) && o.remaining > 0
    requires ready == x.(instruments := x.instruments[s := InstrumentOf(x, s)], journal := ready.journal)
    requires o.id !in InstrumentOf(x, s).book.ById()
    requires Room(x.risk, sender.client, s, o.side, o.remaining)
    requires MayRest(o) ==> RoomToRest(x.risk, sender.client, o.remaining)
    ensures var x' := Complete(ready, s, sender, o.id, Process(InstrumentOf(x, s).book, o), None).0;
      Agree(x') && SameSettings(x.risk, x'.risk)
  {
    var b := InstrumentOf(x, s).book;
    assert InstrumentOk(x.risk.working, s, InstrumentOf(x, s));
    CompleteKeeps(ready, s, sender, b, o, None);
    var x' := Complete(ready, s, sender, o.id, Process(b, o), None).0;
    PutTwice(x, ready, x', s);
    AgreeAgain(x, x', s);
  }

  lemma PutTwice(x: Exchange, ready: Exchange, x': Exchange, s: Symbol)
    requires ready.instruments == x.instruments[s := InstrumentOf(x, s)]
    requires x'.instruments == ready.instruments[s := InstrumentOf(x', s)]
    ensures x'.instruments == x.instruments[s := InstrumentOf(x', s)]
  {
  }

  // Once an order is withdrawn, no client has it working and nobody else's changes.
  lemma {:induction false} WithdrawnMirrors(working: map<Key, Working>, s: Symbol, owners: map<OrderId, Owner>,
                                            index: map<OrderId, Order>, key: Key)
    requires MirrorsAt(working, s, owners, index)
    requires key.symbol == s && key.id in owners && owners[key.id].client == key.client
    ensures MirrorsAt(working - {key}, s, owners, index - {key.id})
    ensures MirrorsAt(working - {key}, s, owners - {key.id}, index - {key.id})
    ensures SameElsewhere(working, working - {key}, s)
  {
    forall k: Key | k.symbol == s
      ensures Lookup(working - {key}, k) == Expected(owners, index - {key.id}, k)
      ensures Lookup(working - {key}, k) == Expected(owners - {key.id}, index - {key.id}, k)
    {
      assert Lookup(working, k) == Expected(owners, index, k);
    }
  }

  // Cancelling for the risk engine takes the key out, tracked client or not.
  lemma {:induction false} CancelledKey(r: RiskState, key: Key)
    requires Sound(r) && WithinLimits(r)
    ensures var r' := OrderCancelled(r, key);
      && Sound(r') && WithinLimits(r') && SameSettings(r, r') && SamePositions(r, r')
      && r'.working == r.working - {key}
  {
    CancelLowers(r, key);
    LowerStaysWithin(r, OrderCancelled(r, key), NO_CLIENT, key.symbol, Buy, 0);
  }

  lemma {:induction false} CancelKeepsAgreement(x: Exchange, socket: int, h: Wire.Header, body: seq<Byte>)
    requires Agree(x)
    ensures var x' := CancelOrder(x, socket, h, body).state; Agree(x') && SameSettings(x.risk, x'.risk)
  {
    hide Cancel, OrderCancelled, Sound, WithinLimits, Modest;
    var q := Wire.DecodeCancelOrder(body);
    if h.bodySize == Wire.CANCEL_ORDER_BODY_SIZE && q.Some? {
      var s := Wire.SymbolText(q.value.symbol);
      var sender := Owner(socket, ClientOn(x, socket));
      var id := q.value.id;
      if MayTouch(x, s, id, sender) {
        var inst := x.instruments[s];
        var key := Key(sender.client, s, id);
        assert InstrumentOk(x.risk.working, s, InstrumentOf(x, s));
        CancelledKey(x.risk, key);
        CancelRemovesExactly(inst.book, id);
        WithdrawnMirrors(x.risk.working, s, inst.owners, inst.book.ById(), key);
        AgreeAgain(x, CancelOrder(x, socket, h, body).state, s);
      }
    }
  }

  lemma {:induction false} ReplaceKeepsAgreement(x: Exchange, socket: int, h: Wire.Header, body: seq<Byte>)
    requires Agree(x)
    ensures var x' := ReplaceOrder(x, socket, h, body).state; Agree(x') && SameSettings(x.risk, x'.risk)
  {
    hide Agree, Complete, Replace, CheckReplace, Book.ById, OrderCancelled, Wire.SymbolText;
    var q := Wire.DecodeReplaceOrder(body);
    if h.bodySize == Wire.REPLACE_ORDER_BODY_SIZE && q.Some? && q.value.quantity < QUANTITY_RANGE {
      var s := Wire.SymbolText(q.value.symbol);
      var sender := Owner(socket, ClientOn(x, socket));
      var key := Key(sender.client, s, q.value.id);
      if MayTouch(x, s, q.value.id, sender) && CheckReplace(x.risk, key, q.value.price, q.value.quantity) == Accept {
        AcceptedReplaceKeepsAgreement(x, s, sender, q.value, Journaled(x, h, body));
      }
    }
  }

  lemma {:induction false} AcceptedReplaceKeepsAgreement(x: Exchange, s: Symbol, sender: Owner, q: Wire.ReplaceOrderRequest, journaled: Exchange)
    requires Agree(x) && MayTouch(x, s, q.id, sender) && q.quantity > 0
    requires CheckReplace(x.risk, Key(sender.client, s, q.id), q.price, q.quantity) == Accept
    requires journaled == x.(journal := journaled.journal)
    ensures var withdrawn := journaled.(risk := OrderCancelled(x.risk, Key(sender.client, s, q.id)));
      var r := Replace(x.instruments[s].book, q.id, q.price, q.quantity, q.timestamp);
      var x' := Complete(withdrawn, s, sender, q.id, r, Some(q.id)).0;
      Agree(x') && SameSettings(x.risk, x'.risk)
  {
    var inst := x.instruments[s];
    var key := Key(sender.client, s, q.id);
    var resting := inst.book.ById()[q.id];
    var o := Replacement(resting, q.price, q.quantity, q.timestamp);
    var b := Cancel(inst.book, q.id);
    assert InstrumentOk(x.risk.working, s, InstrumentOf(x, s));
    AcceptedReplaceHasRoom(x.risk, key, q.price, q.quantity);
    assert Lookup(x.risk.working, key) == Expected(inst.owners, inst.book.ById(), key);
    LocateId(inst.book, q.id);
    CancelRemovesExactly(inst.book, q.id);
    WithdrawnMirrors(x.risk.working, s, inst.owners, inst.book.ById(), key);
    var withdrawn := journaled.(risk := OrderCancelled(x.risk, key));
    CompleteKeeps(withdrawn, s, sender, b, o, Some(q.id));
    var x' := Complete(withdrawn, s, sender, q.id, Process(b, o), Some(q.id)).0;
    ComposeElsewhere(x.risk.working, withdrawn.risk.working, x'.risk.working, s);
    AgreeAgain(x, x', s);
  }

  // ---- Runs --------------------------------------------------------------------------------------

  // Everything that can happen to the exchange; messages arrive framed (see Framing).
  datatype Input =
    | Connected(socket: int)
    | Disconnected(socket: int)
    | KillSwitch(enabled: bool)
    | Received(socket: int, header: Wire.Header, body: seq<Byte>)

  function Handle(x: Exchange, socket: int, h: Wire.Header, body: seq<Byte>): (Exchange, Option<Effects>) {
    if h.kind == Wire.NEW_ORDER then var step := NewOrder(x, socket, h, body); (step.state, step.effects)
    else if h.kind == Wire.CANCEL_ORDER then var step := CancelOrder(x, socket, h, body); (step.state, step.effects)
    else if h.kind == Wire.REPLACE_ORDER then var step := ReplaceOrder(x, socket, h, body); (step.state, step.effects)
    else (x, None)
  }

  function React(x: Exchange, input: Input): (Exchange, Option<Effects>) {
    match input
    case Connected(socket) => (Connect(x, socket), None)
    case Disconnected(socket) => (Disconnect(x, socket), None)
    case KillSwitch(enabled) => (SetGlobalKillSwitch(x, enabled), None)
    case Received(socket, header, body) => Handle(x, socket, header, body)
  }

  function Run(x: Exchange, inputs: seq<Input>): Exchange
    decreases |inputs|
  {
    if inputs == [] then x else Run(React(x, inputs[0]).0, inputs[1..])
  }

  lemma {:induction false} HandleKeepsAgreement(x: Exchange, socket: int, h: Wire.Header, body: seq<Byte>)
    requires Agree(x)
    ensures var x' := Handle(x, socket, h, body).0; Agree(x') && SameSettings(x.risk, x'.risk)
  {
    hide Agree, NewOrder, CancelOrder, ReplaceOrder;
    NewOrderKeepsAgreement(x, socket, h, body);
    CancelKeepsAgreement(x, socket, h, body);
    ReplaceKeepsAgreement(x, socket, h, body);
  }

  // Sessions come and go, and the switch is thrown, without touching books or exposures.
  lemma {:induction false} AgreementUnmoved(x: Exchange, x': Exchange)
    requires Agree(x) && x'.instruments == x.instruments
    requires x'.risk == x.risk.(globalKill := x'.risk.globalKill)
    ensures Agree(x')
  {
    hide InstrumentOk, Sum, Modest;
    assert forall m: Measure :: Cached(x'.risk, m) == Cached(x.risk, m);
    assert forall c, s, side :: Exposure(x'.risk, c, s, side) == Exposure(x.risk, c, s, side);
    forall s
      ensures InstrumentOk(x'.risk.working, s, InstrumentOf(x', s))
    {
      assert InstrumentOf(x', s) == InstrumentOf(x, s);
    }
  }

  lemma {:induction false} ReactKeepsAgreement(x: Exchange, input: Input)
    requires Agree(x)
    ensures Agree(React(x, input).0) && React(x, input).0.risk.limits == x.risk.limits
  {
    hide Agree, Handle;
    match input
    case Received(socket, header, body) => HandleKeepsAgreement(x, socket, header, body);
    case _ => AgreementUnmoved(x, React(x, input).0);
  }

  /**
   In every run, by any clients and with any messages, every client's position and open orders
   in every symbol stay within the limits, and the five structures agree.
   */
  lemma {:induction false} RunKeepsAgreement(x: Exchange, inputs: seq<Input>)
    requires Agree(x)
    ensures Agree(Run(x, inputs))
    ensures Run(x, inputs).risk.limits == x.risk.limits
    decreases |inputs|
  {
    if inputs != [] {
      ReactKeepsAgreement(x, inputs[0]);
      RunKeepsAgreement(React(x, inputs[0]).0, inputs[1..]);
    }
  }

  // An exchange as first started, with nothing to recover.
  function Initial(limits: Limits, journal: Option<seq<Byte>>): Exchange {
    Exchange(map[], RiskState(limits, false, map[], map[]), map[], 1, journal)
  }

  lemma {:induction false} InitialAgrees(limits: Limits, journal: Option<seq<Byte>>)
    requires Modest(limits)
    ensures Agree(Initial(limits, journal))
  {
    var x := Initial(limits, journal);
    forall m: Measure ensures Cached(x.risk, m) == Sum(x.risk.working, m) {}
    forall s ensures InstrumentOk(x.risk.working, s, InstrumentOf(x, s)) {
      assert InstrumentOf(x, s) == NEW_INSTRUMENT;
    }
  }

  // An exchange as started: recovered books without owners, a fresh risk engine, no sessions.
  function Started(books: map<Symbol, Book>, limits: Limits, journal: Option<seq<Byte>>): Exchange {
    Exchange(map s | s in books :: Instrument(books[s], map[]), RiskState(limits, false, map[], map[]), map[], 1, journal)
  }

  lemma {:induction false} StartedAgrees(books: map<Symbol, Book>, limits: Limits, journal: Option<seq<Byte>>)
    requires Modest(limits) && forall s :: s in books ==> WellFormed(books[s])
    ensures Agree(Started(books, limits, journal))
  {
    var x := Started(books, limits, journal);
    forall m: Measure ensures Cached(x.risk, m) == Sum(x.risk.working, m) {}
    forall s ensures InstrumentOk(x.risk.working, s, InstrumentOf(x, s)) {
      if s !in books {
        assert InstrumentOf(x, s) == NEW_INSTRUMENT;
      }
    }
  }

  /**
   Spelled out for a run from a start: projected positions in both directions, hence positions,
   and the open orders and quantities of every client.
   */
  lemma {:induction false} LimitsHoldInEveryRun(books: map<Symbol, Book>, limits: Limits, journal: Option<seq<Byte>>, inputs: seq<Input>,
                                                c: ClientId, s: Symbol)
    requires Modest(limits) && forall s :: s in books ==> WellFormed(books[s])
    ensures var r := Run(Started(books, limits, journal), inputs).risk;
      var state := SymbolOf(r, c, s);
      && state.position + state.openBuy <= limits.maxPosition
      && -state.position + state.openSell <= limits.maxPosition
      && -(limits.maxPosition as int) <= state.position <= limits.maxPosition
      && ClientOf(r, c).openOrders <= limits.maxOpenOrders
      && ClientOf(r, c).gross <= limits.maxOpenQuantity
  {
    StartedAgrees(books, limits, journal);
    RunKeepsAgreement(Started(books, limits, journal), inputs);
    var r := Run(Started(books, limits, journal), inputs).risk;
    assert Exposure(r, c, s, Buy) <= r.limits.maxPosition;
    assert Exposure(r, c, s, Sell) <= r.limits.maxPosition;
    assert Cached(r, Count(c)) <= r.limits.maxOpenOrders;
    assert Cached(r, Gross(c)) <= r.limits.maxOpenQuantity;
  }
}
