/**
 Why the level totals do not wrap: the orders of sessions stay within their open quantity, and
 recovered orders, which nobody owns, only shrink. So the number of sessions times that limit, and
 what was recovered at a price, bound every total.
 */
module RoomLaws {
  import opened ExchangeTypes
  import opened PriceTime
  import opened BookLaws
  import opened MatchingLaws
  import opened Risk
  import opened RiskLaws
  import opened LimitLaws
  import Wire
  import opened Exchanges
  import opened ExchangeLaws
  import opened RunLaws
  import opened BalanceLaws

  type Byte = Wire.Byte

  // The 32-bit level totals of the book a command leaves do not wrap.
  ghost predicate Roomy(effects: Option<Effects>) {
    effects.Some? ==> Narrow(effects.value.book)
  }

  // The same along a run: no book a message leaves overflows a level total.
  ghost predicate AllRoomy(x: Exchange, inputs: seq<Input>)
    decreases |inputs|
  {
    inputs == [] || (Roomy(React(x, inputs[0]).1) && AllRoomy(React(x, inputs[0]).0, inputs[1..]))
  }

  // What all sessions below n have working, together.
  ghost function WorkingBelow(working: map<Key, Working>, n: nat): nat {
    if n <= 1 then 0 else WorkingBelow(working, n - 1) + Sum(working, Gross(n - 1))
  }

  lemma {:induction false} WorkingWithout(working: map<Key, Working>, k: Key, n: nat)
    requires k in working && k.client != NO_CLIENT
    ensures WorkingBelow(working, n) == WorkingBelow(working - {k}, n) + if k.client < n then working[k].remaining else 0
  {
    if n > 1 {
      WorkingWithout(working, k, n - 1);
      SumWithout(working, k, Gross(n - 1));
    }
  }

  // What is left of a recovered order: nothing but its quantity has changed, and that not upwards.
  predicate Fades(o: Order, was: Order) {
    o == was.(remaining := o.remaining) && o.remaining <= was.remaining
  }

  // Every order belongs to a session or was recovered.
  ghost predicate Rooted(index: map<OrderId, Order>, owners: map<OrderId, Owner>, recovered: map<OrderId, Order>, n: nat) {
    forall id :: id in index ==>
      if id in owners then Session(owners[id].client, n) else id in recovered && Fades(index[id], recovered[id])
  }

  // Each order of the queue is a working order of some session's, or left of a recovered one.
  ghost predicate Covered(working: map<Key, Working>, s: Symbol, owners: map<OrderId, Owner>, queue: seq<Order>,
                          recovered: seq<Order>, n: nat)
  {
    forall i :: 0 <= i < |queue| ==>
      var o := queue[i];
      if o.id in owners
      then Session(owners[o.id].client, n) && Lookup(working, Key(owners[o.id].client, s, o.id)) == Some(AsWorking(o))
      else o.id in Index(recovered) && Fades(o, Index(recovered)[o.id])
  }

  lemma {:induction false} QuantityWithout(side: Side, queue: seq<Order>, id: OrderId, p: Price)
    requires SideOk(side, queue) && id in Index(queue)
    ensures QuantityAt(queue, p) == QuantityAt(Remove(id, queue), p) +
      if Index(queue)[id].price == p then Index(queue)[id].remaining else 0
  {
    if queue[0].id != id {
      QuantityWithout(side, queue[1..], id, p);
      assert ([queue[0]] + Remove(id, queue[1..]))[1..] == Remove(id, queue[1..]);
    }
  }

  lemma {:induction false} QueueIsCovered(working: map<Key, Working>, s: Symbol, owners: map<OrderId, Owner>, side: Side,
                                          queue: seq<Order>, recovered: seq<Order>, n: nat, p: Price)
    requires SideOk(side, queue) && SideOk(side, recovered) && Covered(working, s, owners, queue, recovered, n)
    ensures QuantityAt(queue, p) <= WorkingBelow(working, n) + QuantityAt(recovered, p)
    decreases |queue|
  {
    hide SideOk, WorkingBelow, Fades;
    if queue != [] {
      assert SideOk(side, queue[1..]) && queue[0].id !in Index(queue[1..]) by { HeadIsAlone(side, queue); }
      OthersDiffer(side, queue);
      if queue[0].id in owners {
        var k := Key(owners[queue[0].id].client, s, queue[0].id);
        CoveredWithout(working, s, owners, queue, recovered, n);
        QueueIsCovered(working - {k}, s, owners, side, queue[1..], recovered, n, p);
        WorkingWithout(working, k, n);
      } else {
        var id := queue[0].id;
        RemoveKeepsSideOk(id, side, recovered);
        QuantityWithout(side, recovered, id, p);
        FadedIsLess(queue[0], Index(recovered)[id]);
        assert Covered(working, s, owners, queue[1..], Remove(id, recovered), n) by {
          CoveredBehind(working, s, owners, queue, recovered, n);
        }
        QueueIsCovered(working, s, owners, side, queue[1..], Remove(id, recovered), n, p);
      }
    }
  }

  lemma HeadIsAlone(side: Side, queue: seq<Order>)
    requires SideOk(side, queue) && queue != []
    ensures SideOk(side, queue[1..]) && queue[0].id !in Index(queue[1..])
  {
  }

  lemma FadedIsLess(o: Order, was: Order)
    requires Fades(o, was)
    ensures o.price == was.price && o.remaining <= was.remaining
  {
  }

  lemma {:induction false} OthersDiffer(side: Side, queue: seq<Order>)
    requires SideOk(side, queue) && queue != []
    ensures forall i :: 0 < i < |queue| ==> queue[i].id != queue[0].id
  {
    forall i | 0 < i < |queue|
      ensures queue[i].id != queue[0].id
    {
      IndexHolds(side, queue[1..], i - 1);
    }
  }

  lemma {:induction false} CoveredWithout(working: map<Key, Working>, s: Symbol, owners: map<OrderId, Owner>, queue: seq<Order>,
                                          recovered: seq<Order>, n: nat)
    requires Covered(working, s, owners, queue, recovered, n) && queue != [] && queue[0].id in owners
    requires forall i :: 0 < i < |queue| ==> queue[i].id != queue[0].id
    ensures var k := Key(owners[queue[0].id].client, s, queue[0].id);
      && k in working && working[k] == AsWorking(queue[0]) && Session(k.client, n)
      && Covered(working - {k}, s, owners, queue[1..], recovered, n)
  {
    hide Fades;
    assert Covered(working, s, owners, queue, recovered, n) && queue[0] in queue;
    var k := Key(owners[queue[0].id].client, s, queue[0].id);
    assert Lookup(working, k) == Some(AsWorking(queue[0]));
    forall i | 0 <= i < |queue[1..]|
      ensures var o := queue[1..][i];
        if o.id in owners
        then Session(owners[o.id].client, n) && Lookup(working - {k}, Key(owners[o.id].client, s, o.id)) == Some(AsWorking(o))
        else o.id in Index(recovered) && Fades(o, Index(recovered)[o.id])
    {
      assert queue[1..][i] == queue[i + 1];
    }
  }

  lemma {:induction false} CoveredBehind(working: map<Key, Working>, s: Symbol, owners: map<OrderId, Owner>, queue: seq<Order>,
                                         recovered: seq<Order>, n: nat)
    requires Covered(working, s, owners, queue, recovered, n) && queue != []
    requires forall i :: 0 < i < |queue| ==> queue[i].id != queue[0].id
    requires Index(Remove(queue[0].id, recovered)) == Index(recovered) - {queue[0].id}
    ensures Covered(working, s, owners, queue[1..], Remove(queue[0].id, recovered), n)
  {
    hide Fades, Index, Remove;
    forall i | 0 <= i < |queue[1..]|
      ensures var o := queue[1..][i];
        if o.id in owners
        then Session(owners[o.id].client, n) && Lookup(working, Key(owners[o.id].client, s, o.id)) == Some(AsWorking(o))
        else o.id in Index(Remove(queue[0].id, recovered)) && Fades(o, Index(Remove(queue[0].id, recovered))[o.id])
    {
      assert queue[1..][i] == queue[i + 1];
    }
  }

  lemma {:induction false} WorkingIsLimited(r: RiskState, n: nat)
    requires Sound(r) && WithinLimits(r) && n > 0
    ensures WorkingBelow(r.working, n) <= (n - 1) * r.limits.maxOpenQuantity
  {
    if n > 1 {
      WorkingIsLimited(r, n - 1);
      assert Sum(r.working, Gross(n - 1)) == Cached(r, Gross(n - 1)) <= r.limits.maxOpenQuantity;
      assert (n - 1) * r.limits.maxOpenQuantity == (n - 2) * r.limits.maxOpenQuantity + r.limits.maxOpenQuantity;
    }
  }

  // Sessions are numbered, and every order is a session's or a recovered one.
  ghost predicate Founded(x: Exchange, recovered: map<Symbol, Book>) {
    && x.nextClient > 0
    && (forall socket :: socket in x.sessions ==> Session(x.sessions[socket], x.nextClient))
    && (forall s :: WellFormed(Replays.BookOf(recovered, s)))
    && (forall s :: Rooted(InstrumentOf(x, s).book.ById(), InstrumentOf(x, s).owners, Replays.BookOf(recovered, s).ById(), x.nextClient))
  }

  // What the sessions so far may have open, all together, fits a level total beside what was recovered.
  ghost predicate FewSessions(x: Exchange, recovered: map<Symbol, Book>) {
    && x.nextClient > 0
    && forall s, side, p: Price ::
         (x.nextClient - 1) * x.risk.limits.maxOpenQuantity + QuantityAt(Replays.BookOf(recovered, s).Queue(side), p) < QUANTITY_RANGE
  }

  lemma {:induction false} SideIsNarrow(x: Exchange, recovered: map<Symbol, Book>, s: Symbol, side: Side, p: Price)
    requires Agree(x) && Founded(x, recovered) && FewSessions(x, recovered)
    ensures QuantityAt(InstrumentOf(x, s).book.Queue(side), p) < QUANTITY_RANGE
  {
    var inst := InstrumentOf(x, s);
    var queue, was := inst.book.Queue(side), Replays.BookOf(recovered, s);
    assert InstrumentOk(x.risk.working, s, inst) && Rooted(inst.book.ById(), inst.owners, was.ById(), x.nextClient);
    QueueIsRooted(x.risk.working, s, inst, was, side, x.nextClient);
    QueueIsCovered(x.risk.working, s, inst.owners, side, queue, was.Queue(side), x.nextClient, p);
    WorkingIsLimited(x.risk, x.nextClient);
  }

  lemma {:induction false} QueueIsRooted(working: map<Key, Working>, s: Symbol, inst: Instrument, was: Book, side: Side, n: nat)
    requires InstrumentOk(working, s, inst) && WellFormed(was) && Rooted(inst.book.ById(), inst.owners, was.ById(), n)
    ensures Covered(working, s, inst.owners, inst.book.Queue(side), was.Queue(side), n)
  {
    hide SideOk, Fades, MirrorsAt, Coherent, Index;
    var queue := inst.book.Queue(side);
    ByIdIsBijective(inst.book);
    RestsOnSide(inst.book, side);
    forall i | 0 <= i < |queue|
      ensures var o := queue[i];
        if o.id in inst.owners
        then Session(inst.owners[o.id].client, n) && Lookup(working, Key(inst.owners[o.id].client, s, o.id)) == Some(AsWorking(o))
        else o.id in Index(was.Queue(side)) && Fades(o, Index(was.Queue(side))[o.id])
    {
      var o := queue[i];
      if o.id in inst.owners {
        var k := Key(inst.owners[o.id].client, s, o.id);
        MirrorsMeans(working, s, inst.owners, inst.book.ById(), k);
      } else {
        assert Fades(o, was.ById()[o.id]);
        SameSide(o, was.ById()[o.id]);
        LocateId(was, o.id);
      }
    }
  }

  lemma MirrorsMeans(working: map<Key, Working>, s: Symbol, owners: map<OrderId, Owner>, index: map<OrderId, Order>, k: Key)
    requires MirrorsAt(working, s, owners, index) && k.symbol == s
    ensures Lookup(working, k) == Expected(owners, index, k)
  {
  }

  lemma {:induction false} RestsOnSide(b: Book, side: Side)
    requires Coherent(b)
    ensures forall i :: 0 <= i < |b.Queue(side)| ==> b.Queue(side)[i].side == side
  {
    var queue := b.Queue(side);
    forall i | 0 <= i < |queue|
      ensures queue[i].side == side
    {
      IndexHolds(side, queue, i);
      IndexRests(side, queue, queue[i].id);
    }
  }

  lemma SameSide(o: Order, was: Order)
    requires Fades(o, was)
    ensures was.side == o.side
  {
  }

  /** Every book is narrow while what the sessions so far may have open fits beside what was recovered. */
  lemma {:induction false} BooksAreNarrow(x: Exchange, recovered: map<Symbol, Book>, s: Symbol)
    requires Agree(x) && Founded(x, recovered) && FewSessions(x, recovered)
    ensures Narrow(InstrumentOf(x, s).book)
  {
    forall p: Price
      ensures QuantityAt(InstrumentOf(x, s).book.bids, p) < QUANTITY_RANGE
      ensures QuantityAt(InstrumentOf(x, s).book.asks, p) < QUANTITY_RANGE
    {
      SideIsNarrow(x, recovered, s, Buy, p);
      SideIsNarrow(x, recovered, s, Sell, p);
    }
  }

  // ---- Recovered orders only shrink ------------------------------------------------------------------

  lemma FoundedAgain(x: Exchange, x': Exchange, recovered: map<Symbol, Book>, s: Symbol)
    requires Founded(x, recovered) && x'.sessions == x.sessions && x'.nextClient == x.nextClient
    requires x'.instruments == x.instruments[s := InstrumentOf(x', s)]
    requires Rooted(InstrumentOf(x', s).book.ById(), InstrumentOf(x', s).owners, Replays.BookOf(recovered, s).ById(), x.nextClient)
    ensures Founded(x', recovered)
  {
    hide Rooted, WellFormed, Book.ById;
    forall t
      ensures Rooted(InstrumentOf(x', t).book.ById(), InstrumentOf(x', t).owners, Replays.BookOf(recovered, t).ById(), x'.nextClient)
    {
      assert Rooted(InstrumentOf(x, t).book.ById(), InstrumentOf(x, t).owners, Replays.BookOf(recovered, t).ById(), x.nextClient);
    }
  }

  lemma {:induction false} ConsumedFades(index: map<OrderId, Order>, trades: seq<Trade>, incoming: Side, id: OrderId)
    requires id in ConsumeAll(index, trades, incoming)
    ensures id in index && Fades(ConsumeAll(index, trades, incoming)[id], index[id])
    decreases |trades|
  {
    if trades != [] {
      ConsumedFades(Consume(index, RestingId(trades[0], incoming), trades[0].quantity), trades[1..], incoming, id);
    }
  }

  lemma FadesOn(o: Order, was: Order, first: Order)
    requires Fades(o, was) && Fades(was, first)
    ensures Fades(o, first)
  {
  }

  lemma {:induction false} StaysRooted(b: Book, o: Order, owners: map<OrderId, Owner>, sender: Owner, recovered: map<OrderId, Order>, n: nat)
    requires Coherent(b) && o.id !in b.ById() && o.remaining > 0
    requires Rooted(b.ById(), owners, recovered, n) && Session(sender.client, n)
    ensures var r := Process(b, o);
      var after := r.book.ById();
      var filled := FilledBy(r.trades, o.id, after);
      Rooted(after, if o.id in after then (owners - filled)[o.id := sender] else owners - filled - {o.id}, recovered, n)
  {
    hide Process, Book.ById, FilledBy, Coherent, ConsumeAll, Fades;
    var r := Process(b, o);
    var after := r.book.ById();
    var filled := FilledBy(r.trades, o.id, after);
    RemainderIsWhatIsLeft(b, o);
    FilledIsGone(r.trades, o.id, after);
    var owners' := if o.id in after then (owners - filled)[o.id := sender] else owners - filled - {o.id};
    forall id | id in after
      ensures if id in owners' then Session(owners'[id].client, n) else id in recovered && Fades(after[id], recovered[id])
    {
      if id != o.id {
        ConsumedFades(b.ById(), r.trades, o.side, id);
        if id !in owners {
          FadesOn(after[id], b.ById()[id], recovered[id]);
        }
      }
    }
  }

  // Completing an order from a session, new or replaced.
  lemma {:induction false} CompleteFounded(x: Exchange, recovered: map<Symbol, Book>, s: Symbol, sender: Owner, b: Book, o: Order,
                                           withdrawn: Option<OrderId>)
    requires Founded(x, recovered) && Session(sender.client, x.nextClient)
    requires Coherent(b) && o.id !in b.ById() && o.remaining > 0
    requires Rooted(b.ById(), InstrumentOf(x, s).owners, Replays.BookOf(recovered, s).ById(), x.nextClient)
    ensures Founded(Complete(x, s, sender, o.id, Process(b, o), withdrawn).0, recovered)
  {
    hide Complete, Process, Rooted, Founded, FilledBy, Book.ById, Coherent;
    var x' := Complete(x, s, sender, o.id, Process(b, o), withdrawn).0;
    CompleteParts(x, s, sender, o.id, Process(b, o), withdrawn);
    StaysRooted(b, o, InstrumentOf(x, s).owners, sender, Replays.BookOf(recovered, s).ById(), x.nextClient);
    FoundedAgain(x, x', recovered, s);
  }

  lemma {:induction false} RootedAt(x: Exchange, recovered: map<Symbol, Book>, s: Symbol)
    requires Agree(x) && Founded(x, recovered)
    ensures Rooted(InstrumentOf(x, s).book.ById(), InstrumentOf(x, s).owners, Replays.BookOf(recovered, s).ById(), x.nextClient)
    ensures WellFormed(InstrumentOf(x, s).book)
  {
    assert InstrumentOk(x.risk.working, s, InstrumentOf(x, s));
  }

  lemma {:induction false} NewOrderFounded(x: Exchange, recovered: map<Symbol, Book>, socket: int, h: Wire.Header, body: seq<Byte>)
    requires Agree(x) && Founded(x, recovered) && socket in x.sessions
    ensures Founded(NewOrder(x, socket, h, body).state, recovered)
  {
    hide AdmitNewOrder, Agree, Founded, Wire.SymbolText;
    var q := Wire.DecodeNewOrder(body);
    if h.bodySize == Wire.NEW_ORDER_BODY_SIZE && q.Some? && q.value.quantity < QUANTITY_RANGE && Wire.SymbolText(q.value.symbol) != "" {
      AdmissionFounded(x, recovered, socket, Wire.SymbolText(q.value.symbol), Replays.OrderOf(q.value), h, body);
    }
  }

  lemma {:induction false} AdmissionFounded(x: Exchange, recovered: map<Symbol, Book>, socket: int, s: Symbol, o: Order,
                                            h: Wire.Header, body: seq<Byte>)
    requires Agree(x) && Founded(x, recovered) && socket in x.sessions && o.remaining > 0
    ensures Founded(AdmitNewOrder(x, socket, s, o, h, body).state, recovered)
  {
    hide Agree, Complete, Process, CheckNew, ReferencePrice, Book.ById, Rooted;
    var inst := InstrumentOf(x, s);
    var known := x.(instruments := x.instruments[s := inst]);
    RootedAt(x, recovered, s);
    FoundedAgain(x, known, recovered, s);
    if AdmitNewOrder(x, socket, s, o, h, body).reply.success {
      var ready := Journaled(known, h, body);
      FoundedAgain(known, ready, recovered, s);
      CompleteFounded(ready, recovered, s, Owner(socket, ClientOn(x, socket)), inst.book, o, None);
    }
  }

  lemma {:induction false} CancelFounded(x: Exchange, recovered: map<Symbol, Book>, socket: int, h: Wire.Header, body: seq<Byte>)
    requires Agree(x) && Founded(x, recovered)
    ensures Founded(CancelOrder(x, socket, h, body).state, recovered)
  {
    hide Agree, Cancel, OrderCancelled, Book.ById, Rooted, Wire.DecodeCancelOrder, Wire.SymbolText;
    var step := CancelOrder(x, socket, h, body);
    if step.reply.success {
      var q := Wire.DecodeCancelOrder(body).value;
      var s := Wire.SymbolText(q.symbol);
      RootedAt(x, recovered, s);
      CancelRemovesExactly(x.instruments[s].book, q.id);
      WithoutIsRooted(x.instruments[s].book.ById(), x.instruments[s].owners, Replays.BookOf(recovered, s).ById(), x.nextClient, q.id);
      FoundedAgain(x, step.state, recovered, s);
    }
  }

  lemma WithoutIsRooted(index: map<OrderId, Order>, owners: map<OrderId, Owner>, recovered: map<OrderId, Order>, n: nat, id: OrderId)
    requires Rooted(index, owners, recovered, n)
    ensures Rooted(index - {id}, owners - {id}, recovered, n) && Rooted(index - {id}, owners, recovered, n)
  {
    hide Fades;
  }

  lemma {:induction false} ReplaceFounded(x: Exchange, recovered: map<Symbol, Book>, socket: int, h: Wire.Header, body: seq<Byte>)
    requires Agree(x) && Founded(x, recovered) && socket in x.sessions
    ensures Founded(ReplaceOrder(x, socket, h, body).state, recovered)
  {
    hide Agree, CheckReplace, Complete, Process, Cancel, OrderCancelled, Book.ById, Rooted, Wire.SymbolText;
    var step := ReplaceOrder(x, socket, h, body);
    if step.reply.success {
      var q := Wire.DecodeReplaceOrder(body).value;
      var s := Wire.SymbolText(q.symbol);
      var inst, sender := x.instruments[s], Owner(socket, ClientOn(x, socket));
      RootedAt(x, recovered, s);
      LocateId(inst.book, q.id);
      CancelRemovesExactly(inst.book, q.id);
      WithoutIsRooted(inst.book.ById(), inst.owners, Replays.BookOf(recovered, s).ById(), x.nextClient, q.id);
      var withdrawn := Journaled(x, h, body).(risk := OrderCancelled(x.risk, Key(sender.client, s, q.id)));
      assert InstrumentOf(withdrawn, s) == inst;
      FoundedAgain(x, withdrawn, recovered, s);
      CompleteFounded(withdrawn, recovered, s, sender, Cancel(inst.book, q.id),
                      Replacement(inst.book.ById()[q.id], q.price, q.quantity, q.timestamp), Some(q.id));
    }
  }

  lemma {:induction false} ReactFounded(x: Exchange, recovered: map<Symbol, Book>, input: Input)
    requires Agree(x) && Founded(x, recovered) && Live(x, input)
    ensures Founded(React(x, input).0, recovered)
  {
    hide Agree, NewOrder, CancelOrder, ReplaceOrder, Rooted, Book.ById, WellFormed;
    var x' := React(x, input).0;
    match input
    case Received(socket, h, body) =>
      NewOrderFounded(x, recovered, socket, h, body);
      CancelFounded(x, recovered, socket, h, body);
      ReplaceFounded(x, recovered, socket, h, body);
    case Connected(socket) => OneMoreSession(x, x', recovered);
    case Disconnected(_) => OneMoreSession(x, x', recovered);
    case KillSwitch(_) => OneMoreSession(x, x', recovered);
  }

  // Sessions come and go without touching orders.
  lemma {:induction false} OneMoreSession(x: Exchange, x': Exchange, recovered: map<Symbol, Book>)
    requires Founded(x, recovered) && x'.instruments == x.instruments && x'.nextClient >= x.nextClient
    requires forall socket :: socket in x'.sessions ==> Session(x'.sessions[socket], x'.nextClient)
    ensures Founded(x', recovered)
  {
    hide WellFormed, Book.ById, Fades;
    forall s
      ensures Rooted(InstrumentOf(x', s).book.ById(), InstrumentOf(x', s).owners, Replays.BookOf(recovered, s).ById(), x'.nextClient)
    {
      assert Rooted(InstrumentOf(x, s).book.ById(), InstrumentOf(x, s).owners, Replays.BookOf(recovered, s).ById(), x.nextClient);
      assert InstrumentOf(x', s) == InstrumentOf(x, s);
    }
  }

  // ---- Runs ------------------------------------------------------------------------------------------

  // The book a command announces is the one it leaves.
  lemma EffectsShowBook(x: Exchange, input: Input)
    requires React(x, input).1.Some?
    ensures var (x', effects) := React(x, input);
      InstrumentOf(x', effects.value.symbol).book == effects.value.book
  {
    hide Process, Replace, Cancel, SettleTrades, FilledBy, DeliveriesOf, CheckNew, CheckReplace, Book.ById, OrderResting, OrderCancelled;
  }

  lemma {:induction false} ReactSessions(x: Exchange, input: Input)
    ensures React(x, input).0.nextClient >= x.nextClient
  {
    hide Process, Replace, Cancel, SettleTrades, FilledBy, DeliveriesOf, CheckNew, CheckReplace, Book.ById, OrderResting, OrderCancelled;
  }

  lemma {:induction false} RunSessions(x: Exchange, inputs: seq<Input>)
    ensures RunLaws.Run(x, inputs).nextClient >= x.nextClient
    decreases |inputs|
  {
    hide React;
    if inputs != [] {
      ReactSessions(x, inputs[0]);
      RunSessions(React(x, inputs[0]).0, inputs[1..]);
    }
  }

  lemma FewerTimes(n: nat, m: nat, limit: nat)
    requires n <= m
    ensures n * limit <= m * limit
  {
    assert m * limit == n * limit + (m - n) * limit;
  }

  lemma {:induction false} FewerSessions(x: Exchange, y: Exchange, recovered: map<Symbol, Book>)
    requires 0 < x.nextClient <= y.nextClient && x.risk.limits == y.risk.limits && FewSessions(y, recovered)
    ensures FewSessions(x, recovered)
  {
    hide QuantityAt, Replays.BookOf;
    var limit := x.risk.limits.maxOpenQuantity;
    FewerTimes(x.nextClient - 1, y.nextClient - 1, limit);
    forall s, side, p: Price
      ensures (x.nextClient - 1) * limit + QuantityAt(Replays.BookOf(recovered, s).Queue(side), p) < QUANTITY_RANGE
    {
      assert (y.nextClient - 1) * limit + QuantityAt(Replays.BookOf(recovered, s).Queue(side), p) < QUANTITY_RANGE;
    }
  }

  /**
   Over every run of connected clients, also after a restart, no level total wraps as long as the
   number of sessions the run opens, times the open-quantity limit, fits 32 bits beside the quantity
   recovered at any one price.
   */
  lemma {:induction false} LiveRunsHaveRoom(x: Exchange, recovered: map<Symbol, Book>, inputs: seq<Input>)
    requires Agree(x) && Founded(x, recovered) && AllLive(x, inputs) && FewSessions(RunLaws.Run(x, inputs), recovered)
    ensures AllRoomy(x, inputs)
    decreases |inputs|
  {
    hide React, Agree, Founded, Live, Narrow, FewSessions;
    if inputs != [] {
      var (x', effects) := React(x, inputs[0]);
      ReactKeepsAgreement(x, inputs[0]);
      ReactFounded(x, recovered, inputs[0]);
      RunSessions(x', inputs[1..]);
      RunKeepsAgreement(x', inputs[1..]);
      SessionsCount(x', recovered);
      FewerSessions(x', RunLaws.Run(x, inputs), recovered);
      if effects.Some? {
        BooksAreNarrow(x', recovered, effects.value.symbol);
        EffectsShowBook(x, inputs[0]);
      }
      LiveRunsHaveRoom(x', recovered, inputs[1..]);
    }
  }

  lemma SessionsCount(x: Exchange, recovered: map<Symbol, Book>)
    requires Founded(x, recovered)
    ensures x.nextClient > 0
  {
  }

  /** So a start on any recovered books never leaves what the classes assume. */
  lemma {:induction false} StartedRunHasRoom(books: map<Symbol, Book>, limits: Limits, journal: Option<seq<Byte>>, inputs: seq<Input>)
    requires Modest(limits) && (forall s :: s in books ==> WellFormed(books[s]))
    requires AllLive(Started(books, limits, journal), inputs)
    requires FewSessions(RunLaws.Run(Started(books, limits, journal), inputs), books)
    ensures AllRoomy(Started(books, limits, journal), inputs)
  {
    StartedAgrees(books, limits, journal);
    StartedFounded(books, limits, journal);
    LiveRunsHaveRoom(Started(books, limits, journal), books, inputs);
  }

  lemma {:induction false} StartedFounded(books: map<Symbol, Book>, limits: Limits, journal: Option<seq<Byte>>)
    requires forall s :: s in books ==> WellFormed(books[s])
    ensures Founded(Started(books, limits, journal), books)
  {
    hide Book.ById;
    var x := Started(books, limits, journal);
    EmptyIsWellFormed();
    forall s
      ensures WellFormed(Replays.BookOf(books, s))
      ensures Rooted(InstrumentOf(x, s).book.ById(), InstrumentOf(x, s).owners, Replays.BookOf(books, s).ById(), x.nextClient)
    {
      assert InstrumentOf(x, s).book == Replays.BookOf(books, s) && InstrumentOf(x, s).owners == map[];
    }
  }

  lemma EmptyIsWellFormed()
    ensures WellFormed(EMPTY_BOOK)
  {
  }
}
