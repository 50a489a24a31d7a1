/** Replaying the journal rebuilds exactly the live books, after every command and every restart. */
module RecoveryLaws {
  import opened ExchangeTypes
  import opened PriceTime
  import opened BookLaws
  import opened MatchingLaws
  import opened Risk
  import opened LimitLaws
  import Wire
  import WireLaws
  import Journal
  import opened Replays
  import opened Exchanges
  import opened ExchangeLaws
  import opened RunLaws

  type Byte = Wire.Byte

  // Every record was accepted and the books agree symbol by symbol, a missing one being empty.
  ghost predicate Rebuilds(st: Replayed, x: Exchange) {
    && st.summary.rejected == 0 && st.summary.unsupported == 0
    && forall s :: BookOf(st.books, s) == InstrumentOf(x, s).book
  }

  ghost predicate Recoverable(x: Exchange) {
    match x.journal
    case None => true
    case Some(file) => Journal.Whole(file) && Replay(file).0 && Rebuilds(Replay(file).1, x)
  }

  // A message as the framing hands it over: a header that decoded and the body it announces.
  predicate Framed(input: Input) {
    input.Received? ==> Wire.ValidHeader(input.header) && |input.body| == input.header.bodySize
  }

  // What replay sees of a journaled message is the message.
  lemma {:induction false} RecordIsRead(h: Wire.Header, body: seq<Byte>)
    requires Wire.ValidHeader(h) && |body| == h.bodySize <= 43
    ensures var record := Wire.EncodeHeader(h) + body;
      && Journal.Recordable(record)
      && Wire.DecodeHeader(record[..Wire.HEADER_SIZE]) == Some(h)
      && record[Wire.HEADER_SIZE..] == body
  {
    WireLaws.HeaderRoundTrip(h);
    assert |Wire.EncodeHeader(h)| == Wire.HEADER_SIZE;
    assert (Wire.EncodeHeader(h) + body)[..Wire.HEADER_SIZE] == Wire.EncodeHeader(h);
  }

  // Replaying one more journaled message, when the books agreed before it.
  lemma {:induction false} MessageReplayed(x: Exchange, h: Wire.Header, body: seq<Byte>)
    requires Recoverable(x) && x.journal.Some?
    requires Wire.ValidHeader(h) && |body| == h.bodySize <= 43
    ensures Rebuilds(Replay(x.journal.value).1, x)
    ensures var file' := Journaled(x, h, body).journal.value;
      var st := Replay(x.journal.value).1;
      var counted := st.(summary := st.summary.(records := st.summary.records + 1));
      && Journal.Whole(file') && Replay(file').0
      && (h.kind == Wire.NEW_ORDER ==> Replay(file').1 == ApplyNewOrder(counted, body))
      && (h.kind == Wire.CANCEL_ORDER ==> Replay(file').1 == ApplyCancelOrder(counted, body))
      && (h.kind == Wire.REPLACE_ORDER ==> Replay(file').1 == ApplyReplaceOrder(counted, body))
  {
    RecordIsRead(h, body);
    ReplayAppended(x.journal.value, Wire.EncodeHeader(h) + body);
  }

  // Nothing a replay could see differs.
  ghost predicate SameBooks(x: Exchange, x': Exchange) {
    x'.journal == x.journal && forall s :: InstrumentOf(x', s).book == InstrumentOf(x, s).book
  }

  lemma SameBooksRecoverable(x: Exchange, x': Exchange)
    requires Recoverable(x) && SameBooks(x, x')
    ensures Recoverable(x')
  {
    hide Replay, Journal.Whole;
  }

  // A command that has no effects leaves books and journal alone.
  lemma {:induction false} RefusedKeepsBooks(x: Exchange, socket: int, h: Wire.Header, body: seq<Byte>)
    ensures NewOrder(x, socket, h, body).effects.None? ==> SameBooks(x, NewOrder(x, socket, h, body).state)
    ensures CancelOrder(x, socket, h, body).effects.None? ==> SameBooks(x, CancelOrder(x, socket, h, body).state)
    ensures ReplaceOrder(x, socket, h, body).effects.None? ==> SameBooks(x, ReplaceOrder(x, socket, h, body).state)
  {
    hide Complete, CheckNew, CheckReplace, Cancel, Process, Replace, Book.ById;
  }

  // What an accepted new order leaves in the journal and in the books.
  lemma {:induction false} AcceptedNewOrder(x: Exchange, socket: int, h: Wire.Header, body: seq<Byte>)
    requires NewOrder(x, socket, h, body).effects.Some?
    ensures Wire.DecodeNewOrder(body).Some?
    ensures var q := Wire.DecodeNewOrder(body).value;
      var s := Wire.SymbolText(q.symbol);
      var x' := NewOrder(x, socket, h, body).state;
      && s != "" && 0 < q.quantity < QUANTITY_RANGE
      && q.id !in InstrumentOf(x, s).book.ById()
      && x'.journal == Journaled(x, h, body).journal
      && forall t :: InstrumentOf(x', t).book ==
           if t == s then Process(InstrumentOf(x, s).book, OrderOf(q)).book else InstrumentOf(x, t).book
  {
  }

  lemma {:induction false} NewOrderRecoverable(x: Exchange, socket: int, h: Wire.Header, body: seq<Byte>)
    requires Agree(x) && Recoverable(x)
    requires Wire.ValidHeader(h) && |body| == h.bodySize && h.kind == Wire.NEW_ORDER
    ensures Recoverable(NewOrder(x, socket, h, body).state)
  {
    hide NewOrder, Agree, Process, Book.ById, ApplyNewOrder, Replay, Journal.Whole, Journal.Frame, Rebuilds;
    var step := NewOrder(x, socket, h, body);
    if step.effects.None? {
      RefusedKeepsBooks(x, socket, h, body);
      SameBooksRecoverable(x, step.state);
    } else {
      AcceptedNewOrder(x, socket, h, body);
      if x.journal.Some? {
        MessageReplayed(x, h, body);
        NewOrderReplayed(x, Replay(x.journal.value).1, step.state, body);
      }
    }
  }

  lemma {:induction false} NewOrderReplayed(x: Exchange, st: Replayed, x': Exchange, body: seq<Byte>)
    requires Agree(x) && Rebuilds(st, x)
    requires Wire.DecodeNewOrder(body).Some?
    requires var q := Wire.DecodeNewOrder(body).value;
      var s := Wire.SymbolText(q.symbol);
      && s != "" && 0 < q.quantity < QUANTITY_RANGE
      && q.id !in InstrumentOf(x, s).book.ById()
      && forall t :: InstrumentOf(x', t).book ==
           if t == s then Process(InstrumentOf(x, s).book, OrderOf(q)).book else InstrumentOf(x, t).book
    ensures Rebuilds(ApplyNewOrder(st.(summary := st.summary.(records := st.summary.records + 1)), body), x')
  {
    var q := Wire.DecodeNewOrder(body).value;
    var s := Wire.SymbolText(q.symbol);
    assert InstrumentOk(x.risk.working, s, InstrumentOf(x, s));
    assert BookOf(st.books, s) == InstrumentOf(x, s).book;
    ProcessOnIndex(InstrumentOf(x, s).book, OrderOf(q));
    assert forall t :: BookOf(st.books, t) == InstrumentOf(x, t).book;
  }

  // What an accepted cancel leaves in the journal and in the books.
  lemma {:induction false} AcceptedCancel(x: Exchange, socket: int, h: Wire.Header, body: seq<Byte>)
    requires CancelOrder(x, socket, h, body).effects.Some?
    ensures Wire.DecodeCancelOrder(body).Some?
    ensures var q := Wire.DecodeCancelOrder(body).value;
      var s := Wire.SymbolText(q.symbol);
      var x' := CancelOrder(x, socket, h, body).state;
      && q.id in InstrumentOf(x, s).book.ById()
      && x'.journal == Journaled(x, h, body).journal
      && forall t :: InstrumentOf(x', t).book ==
           if t == s then Cancel(InstrumentOf(x, s).book, q.id) else InstrumentOf(x, t).book
  {
    hide Cancel, OrderCancelled, Book.ById;
  }

  lemma {:induction false} CancelRecoverable(x: Exchange, socket: int, h: Wire.Header, body: seq<Byte>)
    requires Agree(x) && Recoverable(x)
    requires Wire.ValidHeader(h) && |body| == h.bodySize && h.kind == Wire.CANCEL_ORDER
    ensures Recoverable(CancelOrder(x, socket, h, body).state)
  {
    hide CancelOrder, Agree, Process, Book.ById, ApplyCancelOrder, Replay, Journal.Whole, Journal.Frame, Rebuilds, Cancel, Wire.SymbolText, InstrumentOf, Wire.EncodeHeader;
    var step := CancelOrder(x, socket, h, body);
    if step.effects.None? {
      RefusedKeepsBooks(x, socket, h, body);
      SameBooksRecoverable(x, step.state);
    } else {
      AcceptedCancel(x, socket, h, body);
      if x.journal.Some? {
        MessageReplayed(x, h, body);
        CancelReplayed(x, Replay(x.journal.value).1, step.state, body);
      }
    }
  }

  lemma {:induction false} CancelReplayed(x: Exchange, st: Replayed, x': Exchange, body: seq<Byte>)
    requires Rebuilds(st, x)
    requires Wire.DecodeCancelOrder(body).Some?
    requires var q := Wire.DecodeCancelOrder(body).value;
      var s := Wire.SymbolText(q.symbol);
      && q.id in InstrumentOf(x, s).book.ById()
      && forall t :: InstrumentOf(x', t).book ==
           if t == s then Cancel(InstrumentOf(x, s).book, q.id) else InstrumentOf(x, t).book
    ensures Rebuilds(ApplyCancelOrder(st.(summary := st.summary.(records := st.summary.records + 1)), body), x')
  {
    hide Cancel;
    var q := Wire.DecodeCancelOrder(body).value;
    SymbolsHaveText(q.symbol);
    assert BookOf(st.books, Wire.SymbolText(q.symbol)) == InstrumentOf(x, Wire.SymbolText(q.symbol)).book;
    assert forall t :: BookOf(st.books, t) == InstrumentOf(x, t).book;
  }

  lemma SymbolsHaveText(field: seq<Byte>)
    requires Wire.ValidSymbol(field)
    ensures Wire.SymbolText(field) != ""
  {
  }

  // What an accepted replacement leaves in the journal and in the books.
  lemma {:induction false} AcceptedReplace(x: Exchange, socket: int, h: Wire.Header, body: seq<Byte>)
    requires ReplaceOrder(x, socket, h, body).effects.Some?
    ensures Wire.DecodeReplaceOrder(body).Some?
    ensures var q := Wire.DecodeReplaceOrder(body).value;
      var s := Wire.SymbolText(q.symbol);
      var x' := ReplaceOrder(x, socket, h, body).state;
      && 0 < q.quantity < QUANTITY_RANGE
      && q.id in InstrumentOf(x, s).book.ById()
      && x'.journal == Journaled(x, h, body).journal
      && forall t :: InstrumentOf(x', t).book ==
           if t == s then Replace(InstrumentOf(x, s).book, q.id, q.price, q.quantity, q.timestamp).book else InstrumentOf(x, t).book
  {
    hide Replace, OrderCancelled, Book.ById, SettleTrades, FilledBy, DeliveriesOf, OrderResting;
  }

  lemma {:induction false} ReplaceRecoverable(x: Exchange, socket: int, h: Wire.Header, body: seq<Byte>)
    requires Agree(x) && Recoverable(x)
    requires Wire.ValidHeader(h) && |body| == h.bodySize && h.kind == Wire.REPLACE_ORDER
    ensures Recoverable(ReplaceOrder(x, socket, h, body).state)
  {
    hide ReplaceOrder, Agree, Process, Book.ById, ApplyReplaceOrder, Replay, Journal.Whole, Journal.Frame, Rebuilds, Replace, Wire.SymbolText, InstrumentOf, Wire.EncodeHeader;
    var step := ReplaceOrder(x, socket, h, body);
    if step.effects.None? {
      RefusedKeepsBooks(x, socket, h, body);
      SameBooksRecoverable(x, step.state);
    } else {
      AcceptedReplace(x, socket, h, body);
      if x.journal.Some? {
        MessageReplayed(x, h, body);
        ReplaceReplayed(x, Replay(x.journal.value).1, step.state, body);
      }
    }
  }

  lemma {:induction false} ReplaceReplayed(x: Exchange, st: Replayed, x': Exchange, body: seq<Byte>)
    requires Agree(x) && Rebuilds(st, x)
    requires Wire.DecodeReplaceOrder(body).Some?
    requires var q := Wire.DecodeReplaceOrder(body).value;
      var s := Wire.SymbolText(q.symbol);
      && 0 < q.quantity < QUANTITY_RANGE
      && q.id in InstrumentOf(x, s).book.ById()
      && forall t :: InstrumentOf(x', t).book ==
           if t == s then Replace(InstrumentOf(x, s).book, q.id, q.price, q.quantity, q.timestamp).book else InstrumentOf(x, t).book
    ensures Rebuilds(ApplyReplaceOrder(st.(summary := st.summary.(records := st.summary.records + 1)), body), x')
  {
    hide Replace, SideOk;
    var q := Wire.DecodeReplaceOrder(body).value;
    var s := Wire.SymbolText(q.symbol);
    SymbolsHaveText(q.symbol);
    assert InstrumentOk(x.risk.working, s, InstrumentOf(x, s));
    assert BookOf(st.books, s) == InstrumentOf(x, s).book;
    ReplaceSucceeds(InstrumentOf(x, s).book, q);
    assert forall t :: BookOf(st.books, t) == InstrumentOf(x, t).book;
  }

  // Replacing an order at rest never throws.
  lemma {:induction false} ReplaceSucceeds(b: Book, q: Wire.ReplaceOrderRequest)
    requires Coherent(b) && q.id in b.ById() && q.quantity > 0
    ensures Replace(b, q.id, q.price, q.quantity, q.timestamp).outcome == Done
  {
    LocateId(b, q.id);
    CancelRemovesExactly(b, q.id);
    ProcessOnIndex(Cancel(b, q.id), Replacement(b.ById()[q.id], q.price, q.quantity, q.timestamp));
  }

  lemma {:induction false} ReactRecoverable(x: Exchange, input: Input)
    requires Agree(x) && Recoverable(x) && Framed(input)
    ensures Recoverable(React(x, input).0)
  {
    match input {
      case Received(socket, h, body) =>
        if h.kind == Wire.NEW_ORDER {
          NewOrderRecoverable(x, socket, h, body);
        } else if h.kind == Wire.CANCEL_ORDER {
          CancelRecoverable(x, socket, h, body);
        } else if h.kind == Wire.REPLACE_ORDER {
          ReplaceRecoverable(x, socket, h, body);
        }
      case Connected(_) => assert forall s :: InstrumentOf(React(x, input).0, s) == InstrumentOf(x, s);
      case Disconnected(_) => assert forall s :: InstrumentOf(React(x, input).0, s) == InstrumentOf(x, s);
      case KillSwitch(_) => assert forall s :: InstrumentOf(React(x, input).0, s) == InstrumentOf(x, s);
    }
  }

  /** After every completed command of every run, the journal replays to exactly the live books. */
  lemma {:induction false} RunIsRecoverable(x: Exchange, inputs: seq<Input>)
    requires Agree(x) && Recoverable(x)
    requires forall i :: 0 <= i < |inputs| ==> Framed(inputs[i])
    ensures Agree(Run(x, inputs)) && Recoverable(Run(x, inputs))
    decreases |inputs|
  {
    if inputs != [] {
      ReactKeepsAgreement(x, inputs[0]);
      ReactRecoverable(x, inputs[0]);
      RunIsRecoverable(React(x, inputs[0]).0, inputs[1..]);
    }
  }

  // ---- Torn journals --------------------------------------------------------------------------

  // The journal after the step can be replayed to its end.
  predicate StillReplays(step: Step) {
    step.state.journal.Some? && Replay(step.state.journal.value).0
  }

  /**
   A journal that replays keeps replaying after an accepted command if and only if it ended at a record
   boundary: behind a torn length, which replay takes for a normal end, the command is unreadable.
   */
  lemma {:induction false} GoesOnReplayingExactly(x: Exchange, socket: int, h: Wire.Header, body: seq<Byte>)
    requires x.journal.Some? && Replay(x.journal.value).0
    ensures NewOrder(x, socket, h, body).reply.success ==>
      (StillReplays(NewOrder(x, socket, h, body)) <==> Journal.Whole(x.journal.value))
    ensures CancelOrder(x, socket, h, body).reply.success ==>
      (StillReplays(CancelOrder(x, socket, h, body)) <==> Journal.Whole(x.journal.value))
    ensures ReplaceOrder(x, socket, h, body).reply.success ==>
      (StillReplays(ReplaceOrder(x, socket, h, body)) <==> Journal.Whole(x.journal.value))
  {
    SuccessIsReadable(x, socket, h, body);
    hide NewOrder, CancelOrder, ReplaceOrder, JournalTells, Journal.Whole, Journal.Read, Wire.EncodeHeader;
    RepliesTellTheOutcome(x, socket, h, body);
    if |body| <= Wire.NEW_ORDER_BODY_SIZE {
      var record := Wire.EncodeHeader(h) + body;
      assert |Wire.EncodeHeader(h)| == Wire.HEADER_SIZE by { WireLaws.HeaderWidth(h); }
      Journal.AppendedIsReadExactly(x.journal.value, record);
    }
  }

  // What is accepted was decoded, so it has the size of its kind.
  lemma SuccessIsReadable(x: Exchange, socket: int, h: Wire.Header, body: seq<Byte>)
    ensures NewOrder(x, socket, h, body).reply.success ==> |body| <= Wire.NEW_ORDER_BODY_SIZE
    ensures CancelOrder(x, socket, h, body).reply.success ==> |body| <= Wire.NEW_ORDER_BODY_SIZE
    ensures ReplaceOrder(x, socket, h, body).reply.success ==> |body| <= Wire.NEW_ORDER_BODY_SIZE
  {
    hide AdmitNewOrder, MayTouch, Cancel, OrderCancelled, Complete, CheckReplace, Replace, Wire.SymbolText, Wire.FromLittleEndian, Wire.ValidSymbol;
  }

  // ---- Restart --------------------------------------------------------------------------------

  // Whatever is replayed, the books it builds are well formed.
  ghost predicate AllWellFormed(books: map<Symbol, Book>) {
    forall s :: WellFormed(BookOf(books, s))
  }

  lemma PutWellFormed(books: map<Symbol, Book>, s: Symbol, b: Book)
    requires AllWellFormed(books) && WellFormed(b)
    ensures AllWellFormed(books[s := b])
  {
    var books' := books[s := b];
    forall t
      ensures WellFormed(BookOf(books', t))
    {
      assert WellFormed(BookOf(books, t));
    }
  }

  lemma {:induction false} RecordKeepsWellFormed(st: Replayed, record: seq<Byte>)
    requires Journal.Recordable(record)
    requires AllWellFormed(st.books)
    ensures AllWellFormed(ApplyRecord(st, record).books)
  {
    var body := record[Wire.HEADER_SIZE..];
    var counted := st.(summary := st.summary.(records := st.summary.records + 1));
    NewOrderKeepsBooks(counted, body);
    CancelKeepsBooks(counted, body);
    ReplaceKeepsBooks(counted, body);
  }

  lemma {:induction false} NewOrderKeepsBooks(st: Replayed, body: seq<Byte>)
    requires AllWellFormed(st.books)
    ensures AllWellFormed(ApplyNewOrder(st, body).books)
  {
    hide WellFormed, Process;
    match Wire.DecodeNewOrder(body)
    case None =>
    case Some(q) =>
      var s := Wire.SymbolText(q.symbol);
      assert WellFormed(BookOf(st.books, s));
      ProcessKeepsWellFormed(BookOf(st.books, s), OrderOf(q));
      PutWellFormed(st.books, s, Process(BookOf(st.books, s), OrderOf(q)).book);
  }

  lemma {:induction false} CancelKeepsBooks(st: Replayed, body: seq<Byte>)
    requires AllWellFormed(st.books)
    ensures AllWellFormed(ApplyCancelOrder(st, body).books)
  {
    hide Cancel;
    match Wire.DecodeCancelOrder(body)
    case None =>
    case Some(q) =>
      var s := Wire.SymbolText(q.symbol);
      assert WellFormed(BookOf(st.books, s));
      CancelRemovesExactly(BookOf(st.books, s), q.id);
      PutWellFormed(st.books, s, Cancel(BookOf(st.books, s), q.id));
  }

  lemma {:induction false} ReplaceKeepsBooks(st: Replayed, body: seq<Byte>)
    requires AllWellFormed(st.books)
    ensures AllWellFormed(ApplyReplaceOrder(st, body).books)
  {
    hide WellFormed, Replace;
    match Wire.DecodeReplaceOrder(body)
    case None =>
    case Some(q) =>
      var s := Wire.SymbolText(q.symbol);
      assert WellFormed(BookOf(st.books, s));
      ReplaceKeepsWellFormed(BookOf(st.books, s), q.id, q.price, q.quantity, q.timestamp);
      PutWellFormed(st.books, s, Replace(BookOf(st.books, s), q.id, q.price, q.quantity, q.timestamp).book);
  }

  lemma {:induction false} ReplayedWellFormed(records: seq<seq<Byte>>)
    requires Journal.AllRecordable(records)
    ensures AllWellFormed(Apply(START, records).books)
  {
    if records != [] {
      var n := |records| - 1;
      assert Journal.AllRecordable(records[..n]);
      ReplayedWellFormed(records[..n]);
      RecordKeepsWellFormed(Apply(START, records[..n]), records[n]);
    }
  }

  /**
   A restart from the journal brings back the same books, in agreement and recoverable again, so
   that further commands append to a journal that keeps rebuilding them.
   */
  lemma {:induction false} RestartIsFaithful(x: Exchange, limits: Limits)
    requires Agree(x) && Recoverable(x) && x.journal.Some? && Modest(limits)
    ensures var x' := Started(Replay(x.journal.value).1.books, limits, x.journal);
      && Agree(x') && Recoverable(x')
      && forall s :: InstrumentOf(x', s).book == InstrumentOf(x, s).book
  {
    var file := x.journal.value;
    var books := Replay(file).1.books;
    var x' := Started(books, limits, x.journal);
    ReadsRecordable(file);
    ReplayedWellFormed(Journal.Read(file).records);
    forall s | s in books ensures WellFormed(books[s]) {
      assert WellFormed(BookOf(books, s));
    }
    StartedAgrees(books, limits, x.journal);
    forall s
      ensures InstrumentOf(x', s).book == InstrumentOf(x, s).book
    {
      assert BookOf(books, s) == InstrumentOf(x, s).book;
    }
  }

  /** From the first start on an empty journal, across a restart, to the end of a second run. */
  lemma {:induction false} RecoveryAcrossRestart(limits: Limits, first: seq<Input>, limits': Limits, second: seq<Input>)
    requires Modest(limits) && Modest(limits')
    requires forall i :: 0 <= i < |first| ==> Framed(first[i])
    requires forall i :: 0 <= i < |second| ==> Framed(second[i])
    ensures var x := Run(Initial(limits, Some([])), first);
      && Recoverable(x) && x.journal.Some?
      && var y := Run(Started(Replay(x.journal.value).1.books, limits', x.journal), second);
         Recoverable(y)
  {
    var x0 := Initial(limits, Some([]));
    InitialAgrees(limits, Some([]));
    assert Replay([]) == (true, START);
    assert forall s :: BookOf(START.books, s) == InstrumentOf(x0, s).book;
    RunIsRecoverable(x0, first);
    RunKeepsJournal(x0, first);
    var x := Run(x0, first);
    RestartIsFaithful(x, limits');
    RunIsRecoverable(Started(Replay(x.journal.value).1.books, limits', x.journal), second);
  }

  lemma {:induction false} ReactKeepsJournal(x: Exchange, input: Input)
    requires x.journal.Some?
    ensures React(x, input).0.journal.Some?
  {
    hide NewOrder, CancelOrder, ReplaceOrder, JournalTells;
    match input
    case Received(socket, h, body) => RepliesTellTheOutcome(x, socket, h, body);
    case _ =>
  }

  lemma {:induction false} RunKeepsJournal(x: Exchange, inputs: seq<Input>)
    requires x.journal.Some?
    ensures Run(x, inputs).journal.Some?
    decreases |inputs|
  {
    hide React;
    if inputs != [] {
      ReactKeepsJournal(x, inputs[0]);
      RunKeepsJournal(React(x, inputs[0]).0, inputs[1..]);
    }
  }
}
