/** Replaying a journal: every record drives a set of books, one per symbol. */
module Replays {
  import opened ExchangeTypes
  import opened PriceTime
  import opened Risk
  import Wire
  import Journal

  type Byte = Wire.Byte

  datatype Summary = Summary(
    records: nat,
    newOrders: nat,
    trades: nat,
    rejected: nat,
    unsupported: nat)

  datatype Replayed = Replayed(books: map<Symbol, Book>, summary: Summary)

  const START := Replayed(map[], Summary(0, 0, 0, 0, 0))

  function BookOf(books: map<Symbol, Book>, s: Symbol): Book {
    if s in books then books[s] else EMPTY_BOOK
  }

  function OrderOf(q: Wire.NewOrderRequest): Order {
    Order(q.id, q.side, q.kind, q.tif, q.price, q.quantity, q.quantity, q.timestamp)
  }

  function Rejected(st: Replayed): Replayed {
    st.(summary := st.summary.(rejected := st.summary.rejected + 1))
  }

  function ApplyNewOrder(st: Replayed, body: seq<Byte>): Replayed {
    match Wire.DecodeNewOrder(body)
    case None => Rejected(st)
    case Some(q) =>
      var s := Wire.SymbolText(q.symbol);
      if q.quantity >= QUANTITY_RANGE || s == "" then Rejected(st)
      else
        var r := Process(BookOf(st.books, s), OrderOf(q));
        var st' := st.(books := st.books[s := r.book]);
        if r.outcome != Done then Rejected(st')
        else st'.(summary := st.summary.(newOrders := st.summary.newOrders + 1, trades := st.summary.trades + |r.trades|))
  }

  function ApplyCancelOrder(st: Replayed, body: seq<Byte>): Replayed {
    match Wire.DecodeCancelOrder(body)
    case None => Rejected(st)
    case Some(q) =>
      var s := Wire.SymbolText(q.symbol);
      if s == "" || s !in st.books || q.id !in st.books[s].ById() then Rejected(st)
      else st.(books := st.books[s := Cancel(st.books[s], q.id)])
  }

  function ApplyReplaceOrder(st: Replayed, body: seq<Byte>): Replayed {
    match Wire.DecodeReplaceOrder(body)
    case None => Rejected(st)
    case Some(q) =>
      var s := Wire.SymbolText(q.symbol);
      if q.quantity >= QUANTITY_RANGE || s == "" || s !in st.books || q.id !in st.books[s].ById() then Rejected(st)
      else
        var r := Replace(st.books[s], q.id, q.price, q.quantity, q.timestamp);
        var st' := st.(books := st.books[s := r.book]);
        if r.outcome != Done then Rejected(st')
        else st'.(summary := st.summary.(trades := st.summary.trades + |r.trades|))
  }

  function ApplyRecord(st: Replayed, record: seq<Byte>): Replayed
    requires Journal.Recordable(record)
  {
    var counted := st.(summary := st.summary.(records := st.summary.records + 1));
    match Wire.DecodeHeader(record[..Wire.HEADER_SIZE])
    case None => Rejected(counted)
    case Some(h) =>
      var body := record[Wire.HEADER_SIZE..];
      if |body| != h.bodySize then Rejected(counted)
      else if h.kind == Wire.NEW_ORDER then ApplyNewOrder(counted, body)
      else if h.kind == Wire.CANCEL_ORDER then ApplyCancelOrder(counted, body)
      else if h.kind == Wire.REPLACE_ORDER then ApplyReplaceOrder(counted, body)
      else counted.(summary := counted.summary.(unsupported := counted.summary.unsupported + 1))
  }

  function Apply(st: Replayed, records: seq<seq<Byte>>): Replayed
    requires Journal.AllRecordable(records)
  {
    if records == [] then st
    else
      var n := |records| - 1;
      assert forall i :: 0 <= i < n ==> records[..n][i] == records[i];
      ApplyRecord(Apply(st, records[..n]), records[n])
  }

  // Whether replay returns normally, and what it has rebuilt.
  function Replay(file: seq<Byte>): (bool, Replayed) {
    ReadsRecordable(file);
    var reading := Journal.Read(file);
    var st := Apply(START, reading.records);
    if reading.ok then (true, st) else (false, Rejected(st))
  }

  lemma {:induction false} ReadsRecordable(file: seq<Byte>)
    ensures Journal.AllRecordable(Journal.Read(file).records)
    decreases |file|
  {
    if |file| >= Journal.LENGTH_SIZE {
      var size := Wire.FromLittleEndian(file[..Journal.LENGTH_SIZE]);
      if Wire.HEADER_SIZE <= size <= Journal.MAXIMUM_RECORD_SIZE && size <= |file| - Journal.LENGTH_SIZE {
        ReadsRecordable(file[Journal.LENGTH_SIZE + size..]);
      }
    }
  }

  /** One more record in a whole journal is one more step of the replay. */
  lemma {:induction false} ReplayAppended(file: seq<Byte>, record: seq<Byte>)
    requires Journal.Whole(file) && Journal.Recordable(record)
    ensures Journal.Whole(file + Journal.Frame(record))
    ensures Replay(file).0
    ensures Replay(file + Journal.Frame(record)) == (true, ApplyRecord(Replay(file).1, record))
  {
    Journal.ReadAppended(file, record);
    ReadsRecordable(file);
    ReadsRecordable(file + Journal.Frame(record));
    var records := Journal.Read(file).records;
    assert (records + [record])[..|records|] == records;
  }

  // The same books, and one rejected record more.
  function OneRejected(st: Replayed): Replayed {
    var s := st.summary;
    Replayed(st.books, Summary(s.records, s.newOrders, s.trades, s.rejected + 1, s.unsupported))
  }

  /**
   Replaying a journal cut short succeeds exactly when the cut is at a record boundary or inside
   a length field; either way it has rebuilt what the whole records before the cut give, a failure
   counting as one more rejected.
   */
  lemma {:induction false} ReplayCut(records: seq<seq<Byte>>, length: nat)
    requires Journal.AllRecordable(records) && length <= |Journal.File(records)|
    ensures var n := Journal.Fitting(records, length);
      var cut := Journal.File(records)[..length];
      var whole := Journal.File(records[..n]);
      && |whole| <= length
      && (Replay(cut).0 <==> length < |whole| + Journal.LENGTH_SIZE)
      && Replay(whole).0
      && Replay(cut).1 == if Replay(cut).0 then Replay(whole).1 else OneRejected(Replay(whole).1)
  {
    Journal.ReadCutFile(records, length);
    var n := Journal.Fitting(records, length);
    assert Journal.AllRecordable(records[..n]);
    Journal.ReadFile(records[..n]);
  }
}
