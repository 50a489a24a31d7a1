/** The replayer as an object: it reads a journal record by record and drives books of its own. */
module Replayers {
  import opened ExchangeTypes
  import opened PriceTime
  import opened BookTables
  import opened MatchingEngines
  import opened Risk
  import opened Replays
  import Wire
  import Codec
  import Journal

  ghost predicate AllNarrow(books: map<Symbol, Book>) {
    forall s :: s in books ==> Narrow(books[s])
  }

  // No book overflows a level total at any point of the replay.
  ghost predicate NarrowThroughout(records: seq<seq<Byte>>)
    requires Journal.AllRecordable(records)
  {
    forall k :: 0 <= k <= |records| ==> NarrowAfter(records, k)
  }

  ghost predicate NarrowAfter(records: seq<seq<Byte>>, k: nat)
    requires Journal.AllRecordable(records) && k <= |records|
  {
    FirstRecords(records, k);
    AllNarrow(Apply(START, records[..k]).books)
  }

  lemma FirstRecords(records: seq<seq<Byte>>, k: nat)
    requires Journal.AllRecordable(records) && k <= |records|
    ensures Journal.AllRecordable(records[..k])
  {
  }

  lemma {:induction false} OneMore(records: seq<seq<Byte>>, k: nat)
    requires Journal.AllRecordable(records) && k < |records|
    ensures Journal.AllRecordable(records[..k]) && Journal.AllRecordable(records[..k + 1])
    ensures Apply(START, records[..k + 1]) == ApplyRecord(Apply(START, records[..k]), records[k])
  {
    hide ApplyRecord;
    FirstRecords(records, k);
    FirstRecords(records, k + 1);
    assert records[..k + 1][..k] == records[..k];
  }

  // Naming an unknown order leaves the books as they were.
  lemma CancelUnknown(books: map<Symbol, Book>, s: Symbol, id: OrderId)
    requires s in books
    ensures id !in books[s].ById() ==> books[s := Cancel(books[s], id)] == books
  {
    hide Book.ById;
    assert books[s := books[s]] == books;
  }

  lemma ReplaceUnknown(books: map<Symbol, Book>, s: Symbol, q: Wire.ReplaceOrderRequest)
    requires s in books && q.quantity > 0
    ensures var r := Replace(books[s], q.id, q.price, q.quantity, q.timestamp);
      q.id !in books[s].ById() ==> r == Result(books[s], [], Done) && books[s := r.book] == books
  {
    hide Book.ById;
    assert books[s := books[s]] == books;
  }

  class ExchangeReplayer {
    const engine: MatchingEngine
    var books: BookTable
    var summary: Summary

    ghost predicate Valid()
      reads this, books, books.own
    {
      this !in books.own && books.Valid()
    }

    // What has been rebuilt so far.
    ghost function State(): Replayed
      reads this, books
    {
      Replayed(books.flat, summary)
    }

    constructor ()
      ensures Valid() && fresh(books) && fresh(books.own) && State() == START
    {
      engine := new MatchingEngine();
      books := new BookTable();
      summary := START.summary;
    }

    method Reset()
      modifies this
      ensures Valid() && fresh(books) && fresh(books.own) && State() == START
    {
      books := new BookTable();
      summary := START.summary;
    }

    method Reject()
      requires Valid()
      modifies this`summary
      ensures Valid() && State() == Rejected(old(State()))
    {
      summary := summary.(rejected := summary.rejected + 1);
    }

    /**
     False at a wrong length or a record cut short; otherwise the whole file has been replayed. The
     end of the file inside a length is a normal end.
     */
    method Replay(file: seq<Byte>) returns (ok: bool)
      requires Journal.AllRecordable(Journal.Read(file).records) && NarrowThroughout(Journal.Read(file).records)
      modifies this
      ensures Valid() && fresh(books) && fresh(books.own)
      ensures (ok, State()) == Replays.Replay(file)
    {
      hide Replays.ApplyRecord, NarrowAfter, BookTable.Valid, Wire.FromLittleEndian;
      Reset();
      ReadsRecordable(file);
      ghost var records := Journal.Read(file).records;
      ghost var done := 0;
      var input := file;
      assert records[..0] == [];
      while true
        invariant Valid() && fresh(books) && fresh(books.own)
        invariant done <= |records| && Journal.Read(input) == Journal.Reading(Journal.Read(file).ok, records[done..])
        invariant Journal.AllRecordable(records[..done]) && State() == Apply(START, records[..done])
        decreases |input|
      {
        if |input| < Journal.LENGTH_SIZE {
          assert records[..done] == records;
          return true;
        }
        var recordSize, _ := Codec.ReadInteger(input, 0, Journal.LENGTH_SIZE);
        var size := recordSize.value;
        if size < Wire.HEADER_SIZE || size > Journal.MAXIMUM_RECORD_SIZE || |input| - Journal.LENGTH_SIZE < size {
          assert records[..done] == records;
          Reject();
          return false;
        }
        var record := input[Journal.LENGTH_SIZE..Journal.LENGTH_SIZE + size];
        input := input[Journal.LENGTH_SIZE + size..];
        assert record == records[done] && Journal.Read(input).records == records[done..][1..] == records[done + 1..];
        OneMore(records, done);
        assert NarrowAfter(records, done + 1);
        NarrowMeans(records, done + 1);
        ApplyRecord(record);
        done := done + 1;
      }
    }

    lemma NarrowMeans(records: seq<seq<Byte>>, k: nat)
      requires Journal.AllRecordable(records) && k <= |records| && NarrowAfter(records, k)
      ensures Journal.AllRecordable(records[..k]) && AllNarrow(Apply(START, records[..k]).books)
    {
      FirstRecords(records, k);
    }

    method ApplyRecord(record: seq<Byte>)
      requires Valid() && Journal.Recordable(record) && AllNarrow(Replays.ApplyRecord(State(), record).books)
      modifies this`summary, books, books.own
      ensures Valid() && fresh(books.own - old(books.own))
      ensures State() == Replays.ApplyRecord(old(State()), record)
    {
      hide AllNarrow, BookTable.Valid, Replays.ApplyNewOrder, Replays.ApplyCancelOrder, Replays.ApplyReplaceOrder, Wire.DecodeHeader;
      summary := summary.(records := summary.records + 1);
      var header := Codec.DecodeHeader(record[..Wire.HEADER_SIZE]);
      if header.None? {
        Reject();
        return;
      }
      var body := record[Wire.HEADER_SIZE..];
      if |body| != header.value.bodySize {
        Reject();
        return;
      }
      if header.value.kind == Wire.NEW_ORDER {
        ApplyNewOrder(body);
      } else if header.value.kind == Wire.CANCEL_ORDER {
        ApplyCancelOrder(body);
      } else if header.value.kind == Wire.REPLACE_ORDER {
        ApplyReplaceOrder(body);
      } else {
        summary := summary.(unsupported := summary.unsupported + 1);
      }
    }

    method ApplyNewOrder(body: seq<Byte>)
      requires Valid() && AllNarrow(Replays.ApplyNewOrder(State(), body).books)
      modifies this`summary, books, books.own
      ensures Valid() && fresh(books.own - old(books.own))
      ensures State() == Replays.ApplyNewOrder(old(State()), body)
    {
      hide Narrow, BookTable.Valid, Process, Wire.DecodeNewOrder, Wire.SymbolText;
      var request := Codec.DecodeNewOrder(body);
      if request.None? {
        Reject();
        return;
      }
      var s := Wire.SymbolText(request.value.symbol);
      if request.value.quantity >= QUANTITY_RANGE || s == "" {
        Reject();
        return;
      }
      assert Narrow(Replays.ApplyNewOrder(State(), body).books[s]);
      ghost var flat := books.flat;
      books.Open(s);
      var trades, outcome := books.ProcessOrder(engine, s, OrderOf(request.value));
      assert books.flat == flat[s := Process(BookOf(flat, s), OrderOf(request.value)).book];
      if outcome != Done {
        Reject();
        return;
      }
      summary := summary.(newOrders := summary.newOrders + 1, trades := summary.trades + |trades|);
    }

    method ApplyCancelOrder(body: seq<Byte>)
      requires Valid()
      modifies this`summary, books, books.own
      ensures Valid() && fresh(books.own - old(books.own))
      ensures State() == Replays.ApplyCancelOrder(old(State()), body)
    {
      hide BookTable.Valid, Cancel, Book.ById, Wire.DecodeCancelOrder, Wire.SymbolText;
      var request := Codec.DecodeCancelOrder(body);
      if request.None? {
        Reject();
        return;
      }
      var s := Wire.SymbolText(request.value.symbol);
      var known := books.Has(s);
      if s == "" || !known {
        Reject();
        return;
      }
      CancelUnknown(books.flat, s, request.value.id);
      var cancelled := books.CancelOrder(s, request.value.id);
      if !cancelled {
        Reject();
      }
    }

    method ApplyReplaceOrder(body: seq<Byte>)
      requires Valid() && AllNarrow(Replays.ApplyReplaceOrder(State(), body).books)
      modifies this`summary, books, books.own
      ensures Valid() && fresh(books.own - old(books.own))
      ensures State() == Replays.ApplyReplaceOrder(old(State()), body)
    {
      hide Narrow, BookTable.Valid, Replace, Book.ById, Wire.FromLittleEndian, Wire.SymbolText, Wire.ValidSymbol;
      var request := Codec.DecodeReplaceOrder(body);
      if request.None? {
        Reject();
        return;
      }
      var q := request.value;
      var s := Wire.SymbolText(q.symbol);
      var known := books.Has(s);
      if q.quantity >= QUANTITY_RANGE || s == "" || !known {
        Reject();
        return;
      }
      ReplaceUnknown(books.flat, s, q);
      assert Narrow(Replays.ApplyReplaceOrder(State(), body).books[s]);
      var replaced, trades, outcome := books.ReplaceOrder(engine, s, q.id, q.price, q.quantity, q.timestamp);
      if !replaced {
        Reject();
        return;
      }
      summary := summary.(trades := summary.trades + |trades|);
    }
  }
}
