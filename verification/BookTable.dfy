/** The books of all symbols: a map of book objects, each kept apart from the others. */
module BookTables {
  import opened ExchangeTypes
  import opened PriceTime
  import opened OrderBooks
  import opened MatchingEngines
  import opened Risk
  import Replays

  // Which objects make up each book: no object serves two books.
  ghost predicate Apart(parts: map<Symbol, set<object>>, all: set<object>) {
    && (forall s :: s in parts ==> parts[s] <= all)
    && (forall s, t :: s in parts && t in parts && s != t ==> parts[s] !! parts[t])
  }

  ghost predicate Holds(book: OrderBook, b: Book, part: set<object>)
    reads book, part
  {
    book.Repr == part && book in part && book.Valid() && book.Flat() == b
  }

  // Every book is sound, shows its flat picture, and shares no object with another.
  ghost predicate Kept(books: map<Symbol, OrderBook>, flat: map<Symbol, Book>, parts: map<Symbol, set<object>>, all: set<object>)
    reads all
  {
    && books.Keys == flat.Keys == parts.Keys
    && Apart(parts, all)
    && forall s :: s in books ==> books[s] in parts[s] && Holds(books[s], flat[s], parts[s])
  }

  lemma HoldsItself(book: OrderBook)
    requires book.Valid()
    ensures Holds(book, book.Flat(), book.Repr)
  {
  }

  // One book taken out leaves the others kept, on objects it does not touch.
  lemma TakenOut(books: map<Symbol, OrderBook>, flat: map<Symbol, Book>, parts: map<Symbol, set<object>>, all: set<object>, s: Symbol)
    requires Kept(books, flat, parts, all) && s in books
    ensures books[s] in parts[s] && parts[s] <= all && Holds(books[s], flat[s], parts[s])
    ensures Kept(books - {s}, flat - {s}, parts - {s}, all - parts[s])
  {
    hide Holds;
  }

  lemma PutIn(books: map<Symbol, OrderBook>, flat: map<Symbol, Book>, parts: map<Symbol, set<object>>, all: set<object>,
              s: Symbol, book: OrderBook, b: Book, part: set<object>)
    requires Kept(books, flat, parts, all) && s !in books
    requires book in part && Holds(book, b, part) && part !! all
    ensures Kept(books[s := book], flat[s := b], parts[s := part], all + part)
  {
    hide Holds;
  }

  class BookTable {
    var books: map<Symbol, OrderBook>
    ghost var flat: map<Symbol, Book>           // the flat picture of every book
    ghost var parts: map<Symbol, set<object>>   // the objects of every book
    ghost var own: set<object>                  // all of those objects

    ghost predicate Valid()
      reads this, own
    {
      this !in own && Kept(books, flat, parts, own)
    }

    constructor ()
      ensures Valid() && own == {} && flat == map[]
    {
      books, flat, parts, own := map[], map[], map[], {};
    }

    lemma Opened(s: Symbol)
      requires Valid() && s in flat
      ensures s in books && s in parts && books[s].Valid() && books[s].Flat() == flat[s] && books[s].Repr == parts[s]
      ensures books[s] in parts[s] && parts[s] <= own && this !in parts[s]
      ensures Kept(books - {s}, flat - {s}, parts - {s}, own - parts[s])
    {
      hide Kept, OrderBook.Valid, OrderBook.Flat;
      Keys();
      TakenOut(books, flat, parts, own, s);
    }

    lemma IsCoherent(s: Symbol)
      requires Valid() && s in flat
      ensures Coherent(flat[s])
    {
      hide Kept;
      Opened(s);
    }

    lemma Keys()
      requires Valid()
      ensures books.Keys == flat.Keys == parts.Keys
    {
    }

    method Has(s: Symbol) returns (known: bool)
      requires Valid()
      ensures known <==> s in flat
    {
      Keys();
      known := s in books;
    }

    // This object is now the symbol's book; the others have not changed.
    method Install(s: Symbol, book: OrderBook, ghost rest: set<object>)
      requires this !in rest && this !in book.Repr && book.Valid() && book.Repr !! rest
      requires Kept(books - {s}, flat - {s}, parts - {s}, rest)
      modifies this
      ensures Valid() && own == rest + book.Repr && flat == old(flat)[s := book.Flat()]
    {
      hide Kept, OrderBook.Valid, OrderBook.Flat;
      HoldsItself(book);
      PutIn(books - {s}, flat - {s}, parts - {s}, rest, s, book, book.Flat(), book.Repr);
      assert (books - {s})[s := book] == books[s := book];
      assert (flat - {s})[s := book.Flat()] == flat[s := book.Flat()];
      assert (parts - {s})[s := book.Repr] == parts[s := book.Repr];
      books := books[s := book];
      flat, parts, own := flat[s := book.Flat()], parts[s := book.Repr], rest + book.Repr;
    }

    // The book of a symbol, an empty one if there was none.
    method Open(s: Symbol)
      requires Valid()
      modifies this
      ensures Valid() && fresh(own - old(own))
      ensures flat == old(flat)[s := Replays.BookOf(old(flat), s)]
    {
      hide Kept, OrderBook.Valid, OrderBook.Flat;
      Keys();
      if s !in books {
        var book := new OrderBook();
        assert books - {s} == books && flat - {s} == flat && parts - {s} == parts;
        Install(s, book, own);
      } else {
        assert flat[s := flat[s]] == flat;
      }
    }

    method ProcessOrder(engine: MatchingEngine, s: Symbol, order: Order) returns (trades: seq<Trade>, outcome: Outcome)
      requires Valid() && s in flat && Narrow(Process(flat[s], order).book)
      modifies this, own
      ensures Valid() && fresh(own - old(own))
      ensures var r := Process(old(flat)[s], order);
        flat == old(flat)[s := r.book] && trades == r.trades && outcome == r.outcome
    {
      hide Kept, OrderBook.Valid, OrderBook.Flat, Process, Narrow;
      Opened(s);
      var book := books[s];
      ghost var rest := own - parts[s];
      trades, outcome := engine.ProcessOrder(book, order);
      Install(s, book, rest);
    }

    method CancelOrder(s: Symbol, id: OrderId) returns (cancelled: bool)
      requires Valid() && s in flat
      modifies this, own
      ensures Valid() && fresh(own - old(own))
      ensures flat == old(flat)[s := Cancel(old(flat)[s], id)]
      ensures cancelled <==> id in old(flat)[s].ById()
    {
      hide Kept, OrderBook.Valid, OrderBook.Flat, Cancel, Book.ById;
      Opened(s);
      var book := books[s];
      ghost var rest := own - parts[s];
      cancelled := book.CancelOrder(id);
      Install(s, book, rest);
    }

    method ReplaceOrder(engine: MatchingEngine, s: Symbol, id: OrderId, price: Price, quantity: Quantity, timestamp: Timestamp)
      returns (replaced: bool, trades: seq<Trade>, outcome: Outcome)
      requires Valid() && s in flat && Narrow(Replace(flat[s], id, price, quantity, timestamp).book)
      modifies this, own
      ensures Valid() && fresh(own - old(own))
      ensures var r := Replace(old(flat)[s], id, price, quantity, timestamp);
        && flat == old(flat)[s := r.book] && trades == r.trades && outcome == r.outcome
        && (replaced <==> quantity > 0 && id in old(flat)[s].ById() && r.outcome == Done)
    {
      hide Kept, OrderBook.Valid, OrderBook.Flat, Replace, Narrow, Book.ById;
      Opened(s);
      var book := books[s];
      ghost var rest := own - parts[s];
      replaced, trades, outcome := engine.ReplaceOrder(book, id, price, quantity, timestamp);
      Install(s, book, rest);
    }

    method FindOrder(s: Symbol, id: OrderId) returns (order: Option<Order>)
      requires Valid() && s in flat
      ensures order == if id in flat[s].ById() then Some(flat[s].ById()[id]) else None
    {
      hide Kept, OrderBook.Valid, OrderBook.Flat, Book.ById;
      Opened(s);
      order := books[s].FindOrder(id);
    }

    // The best price of a side and the cached total of its level.
    method BestLevel(s: Symbol, side: Side) returns (top: Option<(Price, Quantity)>)
      requires Valid() && s in flat
      ensures top == TopOf(flat[s].Queue(side))
    {
      hide Kept, OrderBook.Valid, OrderBook.Flat, TopOf;
      Opened(s);
      top := books[s].BestLevel(side);
    }
  }
}
