/** Price levels laid end to end are the flat queue, and each level operation is a queue operation. */
module LevelLaws {
  import opened ExchangeTypes
  import opened PriceTime

  // The value of one price level.
  datatype Row = Row(price: Price, orders: seq<Order>)

  function Flatten(rows: seq<Row>): seq<Order> {
    if rows == [] then [] else rows[0].orders + Flatten(rows[1..])
  }

  predicate RowOk(row: Row) {
    row.orders != [] && forall i :: 0 <= i < |row.orders| ==> row.orders[i].price == row.price
  }

  // No empty level, no order at another level's price, best price first.
  predicate RowsOk(side: Side, rows: seq<Row>) {
    rows == [] ||
    (&& RowOk(rows[0])
     && (|rows| > 1 ==> Outranks(side, rows[0].price, rows[1].price))
     && RowsOk(side, rows[1..]))
  }

  // RowsOk over all positions at once.
  ghost predicate RowsSorted(side: Side, rows: seq<Row>) {
    && (forall i :: 0 <= i < |rows| ==> RowOk(rows[i]))
    && (forall i, j :: 0 <= i < j < |rows| ==> Outranks(side, rows[i].price, rows[j].price))
  }

  lemma {:induction false} RowsOkMeans(side: Side, rows: seq<Row>)
    ensures RowsOk(side, rows) <==> RowsSorted(side, rows)
  {
    if rows != [] {
      var tail := rows[1..];
      RowsOkMeans(side, tail);
      assert forall i :: 0 <= i < |tail| ==> tail[i] == rows[i + 1];
      if RowsOk(side, rows) {
        forall i, j | 0 <= i < j < |rows|
          ensures Outranks(side, rows[i].price, rows[j].price)
        {
          if i > 0 {
            assert Outranks(side, tail[i - 1].price, tail[j - 1].price);
          } else if j > 1 {
            assert Outranks(side, tail[0].price, tail[j - 1].price);
          }
        }
        forall i | 0 <= i < |rows| ensures RowOk(rows[i]) {
          if i > 0 { assert RowOk(tail[i - 1]); }
        }
      }
      if RowsSorted(side, rows) {
        forall i, j | 0 <= i < j < |tail|
          ensures Outranks(side, tail[i].price, tail[j].price)
        {
          assert Outranks(side, rows[i + 1].price, rows[j + 1].price);
        }
        assert RowsSorted(side, tail);
      }
    }
  }

  lemma {:induction false} FlattenSplit(rows: seq<Row>, k: nat)
    requires k <= |rows|
    ensures Flatten(rows) == Flatten(rows[..k]) + Flatten(rows[k..])
  {
    if k > 0 {
      FlattenSplit(rows[1..], k - 1);
      assert rows[1..][..k - 1] == rows[..k][1..];
      assert rows[1..][k - 1..] == rows[k..];
    }
  }

  // The queue around level k.
  lemma {:induction false} FlattenAround(rows: seq<Row>, k: nat)
    requires k < |rows|
    ensures Flatten(rows) == Flatten(rows[..k]) + rows[k].orders + Flatten(rows[k + 1..])
  {
    FlattenSplit(rows, k);
    assert rows[k..][1..] == rows[k + 1..];
  }

  lemma {:induction false} FlattenPriced(rows: seq<Row>, i: nat) returns (k: nat)
    requires i < |Flatten(rows)|
    requires forall j :: 0 <= j < |rows| ==> RowOk(rows[j])
    ensures k < |rows| && Flatten(rows)[i].price == rows[k].price
  {
    if i < |rows[0].orders| {
      k := 0;
      assert RowOk(rows[0]);
    } else {
      assert forall j :: 0 <= j < |rows[1..]| ==> rows[1..][j] == rows[j + 1];
      var j := FlattenPriced(rows[1..], i - |rows[0].orders|);
      k := j + 1;
    }
  }

  lemma {:induction false} InsertBetween(o: Order, before: seq<Order>, after: seq<Order>)
    requires forall i :: 0 <= i < |before| ==> !Outranks(o.side, o.price, before[i].price)
    requires after == [] || Outranks(o.side, o.price, after[0].price)
    ensures Insert(o, before + after) == before + [o] + after
  {
    if before == [] {
      assert before + after == after;
    } else {
      InsertBetween(o, before[1..], after);
      assert (before + after)[1..] == before[1..] + after;
      assert [before[0]] + (before[1..] + [o] + after) == before + [o] + after;
    }
  }

  lemma {:induction false} PrefixBeats(o: Order, rows: seq<Row>, k: nat)
    requires RowsOk(o.side, rows) && k <= |rows|
    requires forall i :: 0 <= i < k ==> Outranks(o.side, rows[i].price, o.price)
    ensures forall i :: 0 <= i < |Flatten(rows[..k])| ==> !Outranks(o.side, o.price, Flatten(rows[..k])[i].price)
  {
    RowsOkMeans(o.side, rows);
    forall i | 0 <= i < |Flatten(rows[..k])|
      ensures !Outranks(o.side, o.price, Flatten(rows[..k])[i].price)
    {
      var j := FlattenPriced(rows[..k], i);
    }
  }

  lemma {:induction false} HeadPrice(rows: seq<Row>, k: nat)
    requires k < |rows| && RowOk(rows[k])
    ensures Flatten(rows[k..]) != [] && Flatten(rows[k..])[0] == rows[k].orders[0]
    ensures Flatten(rows[k..])[0].price == rows[k].price
  {
  }

  // Joining an existing level.
  // What follows the level of this price has a worse one.
  lemma {:induction false} WorseBehind(o: Order, rows: seq<Row>, k: nat)
    requires RowsOk(o.side, rows) && k < |rows| && rows[k].price == o.price
    ensures Flatten(rows[k + 1..]) != [] ==> Outranks(o.side, o.price, Flatten(rows[k + 1..])[0].price)
  {
    hide RowsOk;
    RowsOkMeans(o.side, rows);
    if k + 1 < |rows| {
      assert RowOk(rows[k + 1]);
      HeadPrice(rows, k + 1);
    }
  }

  // What comes before, the level of this price included, does not.
  lemma {:induction false} NoWorseAhead(o: Order, rows: seq<Row>, k: nat)
    requires RowsOk(o.side, rows) && k < |rows| && rows[k].price == o.price
    ensures var before := Flatten(rows[..k]) + rows[k].orders;
      forall i :: 0 <= i < |before| ==> !Outranks(o.side, o.price, before[i].price)
  {
    hide RowsOk, Flatten;
    RowsOkMeans(o.side, rows);
    PrefixBeats(o, rows, k);
    assert RowOk(rows[k]);
  }

  lemma {:induction false} JoinKeepsRows(o: Order, rows: seq<Row>, k: nat)
    requires RowsOk(o.side, rows) && k < |rows| && rows[k].price == o.price
    ensures RowsOk(o.side, rows[k := Row(o.price, rows[k].orders + [o])])
  {
    hide RowsOk;
    RowsOkMeans(o.side, rows);
    RowsOkMeans(o.side, rows[k := Row(o.price, rows[k].orders + [o])]);
  }

  lemma {:induction false} JoinLevel(o: Order, rows: seq<Row>, k: nat)
    requires RowsOk(o.side, rows) && k < |rows| && rows[k].price == o.price
    ensures Flatten(rows[k := Row(o.price, rows[k].orders + [o])]) == Insert(o, Flatten(rows))
    ensures RowsOk(o.side, rows[k := Row(o.price, rows[k].orders + [o])])
  {
    JoinKeepsRows(o, rows, k);
    WorseBehind(o, rows, k);
    NoWorseAhead(o, rows, k);
    hide Insert, RowsOk, Flatten;
    var rows' := rows[k := Row(o.price, rows[k].orders + [o])];
    FlattenAround(rows, k);
    FlattenAround(rows', k);
    assert rows'[..k] == rows[..k] && rows'[k + 1..] == rows[k + 1..];
    var before := Flatten(rows[..k]) + rows[k].orders;
    var after := Flatten(rows[k + 1..]);
    InsertBetween(o, before, after);
    assert before + [o] + after == Flatten(rows[..k]) + rows'[k].orders + after;
  }

  // Opening a new level.
  function Opened(o: Order, rows: seq<Row>, k: nat): seq<Row>
    requires k <= |rows|
  {
    rows[..k] + [Row(o.price, [o])] + rows[k..]
  }

  lemma {:induction false} OpenKeepsRowsOk(o: Order, rows: seq<Row>, k: nat)
    requires RowsOk(o.side, rows) && k <= |rows|
    requires k > 0 ==> Outranks(o.side, rows[k - 1].price, o.price)
    requires k < |rows| ==> Outranks(o.side, o.price, rows[k].price)
    ensures RowsOk(o.side, Opened(o, rows, k))
  {
    var rows' := Opened(o, rows, k);
    assert RowOk(Row(o.price, [o]));
    if k == 0 {
      assert rows'[1..] == rows;
    } else {
      OpenKeepsRowsOk(o, rows[1..], k - 1);
      assert rows'[1..] == Opened(o, rows[1..], k - 1);
    }
  }

  lemma {:induction false} OpenLevel(o: Order, rows: seq<Row>, k: nat)
    requires RowsOk(o.side, rows) && k <= |rows|
    requires forall i :: 0 <= i < k ==> Outranks(o.side, rows[i].price, o.price)
    requires k < |rows| ==> Outranks(o.side, o.price, rows[k].price)
    ensures Flatten(Opened(o, rows, k)) == Insert(o, Flatten(rows))
    ensures RowsOk(o.side, Opened(o, rows, k))
  {
    var rows' := Opened(o, rows, k);
    FlattenSplit(rows, k);
    FlattenAround(rows', k);
    assert rows'[..k] == rows[..k] && rows'[k + 1..] == rows[k..];
    PrefixBeats(o, rows, k);
    RowsOkMeans(o.side, rows);
    if k < |rows| {
      HeadPrice(rows, k);
    }
    InsertBetween(o, Flatten(rows[..k]), Flatten(rows[k..]));
    OpenKeepsRowsOk(o, rows, k);
  }

  lemma {:induction false} IndexConcat(xs: seq<Order>, ys: seq<Order>)
    ensures Index(xs + ys) == Index(ys) + Index(xs)
  {
    if xs == [] {
      assert xs + ys == ys;
    } else {
      IndexConcat(xs[1..], ys);
      assert (xs + ys)[1..] == xs[1..] + ys;
    }
  }

  lemma {:induction false} RemoveConcat(id: OrderId, xs: seq<Order>, ys: seq<Order>)
    ensures Remove(id, xs + ys) ==
      if id in Index(xs) then Remove(id, xs) + ys else xs + Remove(id, ys)
  {
    if xs == [] {
      assert xs + ys == ys;
      assert xs + Remove(id, ys) == Remove(id, ys);
    } else {
      var tail := xs[1..];
      assert (xs + ys)[1..] == tail + ys;
      if xs[0].id != id {
        RemoveConcat(id, tail, ys);
        if id in Index(tail) {
          assert [xs[0]] + (Remove(id, tail) + ys) == [xs[0]] + Remove(id, tail) + ys;
        } else {
          assert [xs[0]] + (tail + Remove(id, ys)) == xs + Remove(id, ys);
        }
      }
    }
  }

  // A level left empty disappears.
  function Dropped(rows: seq<Row>, k: nat): seq<Row>
    requires k < |rows|
  {
    if rows[k].orders == [] then rows[..k] + rows[k + 1..] else rows
  }

  lemma {:induction false} FlattenDropped(rows: seq<Row>, k: nat)
    requires k < |rows|
    ensures Flatten(Dropped(rows, k)) == Flatten(rows)
  {
    FlattenAround(rows, k);
    if rows[k].orders == [] {
      FlattenSplit(Dropped(rows, k), k);
      assert Dropped(rows, k)[..k] == rows[..k] && Dropped(rows, k)[k..] == rows[k + 1..];
    }
  }

  // Level k holding some other orders at its price, or none and then gone.
  lemma {:induction false} DroppedRowsOk(side: Side, rows: seq<Row>, k: nat, orders: seq<Order>)
    requires RowsOk(side, rows) && k < |rows|
    requires forall i :: 0 <= i < |orders| ==> orders[i].price == rows[k].price
    ensures RowsOk(side, Dropped(rows[k := Row(rows[k].price, orders)], k))
    ensures Flatten(Dropped(rows[k := Row(rows[k].price, orders)], k)) ==
      Flatten(rows[..k]) + orders + Flatten(rows[k + 1..])
  {
    hide RowsOk;
    var rows' := rows[k := Row(rows[k].price, orders)];
    DroppedSorted(side, rows, k, orders);
    FlattenDropped(rows', k);
    FlattenAround(rows', k);
    assert rows'[..k] == rows[..k] && rows'[k + 1..] == rows[k + 1..];
  }

  lemma {:induction false} DroppedSorted(side: Side, rows: seq<Row>, k: nat, orders: seq<Order>)
    requires RowsOk(side, rows) && k < |rows|
    requires forall i :: 0 <= i < |orders| ==> orders[i].price == rows[k].price
    ensures RowsOk(side, Dropped(rows[k := Row(rows[k].price, orders)], k))
  {
    hide RowsOk;
    var rows' := Dropped(rows[k := Row(rows[k].price, orders)], k);
    RowsOkMeans(side, rows);
    RowsOkMeans(side, rows');
    var shift := if orders == [] then 1 else 0;
    forall i, j | 0 <= i < j < |rows'|
      ensures Outranks(side, rows'[i].price, rows'[j].price)
    {
      assert Outranks(side, rows[if i < k then i else i + shift].price, rows[if j < k then j else j + shift].price);
    }
    forall i | 0 <= i < |rows'|
      ensures RowOk(rows'[i])
    {
      assert RowOk(rows[if i < k then i else i + shift]);
    }
  }

  // Taking an order out of the level that holds it.
  lemma {:induction false} LeaveLevel(id: OrderId, side: Side, rows: seq<Row>, k: nat, i: nat)
    requires SideOk(side, Flatten(rows)) && RowsOk(side, rows)
    requires k < |rows| && i < |rows[k].orders| && rows[k].orders[i].id == id
    ensures var orders := rows[k].orders[..i] + rows[k].orders[i + 1..];
      var rows' := Dropped(rows[k := Row(rows[k].price, orders)], k);
      Flatten(rows') == Remove(id, Flatten(rows)) && RowsOk(side, rows')
  {
    FlattenAround(rows, k);
    RemoveMiddle(id, side, Flatten(rows[..k]), rows[k].orders, Flatten(rows[k + 1..]), i);
    RowsOkMeans(side, rows);
    assert RowOk(rows[k]);
    DroppedRowsOk(side, rows, k, rows[k].orders[..i] + rows[k].orders[i + 1..]);
  }

  lemma {:induction false} RemoveMiddle(id: OrderId, side: Side, a: seq<Order>, b: seq<Order>, c: seq<Order>, i: nat)
    requires SideOk(side, a + b + c) && i < |b| && b[i].id == id
    ensures Remove(id, a + b + c) == a + (b[..i] + b[i + 1..]) + c
  {
    assert a + b + c == a + (b + c);
    AtPosition(side, a, b + c, i);
    RemoveConcat(id, a, b + c);
    SideOkSuffix(side, a, b + c);
    assert b + c == b[..i] + (b[i..] + c);
    AtPosition(side, b[..i], b[i..] + c, 0);
    RemoveConcat(id, b[..i], b[i..] + c);
    assert (b[i..] + c)[1..] == b[i + 1..] + c;
    assert a + (b[..i] + (b[i + 1..] + c)) == a + (b[..i] + b[i + 1..]) + c;
  }

  // With unique ids, the order at a position is not also further forward.
  lemma {:induction false} AtPosition(side: Side, xs: seq<Order>, ys: seq<Order>, i: nat)
    requires SideOk(side, xs + ys)
    requires i < |ys|
    ensures ys[i].id !in Index(xs)
    decreases |xs|
  {
    if xs != [] {
      assert (xs + ys)[1..] == xs[1..] + ys;
      AtPosition(side, xs[1..], ys, i);
      IndexConcat(xs[1..], ys);
      IndexContains(ys, i);
    }
  }

  lemma {:induction false} IndexContains(queue: seq<Order>, i: nat)
    requires i < |queue|
    ensures queue[i].id in Index(queue)
  {
    if i > 0 {
      IndexContains(queue[1..], i - 1);
    }
  }

  lemma {:induction false} SideOkSuffix(side: Side, front: seq<Order>, queue: seq<Order>)
    requires SideOk(side, front + queue)
    ensures SideOk(side, queue)
  {
    if front == [] {
      assert front + queue == queue;
    } else {
      assert (front + queue)[1..] == front[1..] + queue;
      SideOkSuffix(side, front[1..], queue);
    }
  }

  // The level and position of an order at rest.
  lemma {:induction false} FindRow(side: Side, rows: seq<Row>, id: OrderId) returns (k: nat, i: nat)
    requires SideOk(side, Flatten(rows)) && id in Index(Flatten(rows))
    ensures k < |rows| && i < |rows[k].orders| && rows[k].orders[i] == Index(Flatten(rows))[id]
    ensures rows[k].orders[i].id == id
    ensures forall j :: 0 <= j < i ==> rows[k].orders[j].id != id
  {
    var rest := Flatten(rows[1..]);
    IndexConcat(rows[0].orders, rest);
    if id in Index(rows[0].orders) {
      k := 0;
      i := FirstWithId(rows[0].orders, id);
    } else {
      SideOkSuffix(side, rows[0].orders, rest);
      var j;
      j, i := FindRow(side, rows[1..], id);
      k := j + 1;
    }
  }

  lemma {:induction false} FirstWithId(queue: seq<Order>, id: OrderId) returns (i: nat)
    requires id in Index(queue)
    ensures i < |queue| && queue[i] == Index(queue)[id] && queue[i].id == id
    ensures forall j :: 0 <= j < i ==> queue[j].id != id
  {
    if queue[0].id == id {
      i := 0;
    } else {
      i := FirstWithId(queue[1..], id);
      i := i + 1;
    }
  }

  // An execution against the first order of a queue.
  function FillFirst(queue: seq<Order>, quantity: Quantity): seq<Order>
    requires queue != [] && quantity <= queue[0].remaining
  {
    if quantity == queue[0].remaining then queue[1..]
    else [queue[0].(remaining := queue[0].remaining - quantity)] + queue[1..]
  }

  lemma {:induction false} FillBestLevel(side: Side, rows: seq<Row>, quantity: Quantity)
    requires RowsOk(side, rows) && rows != [] && quantity <= rows[0].orders[0].remaining
    ensures var queue := Flatten(rows);
      var rows' := Dropped(rows[0 := Row(rows[0].price, FillFirst(rows[0].orders, quantity))], 0);
      && queue != [] && queue[0] == rows[0].orders[0]
      && Flatten(rows') == FillFirst(queue, quantity) && RowsOk(side, rows')
  {
    assert RowOk(rows[0]);
    var rest := Flatten(rows[1..]);
    assert Flatten(rows) == rows[0].orders + rest;
    hide RowsOk, Flatten;
    DroppedRowsOk(side, rows, 0, FillFirst(rows[0].orders, quantity));
    FlattenNone(rows);
    FillFirstOf(rows[0].orders, rest, quantity);
  }

  lemma FlattenNone(rows: seq<Row>)
    ensures Flatten(rows[..0]) == []
  {
  }

  lemma FillFirstOf(orders: seq<Order>, rest: seq<Order>, quantity: Quantity)
    requires orders != [] && quantity <= orders[0].remaining
    ensures [] + FillFirst(orders, quantity) + rest == FillFirst(orders + rest, quantity)
  {
  }

  // ---- Totals ---------------------------------------------------------------------------

  lemma {:induction false} QuantityAtConcat(xs: seq<Order>, ys: seq<Order>, p: Price)
    ensures QuantityAt(xs + ys, p) == QuantityAt(xs, p) + QuantityAt(ys, p)
  {
    if xs == [] {
      assert xs + ys == ys;
    } else {
      assert (xs + ys)[1..] == xs[1..] + ys;
      QuantityAtConcat(xs[1..], ys, p);
    }
  }

  lemma {:induction false} TotalAtOnePrice(queue: seq<Order>, p: Price)
    requires forall i :: 0 <= i < |queue| ==> queue[i].price == p
    ensures Total(queue) == QuantityAt(queue, p)
  {
    if queue != [] {
      TotalAtOnePrice(queue[1..], p);
    }
  }

  lemma {:induction false} QuantityAtInsert(o: Order, queue: seq<Order>, p: Price)
    ensures QuantityAt(Insert(o, queue), p) == QuantityAt(queue, p) + if o.price == p then o.remaining else 0
  {
    if queue == [] || Outranks(o.side, o.price, queue[0].price) {
      assert ([o] + queue)[1..] == queue;
    } else {
      assert ([queue[0]] + Insert(o, queue[1..]))[1..] == Insert(o, queue[1..]);
      QuantityAtInsert(o, queue[1..], p);
    }
  }

  // A level holds no more than the queue holds at its price.
  lemma {:induction false} LevelWithinQueue(side: Side, rows: seq<Row>, k: nat)
    requires RowsOk(side, rows) && k < |rows|
    ensures Total(rows[k].orders) <= QuantityAt(Flatten(rows), rows[k].price)
  {
    FlattenAround(rows, k);
    RowsOkMeans(side, rows);
    assert RowOk(rows[k]);
    QuantityAtConcat(Flatten(rows[..k]) + rows[k].orders, Flatten(rows[k + 1..]), rows[k].price);
    QuantityAtConcat(Flatten(rows[..k]), rows[k].orders, rows[k].price);
    TotalAtOnePrice(rows[k].orders, rows[k].price);
  }

  // The best level holds all that rests at the best price.
  lemma {:induction false} BestLevelTotal(side: Side, rows: seq<Row>)
    requires RowsOk(side, rows) && rows != []
    ensures TopOf(Flatten(rows)) == Some((rows[0].price, Total(rows[0].orders)))
  {
    QuantityAtConcat(rows[0].orders, Flatten(rows[1..]), rows[0].price);
    TotalAtOnePrice(rows[0].orders, rows[0].price);
    RowsOkMeans(side, rows);
    assert forall i :: 0 <= i < |rows[1..]| ==> rows[1..][i] == rows[i + 1];
    NothingAt(rows[1..], rows[0].price);
  }

  lemma {:induction false} NothingAt(rows: seq<Row>, p: Price)
    requires forall i :: 0 <= i < |rows| ==> RowOk(rows[i]) && rows[i].price != p
    ensures QuantityAt(Flatten(rows), p) == 0
  {
    if rows != [] {
      QuantityAtConcat(rows[0].orders, Flatten(rows[1..]), p);
      NoneAt(rows[0].orders, p);
      NothingAt(rows[1..], p);
    }
  }

  lemma {:induction false} NoneAt(queue: seq<Order>, p: Price)
    requires forall i :: 0 <= i < |queue| ==> queue[i].price != p
    ensures QuantityAt(queue, p) == 0
  {
    if queue != [] {
      NoneAt(queue[1..], p);
    }
  }

  lemma {:induction false} AvailableConcat(o: Order, xs: seq<Order>, ys: seq<Order>)
    requires forall i :: 0 <= i < |xs| ==> Crosses(o, xs[i])
    ensures Available(o, xs + ys) == Total(xs) + Available(o, ys)
  {
    if xs == [] {
      assert xs + ys == ys;
    } else {
      assert (xs + ys)[1..] == xs[1..] + ys;
      AvailableConcat(o, xs[1..], ys);
    }
  }

  // What is executable from level k on: nothing past the limit, otherwise this level and the rest.
  lemma {:induction false} AvailableByLevel(o: Order, rows: seq<Row>, k: nat)
    requires k < |rows| && RowOk(rows[k])
    ensures Available(o, Flatten(rows[k..])) ==
      if Crosses(o, rows[k].orders[0]) then Total(rows[k].orders) + Available(o, Flatten(rows[k + 1..])) else 0
  {
    assert rows[k..][1..] == rows[k + 1..];
    HeadPrice(rows, k);
    if Crosses(o, rows[k].orders[0]) {
      AvailableConcat(o, rows[k].orders, Flatten(rows[k + 1..]));
    }
  }
}
