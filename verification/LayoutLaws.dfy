/** Where every field of a message stands and what its bytes stand for, byte by byte. */
module LayoutLaws {
  import opened ExchangeTypes
  import opened Wire
  import Journal

  // ---- Integers ---------------------------------------------------------------------------------

  // Two, four and eight bytes, the least significant first.
  function Short(b: seq<Byte>, at: nat): nat
    requires at + 2 <= |b|
  {
    b[at] + 0x100 * (b[at + 1] as int)
  }

  function Word(b: seq<Byte>, at: nat): nat
    requires at + 4 <= |b|
  {
    b[at] + 0x100 * (b[at + 1] as int) + 0x1_0000 * (b[at + 2] as int) + 0x100_0000 * (b[at + 3] as int)
  }

  function Long(b: seq<Byte>, at: nat): nat
    requires at + 8 <= |b|
  {
    Word(b, at) + 0x1_0000_0000 * (b[at + 4] as int) + 0x100_0000_0000 * (b[at + 5] as int)
    + 0x1_0000_0000_0000 * (b[at + 6] as int) + 0x100_0000_0000_0000 * (b[at + 7] as int)
  }

  // Two's complement in eight bytes.
  function SignedLong(b: seq<Byte>, at: nat): int
    requires at + 8 <= |b|
  {
    if b[at + 7] < 0x80 then Long(b, at) else Long(b, at) - 0x1_0000_0000_0000_0000
  }

  lemma OneByteRead(b: seq<Byte>, at: nat, width: nat)
    requires width > 0 && at + width <= |b|
    ensures Field(b, at, width) == b[at] + 256 * Field(b, at + 1, width - 1)
  {
    assert b[at..at + width][1..] == b[at + 1..at + width];
  }

  lemma NoByteRead(b: seq<Byte>, at: nat)
    requires at <= |b|
    ensures Field(b, at, 0) == 0
  {
  }

  lemma FieldIsShort(b: seq<Byte>, at: nat)
    requires at + 2 <= |b|
    ensures Field(b, at, 2) == Short(b, at)
  {
    hide Field;
    OneByteRead(b, at, 2);
    OneByteRead(b, at + 1, 1);
    NoByteRead(b, at + 2);
  }

  lemma FieldIsWord(b: seq<Byte>, at: nat)
    requires at + 4 <= |b|
    ensures Field(b, at, 4) == Word(b, at)
  {
    hide Field;
    OneByteRead(b, at, 4);
    OneByteRead(b, at + 1, 3);
    FieldIsShort(b, at + 2);
  }

  lemma FieldIsLong(b: seq<Byte>, at: nat)
    requires at + 8 <= |b|
    ensures Field(b, at, 8) == Long(b, at) && ToSigned(Field(b, at, 8)) == SignedLong(b, at)
  {
    hide Field;
    OneByteRead(b, at, 8);
    OneByteRead(b, at + 1, 7);
    OneByteRead(b, at + 2, 6);
    OneByteRead(b, at + 3, 5);
    FieldIsWord(b, at + 4);
  }

  // ---- Symbols ------------------------------------------------------------------------------------

  // Upper-case letters, digits, full stop and hyphen, by their codes.
  predicate Allowed(b: Byte) {
    65 <= b <= 90 || 48 <= b <= 57 || b == 46 || b == 45
  }

  // The first n of eight bytes are a symbol, the others padding.
  predicate Spells(field: seq<Byte>, n: nat) {
    && |field| == 8 && 0 < n <= 8
    && (forall i :: 0 <= i < n ==> Allowed(field[i]))
    && (forall i :: n <= i < 8 ==> field[i] == 0)
  }

  ghost predicate IsSymbol(field: seq<Byte>) {
    exists n :: Spells(field, n)
  }

  lemma {:induction false} LengthBeforePadding(field: seq<Byte>, n: nat)
    requires n <= |field| && (forall i :: 0 <= i < n ==> field[i] != 0) && (n == |field| || field[n] == 0)
    ensures SymbolLength(field) == n
  {
    if n > 0 {
      LengthBeforePadding(field[1..], n - 1);
    }
  }

  lemma SpelledLength(field: seq<Byte>, n: nat)
    requires Spells(field, n)
    ensures SymbolLength(field) == n && ValidSymbol(field)
  {
    LengthBeforePadding(field, n);
  }

  /** A symbol field is valid exactly when it spells a symbol, and its text is that symbol's characters. */
  lemma {:induction false} SymbolsAreSpelled(field: seq<Byte>)
    ensures ValidSymbol(field) <==> IsSymbol(field)
    ensures forall n :: Spells(field, n) ==>
      |SymbolText(field)| == n && forall i :: 0 <= i < n ==> SymbolText(field)[i] as int == field[i]
  {
    hide SymbolText, SymbolLength;
    if ValidSymbol(field) {
      assert Spells(field, SymbolLength(field));
    }
    forall n | Spells(field, n)
      ensures ValidSymbol(field) && |SymbolText(field)| == n && forall i :: 0 <= i < n ==> SymbolText(field)[i] as int == field[i]
    {
      SpelledLength(field, n);
      TextOf(field);
    }
  }

  lemma TextOf(field: seq<Byte>)
    requires ValidSymbol(field)
    ensures |SymbolText(field)| == SymbolLength(field)
    ensures forall i :: 0 <= i < SymbolLength(field) ==> SymbolText(field)[i] as int == field[i]
  {
  }

  // ---- Messages -----------------------------------------------------------------------------------

  /** A header: four bytes of magic number, two of version, two of message type, four of body size, eight of sequence number. */
  lemma {:induction false} HeaderBytes(b: seq<Byte>)
    ensures DecodeHeader(b).Some? <==> |b| == 20 && Word(b, 0) == 0x4558_4C42 && Short(b, 4) == 3
    ensures DecodeHeader(b).Some? ==>
      DecodeHeader(b).value == Header(0x4558_4C42, 3, Short(b, 6), Word(b, 8), Long(b, 12))
  {
    hide Field, Short, Word, Long;
    if |b| == HEADER_SIZE {
      FieldIsWord(b, 0);
      FieldIsShort(b, 4);
      FieldIsShort(b, 6);
      FieldIsWord(b, 8);
      FieldIsLong(b, 12);
    }
  }

  /** A new order: id, timestamp, price and quantity of eight bytes each, three codes, and the symbol. */
  lemma {:induction false} NewOrderBytes(b: seq<Byte>)
    ensures DecodeNewOrder(b).Some? <==>
      |b| == 43 && Long(b, 24) > 0 && 1 <= b[32] <= 2 && 1 <= b[33] <= 2 && b[34] <= 2 && IsSymbol(b[35..43])
    ensures DecodeNewOrder(b).Some? ==>
      var q := DecodeNewOrder(b).value;
      && q.id == Long(b, 0) && q.timestamp == Long(b, 8) && q.price == SignedLong(b, 16) && q.quantity == Long(b, 24)
      && b[32] == (match q.side case Buy => 1 case Sell => 2)
      && b[33] == (match q.kind case Limit => 1 case Market => 2)
      && b[34] == (match q.tif case GoodTillCancel => 0 case ImmediateOrCancel => 1 case FillOrKill => 2)
      && q.symbol == b[35..43]
  {
    hide Field, Long, SignedLong, ToSigned, ValidSymbol, IsSymbol;
    if |b| == NEW_ORDER_BODY_SIZE {
      FieldIsLong(b, 0);
      FieldIsLong(b, 8);
      FieldIsLong(b, 16);
      FieldIsLong(b, 24);
      SymbolsAreSpelled(b[35..43]);
    }
  }

  /** A cancel: id and timestamp of eight bytes each, and the symbol. */
  lemma {:induction false} CancelOrderBytes(b: seq<Byte>)
    ensures DecodeCancelOrder(b).Some? <==> |b| == 24 && IsSymbol(b[16..24])
    ensures DecodeCancelOrder(b).Some? ==> DecodeCancelOrder(b).value == CancelOrderRequest(Long(b, 0), Long(b, 8), b[16..24])
  {
    hide Field, Long, ValidSymbol, IsSymbol;
    if |b| == CANCEL_ORDER_BODY_SIZE {
      FieldIsLong(b, 0);
      FieldIsLong(b, 8);
      SymbolsAreSpelled(b[16..24]);
    }
  }

  /** A replacement: id, timestamp, price and quantity of eight bytes each, and the symbol. */
  lemma {:induction false} ReplaceOrderBytes(b: seq<Byte>)
    ensures DecodeReplaceOrder(b).Some? <==> |b| == 40 && Long(b, 24) > 0 && IsSymbol(b[32..40])
    ensures DecodeReplaceOrder(b).Some? ==>
      DecodeReplaceOrder(b).value == ReplaceOrderRequest(Long(b, 0), Long(b, 8), SignedLong(b, 16), Long(b, 24), b[32..40])
  {
    hide Field, Long, SignedLong, ToSigned, ValidSymbol, IsSymbol;
    if |b| == REPLACE_ORDER_BODY_SIZE {
      FieldIsLong(b, 0);
      FieldIsLong(b, 8);
      FieldIsLong(b, 16);
      FieldIsLong(b, 24);
      SymbolsAreSpelled(b[32..40]);
    }
  }

  /** A journal record: four bytes of length, then the message. */
  lemma {:induction false} RecordBytes(record: seq<Byte>)
    requires |record| < 0x1_0000_0000
    ensures var frame := Journal.Frame(record);
      |frame| == 4 + |record| && Word(frame, 0) == |record| && frame[4..] == record
  {
    hide Word;
    LittleEndianWidth(|record|, 4);
    Ranges();
    ReadWhatWasWritten(|record|, 4);
    FieldIsWord(Journal.Frame(record), 0);
    assert Journal.Frame(record)[0..4] == LittleEndian(|record|, 4);
  }
}
