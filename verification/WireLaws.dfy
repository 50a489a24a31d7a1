/** Encoding and decoding are inverse to each other, in both directions. */
module WireLaws {
  import opened ExchangeTypes
  import opened Wire

  lemma {:induction false} FieldReads(input: seq<Byte>, offset: nat, value: nat, width: nat)
    requires value < Range(width)
    requires offset + width <= |input| && input[offset..offset + width] == LittleEndian(value, width)
    ensures Field(input, offset, width) == value
  {
    ReadWhatWasWritten(value, width);
  }

  // The parts of a concatenation are where their lengths put them.
  lemma {:induction false} Parts(a: seq<Byte>, b: seq<Byte>, c: seq<Byte>, d: seq<Byte>, e: seq<Byte>)
    ensures var all := a + b + c + d + e;
      && |all| == |a| + |b| + |c| + |d| + |e|
      && all[0..|a|] == a
      && all[|a|..|a| + |b|] == b
      && all[|a| + |b|..|a| + |b| + |c|] == c
      && all[|a| + |b| + |c|..|a| + |b| + |c| + |d|] == d
      && all[|a| + |b| + |c| + |d|..|a| + |b| + |c| + |d| + |e|] == e
  {
  }

  lemma {:induction false} Slices(input: seq<Byte>, i: nat, j: nat, k: nat, l: nat)
    requires i <= j <= k <= l <= |input|
    ensures input[0..i] + input[i..j] + input[j..k] + input[k..l] + input[l..] == input
  {
    Rejoin(input, i, j);
    Rejoin(input, j, k);
    Rejoin(input, k, l);
  }

  lemma Rejoin(input: seq<Byte>, i: nat, j: nat)
    requires i <= j <= |input|
    ensures input[0..i] + input[i..j] == input[0..j]
  {
  }

  // Four fields that spell their bytes again.
  lemma {:induction false} FourFieldsWrite(input: seq<Byte>)
    requires |input| >= 32
    ensures var p, q, r, s := Field(input, 0, 8), Field(input, 8, 8), Field(input, 16, 8), Field(input, 24, 8);
      && p < U64 && q < U64 && r < U64 && s < U64
      && LittleEndian(p, 8) + LittleEndian(q, 8) + LittleEndian(r, 8) + LittleEndian(s, 8) + input[32..] == input
  {
    hide LittleEndian, FromLittleEndian;
    Ranges();
    FieldWrites(input, 0, 8);
    FieldWrites(input, 8, 8);
    FieldWrites(input, 16, 8);
    FieldWrites(input, 24, 8);
    Slices(input, 8, 16, 24, 32);
  }

  // The four 64-bit fields that open a new order and a replacement.
  lemma {:induction false} FourFields(p: nat, q: nat, r: nat, s: nat, rest: seq<Byte>)
    requires p < U64 && q < U64 && r < U64 && s < U64
    ensures var all := LittleEndian(p, 8) + LittleEndian(q, 8) + LittleEndian(r, 8) + LittleEndian(s, 8) + rest;
      && |all| == 32 + |rest| && all[32..] == rest
      && Field(all, 0, 8) == p && Field(all, 8, 8) == q && Field(all, 16, 8) == r && Field(all, 24, 8) == s
  {
    hide LittleEndian, FromLittleEndian;
    Ranges();
    LittleEndianWidth(p, 8);
    LittleEndianWidth(q, 8);
    LittleEndianWidth(r, 8);
    LittleEndianWidth(s, 8);
    Parts(LittleEndian(p, 8), LittleEndian(q, 8), LittleEndian(r, 8), LittleEndian(s, 8), rest);
    var all := LittleEndian(p, 8) + LittleEndian(q, 8) + LittleEndian(r, 8) + LittleEndian(s, 8) + rest;
    FieldReads(all, 0, p, 8);
    FieldReads(all, 8, q, 8);
    FieldReads(all, 16, r, 8);
    FieldReads(all, 24, s, 8);
  }

  lemma {:induction false} FieldWrites(input: seq<Byte>, offset: nat, width: nat)
    requires offset + width <= |input|
    ensures LittleEndian(Field(input, offset, width), width) == input[offset..offset + width]
    ensures Field(input, offset, width) < Range(width)
  {
    WriteWhatWasRead(input[offset..offset + width]);
  }

  // ---- Header -----------------------------------------------------------------------------

  lemma {:induction false} HeaderRoundTrip(h: Header)
    requires ValidHeader(h)
    ensures DecodeHeader(EncodeHeader(h)) == Some(h)
  {
    hide LittleEndian, FromLittleEndian;
    Ranges();
    LittleEndianWidth(h.magic, 4);
    LittleEndianWidth(h.version, 2);
    LittleEndianWidth(h.kind, 2);
    LittleEndianWidth(h.bodySize, 4);
    LittleEndianWidth(h.sequence, 8);
    Parts(LittleEndian(h.magic, 4), LittleEndian(h.version, 2), LittleEndian(h.kind, 2),
          LittleEndian(h.bodySize, 4), LittleEndian(h.sequence, 8));
    FieldReads(EncodeHeader(h), 0, h.magic, 4);
    FieldReads(EncodeHeader(h), 4, h.version, 2);
    FieldReads(EncodeHeader(h), 6, h.kind, 2);
    FieldReads(EncodeHeader(h), 8, h.bodySize, 4);
    FieldReads(EncodeHeader(h), 12, h.sequence, 8);
  }

  lemma {:induction false} HeaderInverse(input: seq<Byte>)
    requires DecodeHeader(input).Some?
    ensures ValidHeader(DecodeHeader(input).value) && EncodeHeader(DecodeHeader(input).value) == input
  {
    hide LittleEndian, FromLittleEndian;
    Ranges();
    FieldWrites(input, 0, 4);
    FieldWrites(input, 4, 2);
    FieldWrites(input, 6, 2);
    FieldWrites(input, 8, 4);
    FieldWrites(input, 12, 8);
    Slices(input, 4, 6, 8, 12);
    assert input[12..20] == input[12..];
  }

  // ---- Requests -----------------------------------------------------------------------------

  lemma {:induction false} NewOrderRoundTrip(q: NewOrderRequest)
    requires ValidNewOrder(q)
    ensures DecodeNewOrder(EncodeNewOrder(q)) == Some(q)
  {
    hide LittleEndian, FromLittleEndian;
    var tail := [SideCode(q.side), KindCode(q.kind), TifCode(q.tif)] + q.symbol;
    FourFields(q.id, q.timestamp, ToUnsigned(q.price), q.quantity, tail);
    var all := EncodeNewOrder(q);
    assert all == LittleEndian(q.id, 8) + LittleEndian(q.timestamp, 8) + LittleEndian(ToUnsigned(q.price), 8)
      + LittleEndian(q.quantity, 8) + tail;
    TailFields(all, tail, q);
  }

  lemma {:induction false} TailFields(all: seq<Byte>, tail: seq<Byte>, q: NewOrderRequest)
    requires |q.symbol| == 8
    requires tail == [SideCode(q.side), KindCode(q.kind), TifCode(q.tif)] + q.symbol
    requires |all| == 43 && all[32..] == tail
    ensures all[32] == SideCode(q.side) && all[33] == KindCode(q.kind) && all[34] == TifCode(q.tif)
    ensures all[35..43] == q.symbol
  {
    assert all[32] == all[32..][0] && all[33] == all[32..][1] && all[34] == all[32..][2];
    assert all[35..43] == all[32..][3..];
  }

  lemma {:induction false} NewOrderInverse(input: seq<Byte>)
    requires DecodeNewOrder(input).Some?
    ensures ValidNewOrder(DecodeNewOrder(input).value) && EncodeNewOrder(DecodeNewOrder(input).value) == input
  {
    hide LittleEndian, FromLittleEndian;
    var q := DecodeNewOrder(input).value;
    FourFieldsWrite(input);
    CodesInverse(input);
    assert EncodeNewOrder(q) == LittleEndian(q.id, 8) + LittleEndian(q.timestamp, 8) + LittleEndian(ToUnsigned(q.price), 8)
      + LittleEndian(q.quantity, 8) + ([SideCode(q.side), KindCode(q.kind), TifCode(q.tif)] + q.symbol);
  }

  lemma {:induction false} CodesInverse(input: seq<Byte>)
    requires DecodeNewOrder(input).Some?
    ensures var q := DecodeNewOrder(input).value;
      && SideCode(q.side) == input[32] && KindCode(q.kind) == input[33] && TifCode(q.tif) == input[34]
      && q.symbol == input[35..43] && ValidSymbol(q.symbol)
      && [SideCode(q.side), KindCode(q.kind), TifCode(q.tif)] + q.symbol == input[32..]
  {
    assert input[32..][3..] == input[35..43];
  }

  lemma {:induction false} CancelOrderRoundTrip(q: CancelOrderRequest)
    requires ValidCancelOrder(q)
    ensures DecodeCancelOrder(EncodeCancelOrder(q)) == Some(q)
  {
    hide LittleEndian, FromLittleEndian;
    Ranges();
    LittleEndianWidth(q.id, 8);
    LittleEndianWidth(q.timestamp, 8);
    Parts(LittleEndian(q.id, 8), LittleEndian(q.timestamp, 8), q.symbol, [], []);
    var all := EncodeCancelOrder(q);
    assert all == LittleEndian(q.id, 8) + LittleEndian(q.timestamp, 8) + q.symbol + [] + [];
    FieldReads(all, 0, q.id, 8);
    FieldReads(all, 8, q.timestamp, 8);
  }

  lemma {:induction false} CancelOrderInverse(input: seq<Byte>)
    requires DecodeCancelOrder(input).Some?
    ensures ValidCancelOrder(DecodeCancelOrder(input).value) && EncodeCancelOrder(DecodeCancelOrder(input).value) == input
  {
    hide LittleEndian, FromLittleEndian;
    Ranges();
    FieldWrites(input, 0, 8);
    FieldWrites(input, 8, 8);
    Slices(input, 8, 16, 24, 24);
    assert input[16..24] + input[24..24] + input[24..] == input[16..24];
  }

  lemma {:induction false} ReplaceOrderRoundTrip(q: ReplaceOrderRequest)
    requires ValidReplaceOrder(q)
    ensures DecodeReplaceOrder(EncodeReplaceOrder(q)) == Some(q)
  {
    hide LittleEndian, FromLittleEndian;
    FourFields(q.id, q.timestamp, ToUnsigned(q.price), q.quantity, q.symbol);
    assert EncodeReplaceOrder(q)[32..40] == EncodeReplaceOrder(q)[32..];
  }

  lemma {:induction false} ReplaceOrderInverse(input: seq<Byte>)
    requires DecodeReplaceOrder(input).Some?
    ensures ValidReplaceOrder(DecodeReplaceOrder(input).value)
    ensures EncodeReplaceOrder(DecodeReplaceOrder(input).value) == input
  {
    hide LittleEndian, FromLittleEndian;
    FourFieldsWrite(input);
    assert input[32..40] == input[32..];
  }

  lemma HeaderWidth(h: Header)
    ensures |EncodeHeader(h)| == HEADER_SIZE
  {
    LittleEndianWidth(h.magic, 4);
    LittleEndianWidth(h.version, 2);
    LittleEndianWidth(h.kind, 2);
    LittleEndianWidth(h.bodySize, 4);
    LittleEndianWidth(h.sequence, 8);
  }
}
