/**
 The encoders and decoders as they run: integers and symbols written byte by byte at an advancing
 offset, and read back with a cursor. Each is proved to compute the bytes or value Wire defines.
 */
module Codec {
  import opened ExchangeTypes
  import opened Wire

  // ---- Integers ---------------------------------------------------------------------------------

  // Least significant byte first; bits beyond the width are cut off.
  method WriteInteger(output: array<Byte>, offset: nat, value: nat, width: nat) returns (next: nat)
    requires offset + width <= output.Length
    modifies output
    ensures next == offset + width
    ensures output[..next] == old(output[..offset]) + LittleEndian(value, width)
  {
    hide LittleEndian;
    next := offset;
    var shifted := value;
    for index := 0 to width
      invariant next == offset + index
      invariant output[..next] + LittleEndian(shifted, width - index) == old(output[..offset]) + LittleEndian(value, width)
    {
      ghost var before := output[..next];
      OneByteWritten(before, shifted, width - index);
      output[next] := shifted % 256;
      next := next + 1;
      assert output[..next] == before + [shifted % 256];
      shifted := shifted / 256;
    }
    NothingWritten(output[..next], shifted);
  }

  method WriteSymbol(output: array<Byte>, offset: nat, symbol: seq<Byte>) returns (next: nat)
    requires offset + |symbol| <= output.Length
    modifies output
    ensures next == offset + |symbol|
    ensures output[..next] == old(output[..offset]) + symbol
  {
    next := offset;
    for index := 0 to |symbol|
      invariant next == offset + index
      invariant output[..next] == old(output[..offset]) + symbol[..index]
    {
      output[next] := symbol[index];
      next := next + 1;
    }
  }

  // A byte shifted left by this many bytes.
  function Shifted(byte: Byte, places: nat): nat {
    if places == 0 then byte else 256 * Shifted(byte, places - 1)
  }

  // The next byte read is the next more significant one.
  lemma {:induction false} OneMoreByte(bytes: seq<Byte>, byte: Byte)
    ensures FromLittleEndian(bytes + [byte]) == FromLittleEndian(bytes) + Shifted(byte, |bytes|)
  {
    if bytes == [] {
      assert ([] + [byte])[1..] == [];
    } else {
      assert (bytes + [byte])[1..] == bytes[1..] + [byte];
      OneMoreByte(bytes[1..], byte);
    }
  }

  // Nothing is read, and the cursor stays, when the input is too short.
  method ReadInteger(input: seq<Byte>, offset: nat, width: nat) returns (value: Option<nat>, next: nat)
    ensures offset + width > |input| ==> value == None && next == offset
    ensures offset + width <= |input| ==> value == Some(Field(input, offset, width)) && next == offset + width
  {
    hide Shifted, FromLittleEndian;
    next := offset;
    if offset + width > |input| {
      return None, next;
    }
    var sum: nat := 0;
    NothingRead();
    assert input[offset..next] == [];
    for index := 0 to width
      invariant next == offset + index
      invariant sum == FromLittleEndian(input[offset..next])
    {
      OneMoreByte(input[offset..next], input[next]);
      assert input[offset..next + 1] == input[offset..next] + [input[next]];
      sum := sum + Shifted(input[next], index);
      next := next + 1;
    }
    return Some(sum), next;
  }

  lemma NothingRead()
    ensures FromLittleEndian([]) == 0
  {
  }

  // ---- Symbols ------------------------------------------------------------------------------------

  // One pass: characters first, then only terminators, and at least one character.
  method IsValidSymbol(symbol: seq<Byte>) returns (valid: bool)
    requires |symbol| == 8
    ensures valid <==> ValidSymbol(symbol)
  {
    var sawCharacter, sawTerminator := false, false;
    for index := 0 to 8
      invariant sawCharacter <==> SymbolLength(symbol[..index]) > 0
      invariant sawTerminator <==> SymbolLength(symbol[..index]) < index
      invariant forall i :: 0 <= i < SymbolLength(symbol[..index]) ==> SymbolCharacter(symbol[i])
      invariant forall i :: SymbolLength(symbol[..index]) <= i < index ==> symbol[i] == 0
    {
      SymbolLengthGrows(symbol, index);
      if symbol[index] == 0 {
        sawTerminator := true;
        continue;
      }
      if sawTerminator {
        TextEnds(symbol, index);
        return false;
      }
      if !SymbolCharacter(symbol[index]) {
        TextGoesOn(symbol, index);
        return false;
      }
      sawCharacter := true;
    }
    assert symbol[..8] == symbol;
    return sawCharacter;
  }

  lemma {:induction false} SymbolLengthGrows(symbol: seq<Byte>, k: nat)
    requires k < |symbol|
    ensures SymbolLength(symbol[..k + 1]) ==
      if SymbolLength(symbol[..k]) == k && symbol[k] != 0 then k + 1 else SymbolLength(symbol[..k])
  {
    if k > 0 && symbol[0] != 0 {
      SymbolLengthGrows(symbol[1..], k - 1);
      assert symbol[..k + 1][1..] == symbol[1..][..k] && symbol[..k][1..] == symbol[1..][..k - 1];
    }
  }

  // Once ended, the text is no longer.
  lemma {:induction false} TextEnds(symbol: seq<Byte>, k: nat)
    requires k <= |symbol| && SymbolLength(symbol[..k]) < k
    ensures SymbolLength(symbol) == SymbolLength(symbol[..k])
  {
    if symbol[0] != 0 {
      assert symbol[..k][1..] == symbol[1..][..k - 1];
      TextEnds(symbol[1..], k - 1);
    }
  }

  // A character after nothing but characters belongs to the text.
  lemma {:induction false} TextGoesOn(symbol: seq<Byte>, k: nat)
    requires k < |symbol| && SymbolLength(symbol[..k]) == k && symbol[k] != 0
    ensures SymbolLength(symbol) > k
  {
    if k > 0 {
      assert symbol[..k][1..] == symbol[1..][..k - 1];
      TextGoesOn(symbol[1..], k - 1);
    }
  }

  method ReadSymbol(input: seq<Byte>, offset: nat) returns (symbol: Option<seq<Byte>>, next: nat)
    ensures offset + 8 > |input| ==> symbol == None && next == offset
    ensures offset + 8 <= |input| ==>
      && next == offset + 8
      && symbol == if ValidSymbol(input[offset..next]) then Some(input[offset..next]) else None
  {
    next := offset;
    if offset + 8 > |input| {
      return None, next;
    }
    var text := [];
    for index := 0 to 8
      invariant next == offset + index && text == input[offset..next]
    {
      text := text + [input[next]];
      next := next + 1;
    }
    var valid := IsValidSymbol(text);
    return if valid then Some(text) else None, next;
  }

  // ---- Messages -------------------------------------------------------------------------------------

  method EncodeHeader(header: Header) returns (output: array<Byte>)
    ensures fresh(output) && output[..] == Wire.EncodeHeader(header)
  {
    hide LittleEndian;
    output := new Byte[HEADER_SIZE](_ => 0);
    var offset := WriteInteger(output, 0, header.magic, 4);
    offset := WriteInteger(output, offset, header.version, 2);
    offset := WriteInteger(output, offset, header.kind, 2);
    offset := WriteInteger(output, offset, header.bodySize, 4);
    offset := WriteInteger(output, offset, header.sequence, 8);
    assert output[..] == output[..offset];
  }

  method DecodeHeader(input: seq<Byte>) returns (header: Option<Header>)
    ensures header == Wire.DecodeHeader(input)
  {
    hide FromLittleEndian;
    if |input| != HEADER_SIZE {
      return None;
    }
    var magic, offset := ReadInteger(input, 0, 4);
    var version, kind, bodySize, sequence;
    version, offset := ReadInteger(input, offset, 2);
    kind, offset := ReadInteger(input, offset, 2);
    bodySize, offset := ReadInteger(input, offset, 4);
    sequence, offset := ReadInteger(input, offset, 8);
    if magic != Some(MAGIC) || version != Some(VERSION) {
      return None;
    }
    return Some(Header(magic.value, version.value, kind.value, bodySize.value, sequence.value));
  }

  method EncodeNewOrder(request: NewOrderRequest) returns (output: array<Byte>)
    requires -I64 <= request.price < I64 && |request.symbol| == 8
    ensures fresh(output) && output[..] == Wire.EncodeNewOrder(request)
  {
    hide LittleEndian, Wire.EncodeNewOrder, SideCode, KindCode, TifCode;
    output := new Byte[NEW_ORDER_BODY_SIZE](_ => 0);
    var offset := WriteInteger(output, 0, request.id, 8);
    offset := WriteInteger(output, offset, request.timestamp, 8);
    offset := WriteInteger(output, offset, ToUnsigned(request.price), 8);
    offset := WriteInteger(output, offset, request.quantity, 8);
    OneByte(SideCode(request.side));
    offset := WriteInteger(output, offset, SideCode(request.side), 1);
    OneByte(KindCode(request.kind));
    offset := WriteInteger(output, offset, KindCode(request.kind), 1);
    OneByte(TifCode(request.tif));
    offset := WriteInteger(output, offset, TifCode(request.tif), 1);
    offset := WriteSymbol(output, offset, request.symbol);
    assert output[..] == output[..offset];
    NewOrderBytes(request);
  }

  // One field behind the other.
  lemma NewOrderBytes(q: NewOrderRequest)
    requires -I64 <= q.price < I64
    ensures Wire.EncodeNewOrder(q) == [] + LittleEndian(q.id, 8) + LittleEndian(q.timestamp, 8) + LittleEndian(ToUnsigned(q.price), 8)
      + LittleEndian(q.quantity, 8) + [SideCode(q.side)] + [KindCode(q.kind)] + [TifCode(q.tif)] + q.symbol
  {
    hide LittleEndian;
    var front := LittleEndian(q.id, 8) + LittleEndian(q.timestamp, 8) + LittleEndian(ToUnsigned(q.price), 8) + LittleEndian(q.quantity, 8);
    assert [] + LittleEndian(q.id, 8) == LittleEndian(q.id, 8);
    assert front + [SideCode(q.side), KindCode(q.kind), TifCode(q.tif)] == front + [SideCode(q.side)] + [KindCode(q.kind)] + [TifCode(q.tif)];
  }

  lemma OneByte(value: Byte)
    ensures LittleEndian(value, 1) == [value]
  {
    assert LittleEndian(value / 256, 0) == [];
  }

  lemma ReadOneByte(input: seq<Byte>, offset: nat)
    requires offset < |input|
    ensures Field(input, offset, 1) == input[offset]
  {
    assert input[offset..offset + 1] == [input[offset]];
    assert FromLittleEndian([input[offset]][1..]) == 0;
  }

  method DecodeNewOrder(input: seq<Byte>) returns (request: Option<NewOrderRequest>)
    ensures request == Wire.DecodeNewOrder(input)
  {
    hide FromLittleEndian, ValidSymbol;
    if |input| != NEW_ORDER_BODY_SIZE {
      return None;
    }
    var id, offset := ReadInteger(input, 0, 8);
    var timestamp, price, quantity, side, kind, tif, symbol;
    timestamp, offset := ReadInteger(input, offset, 8);
    price, offset := ReadInteger(input, offset, 8);
    quantity, offset := ReadInteger(input, offset, 8);
    ReadOneByte(input, 32);
    side, offset := ReadInteger(input, offset, 1);
    ReadOneByte(input, 33);
    kind, offset := ReadInteger(input, offset, 1);
    ReadOneByte(input, 34);
    tif, offset := ReadInteger(input, offset, 1);
    symbol, offset := ReadSymbol(input, offset);
    if symbol.None? || side.value !in {1, 2} || kind.value !in {1, 2} || tif.value !in {0, 1, 2} || quantity.value == 0 {
      return None;
    }
    return Some(NewOrderRequest(
      id.value, timestamp.value, ToSigned(price.value), quantity.value,
      if side.value == 1 then Buy else Sell,
      if kind.value == 1 then Limit else Market,
      if tif.value == 0 then GoodTillCancel else if tif.value == 1 then ImmediateOrCancel else FillOrKill,
      symbol.value));
  }

  method EncodeCancelOrder(request: CancelOrderRequest) returns (output: array<Byte>)
    requires |request.symbol| == 8
    ensures fresh(output) && output[..] == Wire.EncodeCancelOrder(request)
  {
    hide LittleEndian;
    output := new Byte[CANCEL_ORDER_BODY_SIZE](_ => 0);
    var offset := WriteInteger(output, 0, request.id, 8);
    offset := WriteInteger(output, offset, request.timestamp, 8);
    offset := WriteSymbol(output, offset, request.symbol);
    assert output[..] == output[..offset];
  }

  method DecodeCancelOrder(input: seq<Byte>) returns (request: Option<CancelOrderRequest>)
    ensures request == Wire.DecodeCancelOrder(input)
  {
    hide FromLittleEndian, ValidSymbol;
    if |input| != CANCEL_ORDER_BODY_SIZE {
      return None;
    }
    var id, offset := ReadInteger(input, 0, 8);
    var timestamp, symbol;
    timestamp, offset := ReadInteger(input, offset, 8);
    symbol, offset := ReadSymbol(input, offset);
    if symbol.None? {
      return None;
    }
    return Some(CancelOrderRequest(id.value, timestamp.value, symbol.value));
  }

  method EncodeReplaceOrder(request: ReplaceOrderRequest) returns (output: array<Byte>)
    requires -I64 <= request.price < I64 && |request.symbol| == 8
    ensures fresh(output) && output[..] == Wire.EncodeReplaceOrder(request)
  {
    hide LittleEndian;
    output := new Byte[REPLACE_ORDER_BODY_SIZE](_ => 0);
    var offset := WriteInteger(output, 0, request.id, 8);
    offset := WriteInteger(output, offset, request.timestamp, 8);
    offset := WriteInteger(output, offset, ToUnsigned(request.price), 8);
    offset := WriteInteger(output, offset, request.quantity, 8);
    offset := WriteSymbol(output, offset, request.symbol);
    assert output[..] == output[..offset];
  }

  method DecodeReplaceOrder(input: seq<Byte>) returns (request: Option<ReplaceOrderRequest>)
    ensures request == Wire.DecodeReplaceOrder(input)
  {
    hide FromLittleEndian, ValidSymbol;
    if |input| != REPLACE_ORDER_BODY_SIZE {
      return None;
    }
    var id, offset := ReadInteger(input, 0, 8);
    var timestamp, price, quantity, symbol;
    timestamp, offset := ReadInteger(input, offset, 8);
    price, offset := ReadInteger(input, offset, 8);
    quantity, offset := ReadInteger(input, offset, 8);
    symbol, offset := ReadSymbol(input, offset);
    if symbol.None? || quantity.value == 0 {
      return None;
    }
    return Some(ReplaceOrderRequest(id.value, timestamp.value, ToSigned(price.value), quantity.value, symbol.value));
  }
}
