/** The fixed-width binary protocol: what its bytes mean. */
module Wire {
  import opened ExchangeTypes

  type Byte = b: int | 0 <= b < 256

  // ---- Integers ---------------------------------------------------------------------------

  function LittleEndian(value: nat, width: nat): seq<Byte> {
    if width == 0 then [] else [value % 256] + LittleEndian(value / 256, width - 1)
  }

  // One byte written: it joins what is written already.
  lemma OneByteWritten(written: seq<Byte>, value: nat, width: nat)
    requires width > 0
    ensures written + LittleEndian(value, width) == (written + [value % 256]) + LittleEndian(value / 256, width - 1)
  {
    assert written + ([value % 256] + LittleEndian(value / 256, width - 1)) == (written + [value % 256]) + LittleEndian(value / 256, width - 1);
  }

  lemma NothingWritten(written: seq<Byte>, value: nat)
    ensures written + LittleEndian(value, 0) == written
  {
  }

  function FromLittleEndian(bytes: seq<Byte>): nat {
    if bytes == [] then 0 else bytes[0] + 256 * FromLittleEndian(bytes[1..])
  }

  function Range(width: nat): nat {
    if width == 0 then 1 else 256 * Range(width - 1)
  }

  lemma {:induction false} LittleEndianWidth(value: nat, width: nat)
    ensures |LittleEndian(value, width)| == width
  {
    if width > 0 {
      LittleEndianWidth(value / 256, width - 1);
    }
  }

  lemma {:induction false} ReadWhatWasWritten(value: nat, width: nat)
    requires value < Range(width)
    ensures FromLittleEndian(LittleEndian(value, width)) == value
  {
    if width > 0 {
      ReadWhatWasWritten(value / 256, width - 1);
    }
  }

  lemma {:induction false} WriteWhatWasRead(bytes: seq<Byte>)
    ensures LittleEndian(FromLittleEndian(bytes), |bytes|) == bytes
    ensures FromLittleEndian(bytes) < Range(|bytes|)
  {
    if bytes != [] {
      WriteWhatWasRead(bytes[1..]);
    }
  }

  lemma Ranges()
    ensures Range(1) == 0x100 && Range(2) == 0x1_0000 && Range(4) == 0x1_0000_0000
    ensures Range(8) == 0x1_0000_0000_0000_0000
  {
    assert Range(3) == 0x100_0000;
    assert Range(5) == 0x100_0000_0000;
    assert Range(6) == 0x1_0000_0000_0000;
    assert Range(7) == 0x100_0000_0000_0000;
  }

  const U64: nat := 0x1_0000_0000_0000_0000
  const I64: int := 0x8000_0000_0000_0000

  // Two's complement.
  function ToUnsigned(value: int): int {
    if value < 0 then value + U64 else value
  }

  function ToSigned(value: nat): int {
    if value < I64 then value else value - U64
  }

  // ---- Symbols ------------------------------------------------------------------------------

  predicate SymbolCharacter(b: Byte) {
    'A' as int <= b <= 'Z' as int || '0' as int <= b <= '9' as int || b == '.' as int || b == '-' as int
  }

  // The text of a symbol field: what stands before its first NUL.
  function SymbolLength(field: seq<Byte>): (n: nat)
    ensures n <= |field|
  {
    if field == [] || field[0] == 0 then 0 else 1 + SymbolLength(field[1..])
  }

  // Eight bytes: at least one allowed character, then only NULs.
  predicate ValidSymbol(field: seq<Byte>) {
    && |field| == 8
    && SymbolLength(field) > 0
    && (forall i :: 0 <= i < SymbolLength(field) ==> SymbolCharacter(field[i]))
    && (forall i :: SymbolLength(field) <= i < 8 ==> field[i] == 0)
  }

  function SymbolText(field: seq<Byte>): string {
    if !ValidSymbol(field) then "" else seq(SymbolLength(field), i requires 0 <= i < SymbolLength(field) => field[i] as char)
  }

  // ---- Messages -----------------------------------------------------------------------------

  const MAGIC: nat := 0x45584C42
  const VERSION: nat := 3

  const NEW_ORDER: nat := 1
  const CANCEL_ORDER: nat := 2
  const REPLACE_ORDER: nat := 3

  const HEADER_SIZE: nat := 20
  const NEW_ORDER_BODY_SIZE: nat := 43
  const CANCEL_ORDER_BODY_SIZE: nat := 24
  const REPLACE_ORDER_BODY_SIZE: nat := 40

  datatype Header = Header(magic: nat, version: nat, kind: nat, bodySize: nat, sequence: nat)

  datatype NewOrderRequest = NewOrderRequest(
    id: OrderId,
    timestamp: Timestamp,
    price: Price,
    quantity: nat,
    side: Side,
    kind: OrderKind,
    tif: TimeInForce,
    symbol: seq<Byte>)

  datatype CancelOrderRequest = CancelOrderRequest(id: OrderId, timestamp: Timestamp, symbol: seq<Byte>)

  datatype ReplaceOrderRequest = ReplaceOrderRequest(
    id: OrderId,
    timestamp: Timestamp,
    price: Price,
    quantity: nat,
    symbol: seq<Byte>)

  // The values a message can carry.
  predicate ValidHeader(h: Header) {
    && h.magic == MAGIC && h.version == VERSION
    && h.kind < 0x1_0000 && h.bodySize < 0x1_0000_0000 && h.sequence < U64
  }

  predicate ValidNewOrder(q: NewOrderRequest) {
    && q.id < U64 && q.timestamp < U64 && -I64 <= q.price < I64 && 0 < q.quantity < U64
    && ValidSymbol(q.symbol)
  }

  predicate ValidCancelOrder(q: CancelOrderRequest) {
    q.id < U64 && q.timestamp < U64 && ValidSymbol(q.symbol)
  }

  predicate ValidReplaceOrder(q: ReplaceOrderRequest) {
    && q.id < U64 && q.timestamp < U64 && -I64 <= q.price < I64 && 0 < q.quantity < U64
    && ValidSymbol(q.symbol)
  }

  function SideCode(side: Side): Byte {
    match side case Buy => 1 case Sell => 2
  }

  function KindCode(kind: OrderKind): Byte {
    match kind case Limit => 1 case Market => 2
  }

  function TifCode(tif: TimeInForce): Byte {
    match tif case GoodTillCancel => 0 case ImmediateOrCancel => 1 case FillOrKill => 2
  }

  function EncodeHeader(h: Header): seq<Byte> {
    LittleEndian(h.magic, 4) + LittleEndian(h.version, 2) + LittleEndian(h.kind, 2)
    + LittleEndian(h.bodySize, 4) + LittleEndian(h.sequence, 8)
  }

  // The unsigned integer in a field of a message.
  function Field(input: seq<Byte>, offset: nat, width: nat): nat
    requires offset + width <= |input|
  {
    FromLittleEndian(input[offset..offset + width])
  }

  function DecodeHeader(input: seq<Byte>): Option<Header> {
    if |input| != HEADER_SIZE then None
    else
      var h := Header(Field(input, 0, 4), Field(input, 4, 2), Field(input, 6, 2), Field(input, 8, 4), Field(input, 12, 8));
      if h.magic == MAGIC && h.version == VERSION then Some(h) else None
  }

  function EncodeNewOrder(q: NewOrderRequest): seq<Byte>
    requires -I64 <= q.price
  {
    LittleEndian(q.id, 8) + LittleEndian(q.timestamp, 8) + LittleEndian(ToUnsigned(q.price), 8)
    + LittleEndian(q.quantity, 8) + [SideCode(q.side), KindCode(q.kind), TifCode(q.tif)] + q.symbol
  }

  function DecodeNewOrder(input: seq<Byte>): Option<NewOrderRequest> {
    if |input| != NEW_ORDER_BODY_SIZE then None
    else if !ValidSymbol(input[35..43]) then None
    else if input[32] !in {1, 2} || input[33] !in {1, 2} || input[34] !in {0, 1, 2} then None
    else if Field(input, 24, 8) == 0 then None
    else
      Some(NewOrderRequest(
        Field(input, 0, 8), Field(input, 8, 8), ToSigned(Field(input, 16, 8)), Field(input, 24, 8),
        if input[32] == 1 then Buy else Sell,
        if input[33] == 1 then Limit else Market,
        if input[34] == 0 then GoodTillCancel else if input[34] == 1 then ImmediateOrCancel else FillOrKill,
        input[35..43]))
  }

  function EncodeCancelOrder(q: CancelOrderRequest): seq<Byte> {
    LittleEndian(q.id, 8) + LittleEndian(q.timestamp, 8) + q.symbol
  }

  function DecodeCancelOrder(input: seq<Byte>): Option<CancelOrderRequest> {
    if |input| != CANCEL_ORDER_BODY_SIZE || !ValidSymbol(input[16..24]) then None
    else Some(CancelOrderRequest(Field(input, 0, 8), Field(input, 8, 8), input[16..24]))
  }

  function EncodeReplaceOrder(q: ReplaceOrderRequest): seq<Byte>
    requires -I64 <= q.price
  {
    LittleEndian(q.id, 8) + LittleEndian(q.timestamp, 8) + LittleEndian(ToUnsigned(q.price), 8)
    + LittleEndian(q.quantity, 8) + q.symbol
  }

  function DecodeReplaceOrder(input: seq<Byte>): Option<ReplaceOrderRequest> {
    if |input| != REPLACE_ORDER_BODY_SIZE || !ValidSymbol(input[32..40]) || Field(input, 24, 8) == 0 then None
    else
      Some(ReplaceOrderRequest(
        Field(input, 0, 8), Field(input, 8, 8), ToSigned(Field(input, 16, 8)), Field(input, 24, 8), input[32..40]))
  }
}
