/** The FIX 4.4 tag=value codec: what a message's bytes are, and what bytes are a message. */
module Fix {
  import opened ExchangeTypes

  type Octet = c: char | c as int < 256 witness 'a'
  type Text = seq<Octet>

  const SOH: Octet := '\U{0001}'
  const PREFIX: Text := "8=FIX.4.4\U{0001}"
  const LENGTH_TAG: Text := "9="
  const CHECKSUM_TAG: Text := "10="

  const SIZE_RANGE: nat := 0x1_0000_0000_0000_0000
  const TAG_RANGE: nat := 0x8000_0000

  datatype Field = Field(tag: int, value: Text)

  datatype Rejection =
    | NotFix44
    | NoBodyLength
    | TruncatedBodyLength
    | InvalidBodyLength
    | BodyLengthTooLong
    | BodyLengthNotAtChecksum
    | InvalidChecksum
    | ChecksumMismatch
    | TruncatedField
    | InvalidField
    | InvalidTag
    | NoMsgType

  datatype Parsed = Ok(fields: seq<Field>) | Rejected(why: Rejection)

  // ---- Numbers ----------------------------------------------------------------------------------

  predicate IsDigit(c: Octet) {
    '0' <= c <= '9'
  }

  function DigitOf(c: Octet): (d: nat)
    requires IsDigit(c)
    ensures d < 10
  {
    c as int - '0' as int
  }

  function Digit(d: nat): (c: Octet)
    requires d < 10
    ensures IsDigit(c) && DigitOf(c) == d
  {
    '0' + d as char
  }

  predicate AllDigits(text: Text) {
    forall i :: 0 <= i < |text| ==> IsDigit(text[i])
  }

  function Value(text: Text): nat
    requires AllDigits(text)
  {
    if text == [] then 0 else 10 * Value(text[..|text| - 1]) + DigitOf(text[|text| - 1])
  }

  function Decimal(n: nat): Text {
    if n < 10 then [Digit(n)] else Decimal(n / 10) + [Digit(n % 10)]
  }

  // All of the text is one number that a size can hold.
  function ParseSize(text: Text): Option<nat> {
    if text == [] || !AllDigits(text) || Value(text) >= SIZE_RANGE then None else Some(Value(text))
  }

  // A minus sign may open a number, but no negative number or zero is a tag.
  function ParseTag(text: Text): Option<int> {
    if text == [] || !AllDigits(text) || Value(text) == 0 || Value(text) >= TAG_RANGE then None else Some(Value(text))
  }

  function Sum(text: Text): nat {
    if text == [] then 0 else Sum(text[..|text| - 1]) + text[|text| - 1] as int
  }

  function ThreeDigits(value: nat): Text {
    [Digit(value / 100 % 10), Digit(value / 10 % 10), Digit(value % 10)]
  }

  function Find(c: Octet, text: Text): (at: Option<nat>)
    ensures at.Some? ==> at.value < |text| && text[at.value] == c && forall i :: 0 <= i < at.value ==> text[i] != c
    ensures at.None? ==> c !in text
  {
    if text == [] then None
    else if text[0] == c then Some(0)
    else match Find(c, text[1..]) case None => None case Some(i) => Some(i + 1)
  }

  // ---- Encoding ---------------------------------------------------------------------------------

  predicate Generated(tag: int) {
    tag == 8 || tag == 9 || tag == 10
  }

  // to_string of a tag, which may be negative.
  function TagText(tag: int): Text {
    if tag < 0 then ['-'] + Decimal(-tag) else Decimal(tag)
  }

  function FieldText(f: Field): Text {
    TagText(f.tag) + ['='] + f.value + [SOH]
  }

  function Body(fields: seq<Field>): Text {
    if fields == [] then []
    else (if Generated(fields[0].tag) then [] else FieldText(fields[0])) + Body(fields[1..])
  }

  function Head(length: nat): Text {
    PREFIX + LENGTH_TAG + Decimal(length) + [SOH]
  }

  function Tail(sum: nat): Text {
    CHECKSUM_TAG + ThreeDigits(sum % 256) + [SOH]
  }

  function Encoding(fields: seq<Field>): Text {
    var body := Body(fields);
    Head(|body|) + body + Tail(Sum(Head(|body|) + body))
  }

  // ---- Parsing ----------------------------------------------------------------------------------

  function ParseFields(text: Text): Parsed
    decreases |text|
  {
    if text == [] then Ok([])
    else
      match Find(SOH, text)
      case None => Rejected(TruncatedField)
      case Some(end) =>
        match Find('=', text[..end])
        case None => Rejected(InvalidField)
        case Some(equals) =>
          if equals == 0 then Rejected(InvalidField)
          else
            match ParseTag(text[..equals])
            case None => Rejected(InvalidTag)
            case Some(tag) =>
              match ParseFields(text[end + 1..])
              case Rejected(why) => Rejected(why)
              case Ok(rest) => Ok([Field(tag, text[equals + 1..end])] + rest)
  }

  function Get(fields: seq<Field>, tag: int): Option<Text> {
    if fields == [] then None
    else if fields[0].tag == tag then Some(fields[0].value)
    else Get(fields[1..], tag)
  }

  predicate HasMsgType(fields: seq<Field>) {
    Get(fields, 35).Some? && Get(fields, 35).value != []
  }

  // The body starts and ends here, and the checksum agrees so far as it goes.
  function ParseBody(wire: Text, start: nat, length: nat): Parsed
    requires start <= |wire|
  {
    var end := start + length;
    if length > |wire| - start then Rejected(BodyLengthTooLong)
    else if end + 7 != |wire| || !(CHECKSUM_TAG <= wire[end..]) || wire[|wire| - 1] != SOH then Rejected(BodyLengthNotAtChecksum)
    else
      match ParseSize(wire[end + 3..end + 6])
      case None => Rejected(InvalidChecksum)
      case Some(checksum) =>
        if checksum > 255 then Rejected(InvalidChecksum)
        else if Sum(wire[..end]) % 256 != checksum then Rejected(ChecksumMismatch)
        else
          match ParseFields(wire[start..end])
          case Rejected(why) => Rejected(why)
          case Ok(fields) => if HasMsgType(fields) then Ok(fields) else Rejected(NoMsgType)
  }

  function Parse(wire: Text): Parsed {
    var at := |PREFIX|;
    if !(PREFIX <= wire) then Rejected(NotFix44)
    else if !(LENGTH_TAG <= wire[at..]) then Rejected(NoBodyLength)
    else
      match Find(SOH, wire[at..])
      case None => Rejected(TruncatedBodyLength)
      case Some(e) =>
        match ParseSize(wire[at..][|LENGTH_TAG|..][..e - |LENGTH_TAG|])
        case None => Rejected(InvalidBodyLength)
        case Some(length) => ParseBody(wire, at + e + 1, length)
  }

  // ---- Extraction from a stream -----------------------------------------------------------------

  datatype Extracted = NeedMoreData | MessageReady(wire: Text) | InvalidData

  function Locate(buffer: Text): (at: Option<nat>)
    ensures at.Some? ==> at.value <= |buffer| && PREFIX <= buffer[at.value..]
    ensures at.Some? ==> forall i :: 0 <= i < at.value ==> !(PREFIX <= buffer[i..])
    ensures at.None? ==> forall i :: 0 <= i <= |buffer| ==> !(PREFIX <= buffer[i..])
  {
    if PREFIX <= buffer then
      assert buffer[0..] == buffer;
      Some(0)
    else if buffer == [] then None
    else
      assert forall i :: 0 < i <= |buffer| ==> buffer[i..] == buffer[1..][i - 1..];
      assert buffer[0..] == buffer;
      match Locate(buffer[1..]) case None => None case Some(i) => Some(i + 1)
  }

  // What extraction makes of a buffer that begins with the prefix, and what it leaves.
  function ExtractHere(buffer: Text): (Extracted, Text)
    requires PREFIX <= buffer
  {
    var at := |PREFIX|;
    if |buffer| < at + |LENGTH_TAG| then (NeedMoreData, buffer)
    else if !(LENGTH_TAG <= buffer[at..]) then (InvalidData, buffer)
    else
      match Find(SOH, buffer[at..])
      case None => (NeedMoreData, buffer)
      case Some(e) =>
        match ParseSize(buffer[at..][|LENGTH_TAG|..][..e - |LENGTH_TAG|])
        case None => (InvalidData, buffer)
        case Some(length) =>
          var start := at + e + 1;
          var total := start + length + 7;
          if length > SIZE_RANGE - 1 - start - 7 then (InvalidData, buffer)
          else if |buffer| < total then (NeedMoreData, buffer)
          else if !(CHECKSUM_TAG <= buffer[start + length..]) then (InvalidData, buffer)
          else (MessageReady(buffer[..total]), buffer[total..])
  }

  // Bytes before the first prefix are skipped; too many without one are an error.
  function Extract(buffer: Text): (Extracted, Text) {
    match Locate(buffer)
    case Some(at) => ExtractHere(buffer[at..])
    case None => (if |buffer| > |PREFIX| then InvalidData else NeedMoreData, buffer)
  }
}
