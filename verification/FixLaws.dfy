/** The FIX round trip, and the detection of every single wrong byte. */
module FixLaws {
  import opened ExchangeTypes
  import opened Fix

  // ---- Numbers ----------------------------------------------------------------------------------

  lemma {:induction false} ValueMore(text: Text, c: Octet)
    requires AllDigits(text) && IsDigit(c)
    ensures AllDigits(text + [c]) && Value(text + [c]) == 10 * Value(text) + DigitOf(c)
  {
    assert (text + [c])[..|text|] == text;
  }

  lemma {:induction false} DecimalReads(n: nat)
    ensures Decimal(n) != [] && AllDigits(Decimal(n)) && Value(Decimal(n)) == n
  {
    if n < 10 {
      ValueMore([], Digit(n));
      assert [] + [Digit(n)] == [Digit(n)];
    } else {
      DecimalReads(n / 10);
      ValueMore(Decimal(n / 10), Digit(n % 10));
    }
  }

  lemma PlaceValues(value: nat)
    requires value < 1000
    ensures 10 * (10 * (value / 100 % 10) + value / 10 % 10) + value % 10 == value
  {
    assert value / 100 < 10;
    assert value / 10 == 10 * (value / 100) + value / 10 % 10;
  }

  lemma {:induction false} ThreeDigitsRead(value: nat)
    requires value < 1000
    ensures AllDigits(ThreeDigits(value)) && Value(ThreeDigits(value)) == value
  {
    var a, b, c := Digit(value / 100 % 10), Digit(value / 10 % 10), Digit(value % 10);
    ThreeRead(a, b, c);
    PlaceValues(value);
  }

  lemma {:induction false} ThreeRead(a: Octet, b: Octet, c: Octet)
    requires IsDigit(a) && IsDigit(b) && IsDigit(c)
    ensures AllDigits([a, b, c]) && Value([a, b, c]) == 10 * (10 * DigitOf(a) + DigitOf(b)) + DigitOf(c)
  {
    ValueMore([], a);
    ValueMore([a], b);
    ValueMore([a, b], c);
    assert [] + [a] == [a] && [a] + [b] == [a, b] && [a, b] + [c] == [a, b, c];
  }

  // A number is at least what its first digits spell.
  lemma {:induction false} ValueOfPrefix(text: Text, k: nat)
    requires AllDigits(text) && k <= |text|
    ensures AllDigits(text[..k]) && Value(text[..k]) <= Value(text)
  {
    if k < |text| {
      ValueOfPrefix(text[..|text| - 1], k);
      assert text[..|text| - 1][..k] == text[..k];
    } else {
      assert text[..k] == text;
    }
  }

  // Two numbers of equal length that differ in one digit differ.
  lemma {:induction false} OneDigitMatters(a: Text, k: nat, c: Octet)
    requires AllDigits(a) && k < |a| && IsDigit(c) && c != a[k]
    ensures AllDigits(a[k := c]) && Value(a[k := c]) != Value(a)
  {
    var b := a[k := c];
    var n := |a| - 1;
    if k == n {
      assert b[..n] == a[..n];
    } else {
      OneDigitMatters(a[..n], k, c);
      assert b[..n] == a[..n][k := c];
    }
  }

  lemma {:induction false} SumConcat(a: Text, b: Text)
    ensures Sum(a + b) == Sum(a) + Sum(b)
  {
    if b == [] {
      assert a + b == a;
    } else {
      assert (a + b)[..|a + b| - 1] == a + b[..|b| - 1];
      SumConcat(a, b[..|b| - 1]);
    }
  }

  // One wrong byte shifts the sum by less than 256.
  lemma {:induction false} OneByteMatters(a: Text, k: nat, c: Octet)
    requires k < |a| && c != a[k]
    ensures Sum(a[k := c]) % 256 != Sum(a) % 256
  {
    var b := a[k := c];
    assert a == a[..k] + [a[k]] + a[k + 1..] && b == a[..k] + [c] + a[k + 1..];
    SumConcat(a[..k] + [a[k]], a[k + 1..]);
    SumConcat(a[..k], [a[k]]);
    SumConcat(a[..k] + [c], a[k + 1..]);
    SumConcat(a[..k], [c]);
    SumOfOne(a[k]);
    SumOfOne(c);
    var s := Sum(a) - a[k] as int;
    assert Sum(b) - c as int == s;
    ByteShift(s, a[k] as int, c as int);
  }

  lemma SumOfOne(c: Octet)
    ensures Sum([c]) == c as int
  {
    assert [c][..0] == [];
  }

  lemma ByteShift(s: int, x: int, y: int)
    requires 0 <= x < 256 && 0 <= y < 256 && x != y
    ensures (s + x) % 256 != (s + y) % 256
  {
  }

  // ---- The shape of a wire message --------------------------------------------------------------

  function Assembled(digits: Text, body: Text, check: Text): Text {
    PREFIX + LENGTH_TAG + digits + [SOH] + body + CHECKSUM_TAG + check + [SOH]
  }

  // Where the parts are.
  lemma {:induction false} Layout(digits: Text, body: Text, check: Text)
    requires |check| == 3
    ensures var wire := Assembled(digits, body, check);
      var start := 13 + |digits|;
      var end := start + |body|;
      && |wire| == end + 7
      && wire[..10] == PREFIX && wire[10..12] == LENGTH_TAG && wire[12..12 + |digits|] == digits
      && wire[12 + |digits|] == SOH
      && wire[start..end] == body && wire[end..end + 3] == CHECKSUM_TAG && wire[end + 3..end + 6] == check
      && wire[end + 6] == SOH
      && wire[..end] == PREFIX + LENGTH_TAG + digits + [SOH] + body
  {
  }

  // Parsing as far as the body length, told by where the second SOH is.
  lemma {:induction false} ParseHead(wire: Text, e: nat)
    requires |wire| >= 12 && wire[..10] == PREFIX && wire[10..12] == LENGTH_TAG
    requires 12 <= e < |wire| && wire[e] == SOH && SOH !in wire[12..e]
    ensures Parse(wire) ==
      match ParseSize(wire[12..e]) case None => Rejected(InvalidBodyLength) case Some(length) => ParseBody(wire, e + 1, length)
  {
    hide ParseSize, ParseBody;
    FirstSoh(wire, e);
    assert wire[10..][2..][..e - 12] == wire[12..e];
    assert wire[10..][..2] == LENGTH_TAG;
  }

  lemma {:induction false} FirstSoh(wire: Text, e: nat)
    requires |wire| >= 12 && wire[10..12] == LENGTH_TAG
    requires 12 <= e < |wire| && wire[e] == SOH && SOH !in wire[12..e]
    ensures Find(SOH, wire[10..]) == Some(e - 10)
  {
    var rest := wire[10..];
    assert rest[e - 10] == SOH;
    forall i | 0 <= i < e - 10
      ensures rest[i] != SOH
    {
      if i < 2 {
        assert rest[i] == wire[10..12][i];
      } else {
        assert rest[i] == wire[12..e][i - 2];
      }
    }
  }

  lemma DigitsAreNotSoh(digits: Text)
    requires AllDigits(digits)
    ensures SOH !in digits && '=' !in digits
  {
  }

  // Parsing from the body on, when the parts are where the length says.
  lemma {:induction false} ParseRest(digits: Text, body: Text, check: Text)
    requires |check| == 3
    ensures var wire := Assembled(digits, body, check);
      ParseBody(wire, 13 + |digits|, |body|) ==
        if ParseSize(check).None? || ParseSize(check).value > 255 then Rejected(InvalidChecksum)
        else if Sum(PREFIX + LENGTH_TAG + digits + [SOH] + body) % 256 != ParseSize(check).value then Rejected(ChecksumMismatch)
        else match ParseFields(body) case Rejected(why) => Rejected(why)
             case Ok(fields) => if HasMsgType(fields) then Ok(fields) else Rejected(NoMsgType)
  {
    hide ParseSize, ParseFields, Sum, Assembled;
    Layout(digits, body, check);
    var wire := Assembled(digits, body, check);
    var end := 13 + |digits| + |body|;
    assert wire[end..][..3] == wire[end..end + 3];
  }

  lemma {:induction false} ParseAssembled(digits: Text, body: Text, check: Text)
    requires |check| == 3 && AllDigits(digits)
    ensures Parse(Assembled(digits, body, check)) ==
      match ParseSize(digits) case None => Rejected(InvalidBodyLength)
      case Some(length) => ParseBody(Assembled(digits, body, check), 13 + |digits|, length)
  {
    hide ParseSize, ParseBody, Assembled;
    Layout(digits, body, check);
    DigitsAreNotSoh(digits);
    ParseHead(Assembled(digits, body, check), 12 + |digits|);
  }

  // ---- Round trip -------------------------------------------------------------------------------

  // A field the wire can carry as a field of its own.
  predicate Carried(f: Field) {
    0 < f.tag < TAG_RANGE && SOH !in f.value
  }

  predicate AllCarried(fields: seq<Field>) {
    forall i :: 0 <= i < |fields| ==> Carried(fields[i])
  }

  predicate NoneGenerated(fields: seq<Field>) {
    forall i :: 0 <= i < |fields| ==> !Generated(fields[i].tag)
  }

  predicate Encodable(fields: seq<Field>) {
    AllCarried(fields) && NoneGenerated(fields) && HasMsgType(fields)
  }

  lemma {:induction false} FieldParses(f: Field, rest: Text)
    requires Carried(f)
    ensures ParseFields(FieldText(f) + rest) ==
      match ParseFields(rest) case Rejected(why) => Rejected(why) case Ok(fields) => Ok([f] + fields)
  {
    hide Decimal;
    var digits := Decimal(f.tag);
    DecimalReads(f.tag);
    DigitsAreNotSoh(digits);
    var text := FieldText(f) + rest;
    var end := |digits| + 1 + |f.value|;
    assert text[..end] == digits + ['='] + f.value;
    assert text[end] == SOH;
    assert Find(SOH, text) == Some(end);
    assert text[..end][|digits|] == '=';
    assert Find('=', text[..end]) == Some(|digits|);
    assert text[..|digits|] == digits && text[|digits| + 1..end] == f.value && text[end + 1..] == rest;
  }

  lemma {:induction false} BodyParses(fields: seq<Field>)
    requires AllCarried(fields) && NoneGenerated(fields)
    ensures ParseFields(Body(fields)) == Ok(fields)
  {
    hide ParseFields, FieldText;
    if fields == [] {
      NothingParses();
    } else {
      BodyParses(fields[1..]);
      FieldParses(fields[0], Body(fields[1..]));
    }
  }

  lemma NothingParses()
    ensures ParseFields([]) == Ok([])
  {
  }

  // Whatever parsing returns, the wire could carry.
  lemma {:induction false} ParsedIsCarried(text: Text)
    ensures ParseFields(text).Ok? ==> AllCarried(ParseFields(text).fields)
    decreases |text|
  {
    if text != [] {
      var end := Find(SOH, text);
      if end.Some? {
        ParsedIsCarried(text[end.value + 1..]);
      }
    }
  }

  function Kept(fields: seq<Field>): seq<Field> {
    if fields == [] then [] else (if Generated(fields[0].tag) then [] else [fields[0]]) + Kept(fields[1..])
  }

  lemma {:induction false} KeptMeans(fields: seq<Field>)
    ensures NoneGenerated(Kept(fields)) && Body(Kept(fields)) == Body(fields)
    ensures AllCarried(fields) ==> AllCarried(Kept(fields))
  {
    hide FieldText;
    if fields != [] {
      KeptMeans(fields[1..]);
      if Generated(fields[0].tag) {
        assert Kept(fields) == Kept(fields[1..]);
      } else {
        assert Kept(fields) == [fields[0]] + Kept(fields[1..]);
      }
    }
  }

  lemma {:induction false} EncodingParses(fields: seq<Field>)
    requires |Body(fields)| < SIZE_RANGE
    ensures Parse(Encoding(fields)) ==
      match ParseFields(Body(fields)) case Rejected(why) => Rejected(why)
      case Ok(parsed) => if HasMsgType(parsed) then Ok(parsed) else Rejected(NoMsgType)
  {
    hide Decimal, ThreeDigits, ParseFields, Parse, ParseBody, Sum;
    var body := Body(fields);
    var digits := Decimal(|body|);
    var sum := Sum(Head(|body|) + body) % 256;
    DecimalReads(|body|);
    ThreeDigitsRead(sum);
    assert Encoding(fields) == Assembled(digits, body, ThreeDigits(sum));
    assert Head(|body|) + body == PREFIX + LENGTH_TAG + digits + [SOH] + body;
    assert |ThreeDigits(sum)| == 3 by { ThreeOfThem(sum); }
    ParseAssembled(digits, body, ThreeDigits(sum));
    ParseRest(digits, body, ThreeDigits(sum));
  }

  lemma ThreeOfThem(sum: nat)
    ensures |ThreeDigits(sum)| == 3
  {
  }

  /**
   Round trip, exactly: parsing an encoding returns the fields, in order, if and only if the tags
   are positive and not the three the encoder generates itself, no value holds an SOH, and there is
   a message type.
   */
  lemma {:induction false} RoundTrip(fields: seq<Field>)
    requires |Body(fields)| < SIZE_RANGE
    ensures Parse(Encoding(fields)) == Ok(fields) <==> Encodable(fields)
  {
    hide Parse, ParseFields, Encoding, Body, HasMsgType;
    EncodingParses(fields);
    if Encodable(fields) {
      BodyParses(fields);
    }
    if Parse(Encoding(fields)) == Ok(fields) {
      ParsedIsCarried(Body(fields));
      KeptMeans(fields);
      BodyParses(Kept(fields));
      assert Kept(fields) == fields;
    }
  }

  // ---- One wrong byte ---------------------------------------------------------------------------

  // What acceptance says about the bytes.
  lemma {:induction false} AcceptedIsAssembled(wire: Text) returns (digits: Text, body: Text, check: Text)
    requires Parse(wire).Ok?
    ensures |check| == 3 && wire == Assembled(digits, body, check)
    ensures ParseSize(digits) == Some(|body|) && body != [] && ParseFields(body).Ok?
    ensures ParseSize(check) == Some(Sum(PREFIX + LENGTH_TAG + digits + [SOH] + body) % 256)
  {
    hide ParseSize, ParseFields, Sum, Find, Assembled;
    var e := Find(SOH, wire[10..]).value;
    digits := wire[10..][2..][..e - 2];
    var start := 11 + e;
    var end := |wire| - 7;
    body, check := wire[start..end], wire[end + 3..end + 6];
    assert digits == wire[12..10 + e];
    assert wire[..10] == PREFIX && wire[10..12] == wire[10..][..2] == LENGTH_TAG && wire[end..end + 3] == wire[end..][..3] == CHECKSUM_TAG;
    Pieces(wire, 10 + e, end);
    if body == [] {
      NothingParses();
    }
  }

  // A message is the sum of its pieces.
  lemma Pieces(wire: Text, e: nat, end: nat)
    requires 12 <= e < end && end + 7 == |wire|
    requires wire[..10] == PREFIX && wire[10..12] == LENGTH_TAG && wire[e] == SOH && wire[end..end + 3] == CHECKSUM_TAG && wire[end + 6] == SOH
    ensures wire[..end] == PREFIX + LENGTH_TAG + wire[12..e] + [SOH] + wire[e + 1..end]
    ensures wire == Assembled(wire[12..e], wire[e + 1..end], wire[end + 3..end + 6])
  {
    assert wire[..end] == wire[..10] + wire[10..12] + wire[12..e] + [wire[e]] + wire[e + 1..end];
    assert wire == wire[..end] + wire[end..end + 3] + wire[end + 3..end + 6] + [wire[end + 6]];
  }

  // Accepted parts, as the cases below take them.
  predicate Accepted(digits: Text, body: Text, check: Text) {
    && |check| == 3 && ParseSize(digits) == Some(|body|) && body != [] && ParseFields(body).Ok?
    && ParseSize(check) == Some(Sum(PREFIX + LENGTH_TAG + digits + [SOH] + body) % 256)
  }

  // A digit of the body length.
  lemma {:induction false} LengthDigit(digits: Text, body: Text, check: Text, j: nat, c: Octet)
    requires Accepted(digits, body, check) && j < |digits| && c != digits[j]
    ensures Parse(Assembled(digits, body, check)[12 + j := c]).Rejected?
  {
    hide Assembled, ParseFields, Sum, Parse;
    Layout(digits, body, check);
    var wire := Assembled(digits, body, check);
    var wrong := wire[12 + j := c];
    DigitsAreNotSoh(digits);
    assert wrong[..10] == wire[..10] && wrong[10..12] == wire[10..12];
    if c == SOH {
      assert wrong[12..12 + j] == digits[..j];
      ParseHead(wrong, 12 + j);
      ValueOfPrefix(digits, j);
    } else {
      assert wrong[12..12 + |digits|] == digits[j := c];
      ParseHead(wrong, 12 + |digits|);
      if IsDigit(c) {
        OneDigitMatters(digits, j, c);
      } else {
        assert digits[j := c][j] == c;
      }
    }
  }

  // With that SOH overwritten, the length reads as far as the end of the first field.
  lemma {:induction false} EndOverwritten(wire: Text, digits: Text, body: Text, c: Octet, end: nat)
    requires |wire| >= 13 + |digits| + |body| && end <= |body|
    requires wire[12..12 + |digits|] == digits && wire[13 + |digits|..13 + |digits| + |body|] == body
    ensures var wrong := wire[12 + |digits| := c];
      && wrong[..10] == wire[..10] && wrong[10..12] == wire[10..12]
      && wrong[12..13 + |digits| + end] == digits + [c] + body[..end]
      && (end < |body| ==> wrong[13 + |digits| + end] == body[end])
  {
    var wrong := wire[12 + |digits| := c];
    assert wrong[12..12 + |digits|] == digits;
    assert wrong[13 + |digits|..13 + |digits| + |body|] == body;
    assert wrong[12..13 + |digits| + end] == wrong[12..12 + |digits|] + [c] + wrong[13 + |digits|..13 + |digits| + end];
  }

  // A text with an equals sign in it is no number.
  lemma EqualsIsNoDigit(text: Text, i: nat)
    requires i < |text| && text[i] == '='
    ensures ParseSize(text) == None
  {
    assert !IsDigit(text[i]);
  }

  // The SOH after the body length: what follows it is no number.
  lemma {:induction false} LengthEnd(digits: Text, body: Text, check: Text, c: Octet)
    requires Accepted(digits, body, check) && c != SOH
    ensures Parse(Assembled(digits, body, check)[12 + |digits| := c]).Rejected?
  {
    hide Assembled, Sum, Parse, ParseBody, ParseFields, ParseSize;
    var wire := Assembled(digits, body, check);
    var end, equals := FirstField(body);
    assert AllDigits(digits) by { SizeIsDigits(digits); }
    Layout(digits, body, check);
    DigitsAreNotSoh(digits);
    EndOverwritten(wire, digits, body, c, end);
    var text := digits + [c] + body[..end];
    assert text[|digits| + 1 + equals] == '=';
    EqualsIsNoDigit(text, |digits| + 1 + equals);
    ParseHead(wire[12 + |digits| := c], 13 + |digits| + end);
  }

  lemma SizeIsDigits(text: Text)
    requires ParseSize(text).Some?
    ensures AllDigits(text)
  {
  }

  lemma FirstField(body: Text) returns (end: nat, equals: nat)
    requires body != [] && ParseFields(body).Ok?
    ensures equals < end < |body| && body[end] == SOH && SOH !in body[..end] && body[equals] == '='
  {
    end := Find(SOH, body).value;
    equals := Find('=', body[..end]).value;
  }

  // Within the body, the tag of the checksum, its digits, and the last byte.
  lemma {:induction false} BodyOrChecksum(digits: Text, body: Text, check: Text, i: nat, c: Octet)
    requires Accepted(digits, body, check)
    requires var wire := Assembled(digits, body, check); 13 + |digits| <= i < |wire| && c != wire[i]
    ensures Parse(Assembled(digits, body, check)[i := c]).Rejected?
  {
    hide Assembled, ParseFields, Parse, Sum;
    Layout(digits, body, check);
    var wire := Assembled(digits, body, check);
    var wrong := wire[i := c];
    var start := 13 + |digits|;
    var end := start + |body|;
    DigitsAreNotSoh(digits);
    assert wrong[..10] == wire[..10] && wrong[10..12] == wire[10..12] && wrong[12..start - 1] == wire[12..start - 1];
    ParseHead(wrong, start - 1);
    if i < end {
      OneByteMatters(wire[..end], i, c);
      assert wrong[..end] == wire[..end][i := c];
      assert wrong[end + 3..end + 6] == check;
    } else if i < end + 3 {
      assert wrong[end..][i - end] == c && CHECKSUM_TAG[i - end] == wire[end..end + 3][i - end];
    } else if i < end + 6 {
      var j := i - end - 3;
      assert wrong[..end] == wire[..end];
      assert wrong[end + 3..end + 6] == check[j := c];
      if IsDigit(c) {
        OneDigitMatters(check, j, c);
      } else {
        assert check[j := c][j] == c;
      }
    }
  }

  lemma {:induction false} Beginning(wire: Text, i: nat, c: Octet)
    requires i < 12 <= |wire| && wire[..10] == PREFIX && wire[10..12] == LENGTH_TAG && c != wire[i]
    ensures Parse(wire[i := c]).Rejected?
  {
    hide ParseSize, ParseBody;
    var wrong := wire[i := c];
    if i < 10 {
      assert wrong[..10][i] != PREFIX[i];
    } else {
      assert wrong[10..][i - 10] == c && LENGTH_TAG[i - 10] == wire[10..12][i - 10];
    }
  }

  /** If a wire message is accepted, every message that differs from it in exactly one byte is rejected. */
  lemma {:induction false} OneWrongByteIsDetected(wire: Text, i: nat, c: Octet)
    requires Parse(wire).Ok? && i < |wire| && c != wire[i]
    ensures Parse(wire[i := c]).Rejected?
  {
    hide Assembled, Parse, ParseFields, ParseSize, Sum;
    var digits, body, check := AcceptedIsAssembled(wire);
    Layout(digits, body, check);
    if i < 12 {
      Beginning(wire, i, c);
    } else if i < 12 + |digits| {
      assert wire[12..12 + |digits|][i - 12] == wire[i];
      LengthDigit(digits, body, check, i - 12, c);
    } else if i == 12 + |digits| {
      LengthEnd(digits, body, check, c);
    } else {
      BodyOrChecksum(digits, body, check, i, c);
    }
  }
}
