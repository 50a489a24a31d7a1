/** The bytes of a FIX 4.4 message, told by where they stand and what their digits stand for. */
module FixFormats {
  import opened ExchangeTypes
  import opened Fix
  import opened FixLaws

  // ---- Numbers and sums -------------------------------------------------------------------------------

  function Power(n: nat): nat {
    if n == 0 then 1 else 10 * Power(n - 1)
  }

  // Decimal digits, the most significant first.
  function Reads(text: Text): int {
    if text == [] then 0 else (text[0] as int - 48) * Power(|text| - 1) + Reads(text[1..])
  }

  predicate Numeral(text: Text, n: int) {
    text != [] && (forall i :: 0 <= i < |text| ==> 48 <= text[i] as int <= 57) && Reads(text) == n
  }

  predicate NoLeadingZero(text: Text) {
    |text| > 1 ==> text[0] as int != 48
  }

  // All bytes added up.
  function Total(text: Text): nat {
    if text == [] then 0 else text[0] as int + Total(text[1..])
  }

  lemma {:induction false} ReadsMore(text: Text, c: Octet)
    ensures Reads(text + [c]) == 10 * Reads(text) + (c as int - 48)
  {
    if text == [] {
      assert text + [c] == [c] && [c][1..] == [];
    } else {
      ReadsMore(text[1..], c);
      assert (text + [c])[1..] == text[1..] + [c];
      TenTimes(text[0] as int - 48, Power(|text| - 1));
    }
  }

  lemma TenTimes(d: int, p: int)
    ensures d * (10 * p) == 10 * (d * p)
  {
  }

  lemma {:induction false} ValueReads(text: Text)
    requires AllDigits(text)
    ensures Value(text) == Reads(text)
  {
    if text != [] {
      ValueReads(text[..|text| - 1]);
      ReadsMore(text[..|text| - 1], text[|text| - 1]);
      assert text[..|text| - 1] + [text[|text| - 1]] == text;
    }
  }

  lemma {:induction false} SumTotals(text: Text)
    ensures Sum(text) == Total(text)
  {
    if text != [] {
      SumTotals(text[1..]);
      SumConcat([text[0]], text[1..]);
      SumOfOne(text[0]);
      assert [text[0]] + text[1..] == text;
    }
  }

  lemma {:induction false} DecimalIsNumeral(n: nat)
    ensures Numeral(Decimal(n), n) && NoLeadingZero(Decimal(n)) && (n > 0 ==> Decimal(n)[0] as int != 48)
  {
    DecimalReads(n);
    ValueReads(Decimal(n));
    DecimalStarts(n);
  }

  lemma {:induction false} DecimalStarts(n: nat)
    ensures Decimal(n) != [] && NoLeadingZero(Decimal(n)) && (n > 0 ==> Decimal(n)[0] as int != 48)
  {
    if n >= 10 {
      DecimalStarts(n / 10);
    } else {
      assert DigitOf(Digit(n)) == n;
    }
  }

  lemma SizeIsNumeral(text: Text, n: nat)
    ensures ParseSize(text) == Some(n) <==> Numeral(text, n) && n < 0x1_0000_0000_0000_0000
  {
    if AllDigits(text) {
      ValueReads(text);
    }
  }

  lemma TagIsNumeral(text: Text, n: int)
    ensures ParseTag(text) == Some(n) <==> Numeral(text, n) && 0 < n < 0x8000_0000
  {
    if AllDigits(text) {
      ValueReads(text);
    }
  }

  // ---- Encodings ----------------------------------------------------------------------------------------

  // The tag in decimal, an equals sign, the value and an SOH.
  ghost predicate IsField(text: Text, f: Field) {
    exists digits: Text ::
      && Numeral(digits, if f.tag < 0 then -f.tag else f.tag) && NoLeadingZero(digits)
      && text == (if f.tag < 0 then "-" else "") + digits + "=" + f.value + "\U{0001}"
  }

  // The fields in order, without those the encoder puts in itself.
  ghost predicate IsBody(text: Text, fields: seq<Field>) {
    if fields == [] then text == []
    else if 8 <= fields[0].tag <= 10 then IsBody(text, fields[1..])
    else exists k :: 0 <= k <= |text| && IsField(text[..k], fields[0]) && IsBody(text[k..], fields[1..])
  }

  // The version, the length of the body, the body, and the sum of all bytes before the checksum field.
  predicate IsMessage(wire: Text, digits: Text, body: Text, check: Text) {
    var before: Text := "8=FIX.4.4\U{0001}9=" + digits + "\U{0001}" + body;
    && wire == before + "10=" + check + "\U{0001}"
    && Numeral(digits, |body|)
    && |check| == 3 && Numeral(check, Total(before) % 256)
  }

  lemma {:induction false} FieldIsField(f: Field)
    ensures IsField(FieldText(f), f)
  {
    hide Decimal, Numeral;
    var n := if f.tag < 0 then -f.tag else f.tag;
    DecimalIsNumeral(n);
    assert FieldText(f) == (if f.tag < 0 then "-" else "") + Decimal(n) + "=" + f.value + "\U{0001}";
  }

  lemma {:induction false} BodyIsBody(fields: seq<Field>)
    ensures IsBody(Body(fields), fields)
  {
    hide FieldText, IsField;
    if fields != [] {
      BodyIsBody(fields[1..]);
      if Generated(fields[0].tag) {
        assert Body(fields) == Body(fields[1..]);
      } else {
        FieldIsField(fields[0]);
        var k := |FieldText(fields[0])|;
        assert Body(fields)[..k] == FieldText(fields[0]) && Body(fields)[k..] == Body(fields[1..]);
      }
    }
  }

  lemma CheckIsNumeral(sum: nat)
    ensures |ThreeDigits(sum % 256)| == 3 && Numeral(ThreeDigits(sum % 256), sum % 256)
  {
    hide ThreeDigits;
    ThreeOfThem(sum % 256);
    ThreeDigitsRead(sum % 256);
    ValueReads(ThreeDigits(sum % 256));
  }

  /** What the encoder writes, for any fields: a message whose body is theirs. */
  lemma {:induction false} EncodingIsMessage(fields: seq<Field>) returns (digits: Text, body: Text, check: Text)
    ensures IsMessage(Encoding(fields), digits, body, check) && NoLeadingZero(digits) && IsBody(body, fields)
  {
    hide Decimal, ThreeDigits, Body, Numeral, NoLeadingZero, Sum, Total, IsBody;
    body := Body(fields);
    digits := Decimal(|body|);
    var before: Text := "8=FIX.4.4\U{0001}9=" + digits + "\U{0001}" + body;
    check := ThreeDigits(Total(before) % 256);
    DecimalIsNumeral(|body|);
    BodyIsBody(fields);
    CheckIsNumeral(Total(before));
    SumTotals(before);
    assert Head(|body|) + body == before;
    assert Encoding(fields) == before + "10=" + check + "\U{0001}";
  }

  // ---- Acceptance -----------------------------------------------------------------------------------------

  // The first occurrence of a character.
  predicate FirstAt(c: char, text: Text, i: nat) {
    i < |text| && text[i] == c && forall j :: 0 <= j < i ==> text[j] != c
  }

  // A body as it is read: up to each SOH a tag, the first equals sign and a value.
  ghost predicate ReadsAs(text: Text, fields: seq<Field>) {
    if fields == [] then text == []
    else exists end: nat, equals: nat ::
      && FirstAt('\U{0001}', text, end) && FirstAt('=', text[..end], equals)
      && Numeral(text[..equals], fields[0].tag) && 0 < fields[0].tag < 0x8000_0000
      && fields[0].value == text[equals + 1..end]
      && ReadsAs(text[end + 1..], fields[1..])
  }

  // The first field with the tag for the message type has a value.
  predicate HasType(fields: seq<Field>) {
    fields != [] && if fields[0].tag == 35 then fields[0].value != [] else HasType(fields[1..])
  }

  lemma FindIsFirst(c: Octet, text: Text, i: nat)
    ensures Find(c, text) == Some(i) <==> FirstAt(c, text, i)
  {
    hide Find;
    var at := Find(c, text);
  }

  lemma {:induction false} TypeIsThere(fields: seq<Field>)
    ensures HasMsgType(fields) <==> HasType(fields)
  {
    if fields != [] {
      TypeIsThere(fields[1..]);
    }
  }

  // One field of a body, and the rest of it.
  lemma {:induction false} OneFieldRead(text: Text, end: nat, equals: nat, fields: seq<Field>)
    requires FirstAt('\U{0001}', text, end) && FirstAt('=', text[..end], equals) && fields != []
    ensures ParseFields(text) == Ok(fields) <==>
      && Numeral(text[..equals], fields[0].tag) && 0 < fields[0].tag < 0x8000_0000
      && fields[0].value == text[equals + 1..end]
      && ParseFields(text[end + 1..]) == Ok(fields[1..])
  {
    hide Find, ParseTag, Numeral;
    FindIsFirst('\U{0001}', text, end);
    FindIsFirst('=', text[..end], equals);
    TagIsNumeral(text[..equals], fields[0].tag);
    NoEmptyNumeral(text[..equals], fields[0].tag);
    assert [fields[0]] + fields[1..] == fields;
  }

  lemma NoEmptyNumeral(text: Text, n: int)
    ensures Numeral(text, n) ==> text != []
  {
  }

  lemma {:induction false} FieldsAreRead(text: Text, fields: seq<Field>)
    ensures ParseFields(text) == Ok(fields) <==> ReadsAs(text, fields)
    decreases |text|
  {
    hide Find, ParseTag, Numeral, ParseFields;
    if text == [] {
      EmptyReadsAs(fields);
    } else if fields == [] {
      SomethingParses(text);
    } else {
      if ParseFields(text) == Ok(fields) {
        var end, equals := FirstFieldEnds(text);
        OneFieldRead(text, end, equals, fields);
        FieldsAreRead(text[end + 1..], fields[1..]);
      }
      if ReadsAs(text, fields) {
        var end: nat, equals: nat :|
          && FirstAt('\U{0001}', text, end) && FirstAt('=', text[..end], equals)
          && Numeral(text[..equals], fields[0].tag) && 0 < fields[0].tag < 0x8000_0000
          && fields[0].value == text[equals + 1..end]
          && ReadsAs(text[end + 1..], fields[1..]);
        OneFieldRead(text, end, equals, fields);
        FieldsAreRead(text[end + 1..], fields[1..]);
      }
    }
  }

  lemma FirstFieldEnds(text: Text) returns (end: nat, equals: nat)
    requires text != [] && ParseFields(text).Ok?
    ensures FirstAt('\U{0001}', text, end) && FirstAt('=', text[..end], equals)
  {
    end := Find('\U{0001}', text).value;
    equals := Find('=', text[..end]).value;
  }

  lemma SomethingParses(text: Text)
    requires text != []
    ensures ParseFields(text) != Ok([])
  {
  }

  lemma EmptyReadsAs(fields: seq<Field>)
    ensures ReadsAs([], fields) <==> fields == []
    ensures ParseFields([]) == Ok(fields) <==> fields == []
  {
  }

  /** A message is accepted, with these fields, exactly when its parts are a message and its body reads as them. */
  lemma {:induction false} AcceptedExactly(wire: Text, fields: seq<Field>)
    ensures Parse(wire) == Ok(fields) <==>
      HasType(fields) && exists digits, body, check ::
        IsMessage(wire, digits, body, check) && |body| < 0x1_0000_0000_0000_0000 && ReadsAs(body, fields)
  {
    hide Parse, IsMessage, ReadsAs, HasType, Numeral;
    if Parse(wire) == Ok(fields) {
      var digits, body, check := AcceptedParts(wire, fields);
      assert IsMessage(wire, digits, body, check);
    }
    if HasType(fields) {
      forall digits, body, check | IsMessage(wire, digits, body, check) && |body| < 0x1_0000_0000_0000_0000 && ReadsAs(body, fields)
        ensures Parse(wire) == Ok(fields)
      {
        PartsAreAccepted(wire, fields, digits, body, check);
      }
    }
  }

  lemma {:induction false} SumOfParts(digits: Text, body: Text)
    ensures Sum(PREFIX + LENGTH_TAG + digits + [SOH] + body) == Total("8=FIX.4.4\U{0001}9=" + digits + "\U{0001}" + body)
  {
    SumTotals(PREFIX + LENGTH_TAG + digits + [SOH] + body);
    assert PREFIX + LENGTH_TAG + digits + [SOH] + body == "8=FIX.4.4\U{0001}9=" + digits + "\U{0001}" + body;
  }

  lemma WireOfParts(digits: Text, body: Text, check: Text)
    ensures Assembled(digits, body, check) == "8=FIX.4.4\U{0001}9=" + digits + "\U{0001}" + body + "10=" + check + "\U{0001}"
  {
  }

  lemma {:induction false} AcceptedParts(wire: Text, fields: seq<Field>) returns (digits: Text, body: Text, check: Text)
    requires Parse(wire) == Ok(fields)
    ensures IsMessage(wire, digits, body, check) && |body| < 0x1_0000_0000_0000_0000 && ReadsAs(body, fields) && HasType(fields)
  {
    hide Parse, ReadsAs, HasType, Numeral, ParseSize, ParseFields, Assembled, Sum, Total;
    digits, body, check := AcceptedIsAssembled(wire);
    SizeIsNumeral(digits, |body|);
    SumOfParts(digits, body);
    WireOfParts(digits, body, check);
    SizeIsNumeral(check, Sum(PREFIX + LENGTH_TAG + digits + [SOH] + body) % 256);
    SizeIsDigits(digits);
    ParseAssembled(digits, body, check);
    ParseRest(digits, body, check);
    FieldsAreRead(body, fields);
    TypeIsThere(fields);
  }

  lemma {:induction false} PartsAreAccepted(wire: Text, fields: seq<Field>, digits: Text, body: Text, check: Text)
    requires IsMessage(wire, digits, body, check) && |body| < 0x1_0000_0000_0000_0000 && ReadsAs(body, fields) && HasType(fields)
    ensures Parse(wire) == Ok(fields)
  {
    hide Parse, ReadsAs, HasType, Numeral, ParseSize, ParseFields, Assembled, Sum, Total;
    SizeIsNumeral(digits, |body|);
    SumOfParts(digits, body);
    WireOfParts(digits, body, check);
    SizeIsNumeral(check, Sum(PREFIX + LENGTH_TAG + digits + [SOH] + body) % 256);
    SizeIsDigits(digits);
    ParseAssembled(digits, body, check);
    ParseRest(digits, body, check);
    FieldsAreRead(body, fields);
    TypeIsThere(fields);
  }

  // ---- Rejection --------------------------------------------------------------------------------------------

  // A number a tag can be.
  ghost predicate IsTag(text: Text) {
    exists n :: Numeral(text, n) && 0 < n < 0x8000_0000
  }

  // A number a size can be.
  ghost predicate IsSize(text: Text) {
    exists n :: Numeral(text, n) && n < 0x1_0000_0000_0000_0000
  }

  // The first field of a body that cannot be read, and what is wrong with it.
  ghost predicate Breaks(text: Text, why: Rejection)
    decreases |text|, 1
  {
    && text != []
    && if '\U{0001}' !in text then why == TruncatedField
       else exists end: nat :: FirstAt('\U{0001}', text, end) && BreaksBefore(text, end, why)
  }

  ghost predicate BreaksBefore(text: Text, end: nat, why: Rejection)
    requires FirstAt('\U{0001}', text, end)
    decreases |text|, 0
  {
    if '=' !in text[..end] || text[0] == '=' then why == InvalidField
    else
      exists equals: nat ::
        && FirstAt('=', text[..end], equals)
        && if IsTag(text[..equals]) then Breaks(text[end + 1..], why) else why == InvalidTag
  }

  lemma TagsAreRead(text: Text)
    ensures ParseTag(text).Some? <==> IsTag(text)
  {
    hide ParseTag, Numeral;
    if ParseTag(text).Some? {
      TagIsNumeral(text, ParseTag(text).value);
    }
    forall n | Numeral(text, n) && 0 < n < 0x8000_0000
      ensures ParseTag(text).Some?
    {
      TagIsNumeral(text, n);
    }
  }

  lemma SizesAreRead(text: Text)
    ensures ParseSize(text).Some? <==> IsSize(text)
    ensures forall n :: Numeral(text, n) && n < 0x1_0000_0000_0000_0000 ==> ParseSize(text) == Some(n)
  {
    hide ParseSize;
    if ParseSize(text).Some? {
      SizeIsNumeral(text, ParseSize(text).value);
    }
    forall n | Numeral(text, n) && n < 0x1_0000_0000_0000_0000
      ensures ParseSize(text) == Some(n)
    {
      NumeralsAreNatural(text, n);
      SizeIsNumeral(text, n);
    }
  }

  lemma {:induction false} NumeralsAreNatural(text: Text, n: int)
    requires Numeral(text, n)
    ensures n >= 0
  {
    ValueReads(text);
  }

  // One field of a body, when it is the one that breaks.
  lemma {:induction false} OneFieldBreaks(text: Text, end: nat, equals: nat, why: Rejection)
    requires FirstAt('\U{0001}', text, end) && FirstAt('=', text[..end], equals)
    ensures ParseFields(text) == Rejected(why) <==>
      if equals == 0 then why == InvalidField
      else if IsTag(text[..equals]) then ParseFields(text[end + 1..]) == Rejected(why)
      else why == InvalidTag
  {
    hide Find, ParseTag, Numeral, IsTag;
    FindIsFirst('\U{0001}', text, end);
    FindIsFirst('=', text[..end], equals);
    TagsAreRead(text[..equals]);
  }

  // The first SOH and the first equals sign are where they are.
  lemma BreaksThere(text: Text, end: nat, why: Rejection)
    requires FirstAt('\U{0001}', text, end)
    ensures Breaks(text, why) <==> BreaksBefore(text, end, why)
  {
    hide BreaksBefore;
    FirstIsUnique('\U{0001}', text, end);
  }

  lemma FirstIsUnique(c: char, text: Text, i: nat)
    requires FirstAt(c, text, i)
    ensures forall j: nat :: FirstAt(c, text, j) ==> j == i
  {
  }

  lemma BreaksAtSign(text: Text, end: nat, equals: nat, why: Rejection)
    requires FirstAt('\U{0001}', text, end) && FirstAt('=', text[..end], equals)
    ensures BreaksBefore(text, end, why) <==>
      if equals == 0 then why == InvalidField
      else if IsTag(text[..equals]) then Breaks(text[end + 1..], why)
      else why == InvalidTag
  {
    hide Breaks, IsTag;
    FirstIsUnique('=', text[..end], equals);
  }

  lemma {:induction false} FieldsBreak(text: Text, why: Rejection)
    ensures ParseFields(text) == Rejected(why) <==> Breaks(text, why)
    decreases |text|
  {
    hide Find, ParseTag, Numeral, IsTag, ParseFields, Breaks, BreaksBefore, FirstAt;
    if text == [] {
      NothingParses();
      NothingBreaks(why);
    } else {
      FirstBreak(text, why);
      NoEndBreaks(text, why);
      var found := Find('\U{0001}', text);
      if found.Some? {
        var end := found.value;
        FindIsFirst('\U{0001}', text, end);
        BreaksThere(text, end, why);
        NoSignBreaks(text, end, why);
        var sign := Find('=', text[..end]);
        if sign.Some? {
          FindIsFirst('=', text[..end], sign.value);
          OneFieldBreaks(text, end, sign.value, why);
          BreaksAtSign(text, end, sign.value, why);
          FieldsBreak(text[end + 1..], why);
        }
      }
    }
  }

  lemma NothingBreaks(why: Rejection)
    ensures !Breaks([], why)
  {
  }

  lemma NoEndBreaks(text: Text, why: Rejection)
    requires text != []
    ensures '\U{0001}' !in text ==> (Breaks(text, why) <==> why == TruncatedField)
  {
    hide BreaksBefore;
  }

  lemma NoSignBreaks(text: Text, end: nat, why: Rejection)
    requires FirstAt('\U{0001}', text, end)
    ensures '=' !in text[..end] ==> (BreaksBefore(text, end, why) <==> why == InvalidField)
  {
    hide Breaks, IsTag;
  }

  lemma FirstBreak(text: Text, why: Rejection)
    requires text != []
    ensures Find('\U{0001}', text).None? ==> (ParseFields(text) == Rejected(why) <==> why == TruncatedField)
    ensures Find('\U{0001}', text).Some? && Find('=', text[..Find('\U{0001}', text).value]).None? ==>
      (ParseFields(text) == Rejected(why) <==> why == InvalidField)
  {
    hide Find;
  }

  // The digits of the body length end at the first SOH behind the version.
  predicate LengthEnds(wire: Text, e: nat) {
    && |wire| >= 12 && wire[..10] == "8=FIX.4.4\U{0001}" && wire[10..12] == "9="
    && 12 <= e && FirstAt('\U{0001}', wire[12..], e - 12)
  }

  // A body of this length follows, and behind it the checksum field, which ends the message.
  predicate ChecksumFollows(wire: Text, e: nat, n: nat) {
    e + 1 + n + 7 == |wire| && wire[e + 1 + n..e + 4 + n] == "10=" && wire[e + 7 + n] == '\U{0001}'
  }

  // Why a message is rejected that has a body length n ending at e.
  ghost predicate BodyRejected(wire: Text, e: nat, n: nat, why: Rejection)
    requires LengthEnds(wire, e)
  {
    if e + 1 + n > |wire| then why == BodyLengthTooLong
    else if !ChecksumFollows(wire, e, n) then why == BodyLengthNotAtChecksum
    else
      var check, body := wire[e + 4 + n..e + 7 + n], wire[e + 1..e + 1 + n];
      match why
      case InvalidChecksum => !exists c :: c <= 255 && Numeral(check, c)
      case ChecksumMismatch => exists c :: c <= 255 && Numeral(check, c) && c != Total(wire[..e + 1 + n]) % 256
      case NoMsgType => Checks(wire, check, e + 1 + n) && LacksType(body)
      case _ => Checks(wire, check, e + 1 + n) && Breaks(body, why)
  }

  ghost predicate LacksType(body: Text) {
    exists fields :: ReadsAs(body, fields) && !HasType(fields)
  }

  predicate Checks(wire: Text, check: Text, end: nat)
    requires end <= |wire|
  {
    Numeral(check, Total(wire[..end]) % 256)
  }

  // What a checksum of three characters says.
  lemma CheckReads(check: Text, sum: nat)
    requires sum < 256
    ensures ParseSize(check).None? || ParseSize(check).value > 255 <==> !exists c :: c <= 255 && Numeral(check, c)
    ensures ParseSize(check) == Some(sum) <==> Numeral(check, sum)
    ensures ParseSize(check).Some? && ParseSize(check).value <= 255 ==>
      (ParseSize(check).value != sum <==> exists c :: c <= 255 && Numeral(check, c) && c != sum)
  {
    hide ParseSize, Numeral;
    SizesAreRead(check);
    SizeIsNumeral(check, sum);
    if ParseSize(check).Some? {
      SizeIsNumeral(check, ParseSize(check).value);
      SameNumeral(check);
    }
  }

  lemma SameNumeral(text: Text)
    ensures forall m, n :: Numeral(text, m) && Numeral(text, n) ==> m == n
  {
  }

  lemma {:induction false} TypeOfBody(body: Text)
    ensures ParseFields(body).Ok? && !HasMsgType(ParseFields(body).fields) <==> LacksType(body)
  {
    hide ParseFields, ReadsAs, HasMsgType, HasType;
    if ParseFields(body).Ok? {
      FieldsAreRead(body, ParseFields(body).fields);
      TypeIsThere(ParseFields(body).fields);
    }
    forall fields | ReadsAs(body, fields) && !HasType(fields)
      ensures ParseFields(body) == Ok(fields) && !HasMsgType(fields)
    {
      FieldsAreRead(body, fields);
      TypeIsThere(fields);
    }
  }

  // Nothing but these three reasons comes out of reading the fields of a body.
  lemma {:induction false} ThreeReasons(text: Text)
    ensures ParseFields(text).Rejected? ==> ParseFields(text).why in {TruncatedField, InvalidField, InvalidTag}
    decreases |text|
  {
    if text != [] && Find(SOH, text).Some? {
      ThreeReasons(text[Find(SOH, text).value + 1..]);
    }
  }

  // The verdict on a body and checksum that are where they should be.
  lemma {:induction false} ChecksumVerdict(wire: Text, e: nat, n: nat, why: Rejection)
    requires LengthEnds(wire, e) && ChecksumFollows(wire, e, n)
    ensures ParseBody(wire, e + 1, n) == Rejected(why) <==> BodyRejected(wire, e, n, why)
  {
    hide ParseSize, ParseFields, Sum, Total, Numeral, Breaks, ReadsAs, LengthEnds, HasMsgType, HasType, LacksType;
    var end := e + 1 + n;
    var check, body := wire[end + 3..end + 6], wire[e + 1..end];
    SumTotals(wire[..end]);
    CheckReads(check, Total(wire[..end]) % 256);
    FieldsBreak(body, why);
    TypeOfBody(body);
    ThreeReasons(body);
    assert wire[end..][..3] == wire[end..end + 3];
  }

  lemma {:induction false} BodyIsRejected(wire: Text, e: nat, n: nat, why: Rejection)
    requires LengthEnds(wire, e)
    ensures ParseBody(wire, e + 1, n) == Rejected(why) <==> BodyRejected(wire, e, n, why)
  {
    hide ParseSize, ParseFields, Sum, LengthEnds, Checks, Numeral, Breaks, ReadsAs, HasMsgType;
    var end := e + 1 + n;
    if end <= |wire| {
      if ChecksumFollows(wire, e, n) {
        ChecksumVerdict(wire, e, n, why);
      } else if end + 7 == |wire| {
        assert wire[end..][..3] == wire[end..end + 3];
      }
    }
  }

  predicate Begins(wire: Text) {
    |wire| >= 10 && wire[..10] == "8=FIX.4.4\U{0001}"
  }

  predicate LengthBegins(wire: Text) {
    |wire| >= 12 && wire[10..12] == "9="
  }

  ghost predicate LengthRejected(wire: Text, e: nat, why: Rejection)
    requires LengthEnds(wire, e)
  {
    if !IsSize(wire[12..e]) then why == InvalidBodyLength
    else exists n: nat :: Numeral(wire[12..e], n) && BodyRejected(wire, e, n, why)
  }

  // Why a message is rejected: what is missing is looked for from the front.
  ghost predicate MessageRejected(wire: Text, why: Rejection) {
    if !Begins(wire) then why == NotFix44
    else if !LengthBegins(wire) then why == NoBodyLength
    else if '\U{0001}' !in wire[12..] then why == TruncatedBodyLength
    else exists e :: LengthEnds(wire, e) && LengthRejected(wire, e, why)
  }

  lemma EndIsUnique(wire: Text, e: nat)
    requires LengthEnds(wire, e)
    ensures forall f :: LengthEnds(wire, f) ==> f == e
    ensures '\U{0001}' in wire[12..] && e < |wire| && wire[e] == '\U{0001}' && '\U{0001}' !in wire[12..e]
  {
    FirstIsUnique('\U{0001}', wire[12..], e - 12);
    assert wire[12..][e - 12] == wire[e];
    forall i | 0 <= i < e - 12 ensures wire[12..e][i] != '\U{0001}' {
      assert wire[12..][i] == wire[12..e][i];
    }
  }

  lemma {:induction false} LengthIsRejected(wire: Text, e: nat, why: Rejection)
    requires LengthEnds(wire, e)
    ensures Parse(wire) == Rejected(why) <==> LengthRejected(wire, e, why)
  {
    hide Parse, ParseSize, ParseBody, Numeral, IsSize, BodyRejected;
    EndIsUnique(wire, e);
    ParseHead(wire, e);
    var digits := wire[12..e];
    SizesAreRead(digits);
    if ParseSize(digits).Some? {
      var n := ParseSize(digits).value;
      SizeIsNumeral(digits, n);
      SameNumeral(digits);
      BodyIsRejected(wire, e, n, why);
    }
  }

  lemma LengthEndFound(wire: Text) returns (e: nat)
    requires Begins(wire) && LengthBegins(wire)
    ensures '\U{0001}' in wire[12..] ==> LengthEnds(wire, e)
    ensures '\U{0001}' !in wire[12..] ==> Find(SOH, wire[10..]) == None
  {
    var found := Find('\U{0001}', wire[12..]);
    e := if found.Some? then found.value + 12 else 0;
    if found.None? {
      forall i | 0 <= i < |wire[10..]| ensures wire[10..][i] != SOH {
        assert i < 2 ==> wire[10..][i] == wire[10..12][i];
        assert i >= 2 ==> wire[10..][i] == wire[12..][i - 2];
      }
    }
  }

  /** A message is rejected for exactly one reason. */
  lemma {:induction false} RejectedExactly(wire: Text, why: Rejection)
    ensures Parse(wire) == Rejected(why) <==> MessageRejected(wire, why)
  {
    hide ParseSize, ParseBody, LengthRejected, LengthEnds, Find;
    if Begins(wire) && LengthBegins(wire) {
      var e := LengthEndFound(wire);
      assert wire[10..][..2] == wire[10..12];
      if '\U{0001}' in wire[12..] {
        hide Parse;
        EndIsUnique(wire, e);
        LengthIsRejected(wire, e, why);
      }
    } else {
      Unbegun(wire);
    }
  }

  lemma Unbegun(wire: Text)
    ensures !Begins(wire) ==> Parse(wire) == Rejected(NotFix44)
    ensures Begins(wire) && !LengthBegins(wire) ==> Parse(wire) == Rejected(NoBodyLength)
  {
    hide ParseBody, ParseSize, Find;
    assert Begins(wire) && |wire| >= 12 ==> wire[10..][..2] == wire[10..12];
  }

  // ---- Extraction ---------------------------------------------------------------------------------------------

  // What becomes of a buffer that begins with the version: it waits, is invalid, or gives up a message
  // that ends seven bytes behind its body.
  ghost predicate Extracts(buffer: Text, result: Extracted, left: Text) {
    if |buffer| < 12 || (LengthBegins(buffer) && '\U{0001}' !in buffer[12..]) then result == NeedMoreData && left == buffer
    else if !LengthBegins(buffer) then result == InvalidData && left == buffer
    else exists e :: LengthEnds(buffer, e) && ExtractsBody(buffer, e, result, left)
  }

  ghost predicate ExtractsBody(buffer: Text, e: nat, result: Extracted, left: Text)
    requires LengthEnds(buffer, e)
  {
    if !IsSize(buffer[12..e]) then result == InvalidData && left == buffer
    else exists n: nat :: Numeral(buffer[12..e], n) && ExtractsLength(buffer, e, n, result, left)
  }

  predicate ExtractsLength(buffer: Text, e: nat, n: nat, result: Extracted, left: Text) {
    var total := e + 1 + n + 7;
    if total >= 0x1_0000_0000_0000_0000 then result == InvalidData && left == buffer
    else if |buffer| < total then result == NeedMoreData && left == buffer
    else if buffer[e + 1 + n..e + 4 + n] != "10=" then result == InvalidData && left == buffer
    else result == MessageReady(buffer[..total]) && left == buffer[total..]
  }

  // Extraction once the end of the length is found.
  lemma {:induction false} LengthExtracts(buffer: Text, e: nat, result: Extracted, left: Text)
    requires PREFIX <= buffer && LengthEnds(buffer, e)
    ensures ExtractHere(buffer) == (result, left) <==>
      match ParseSize(buffer[12..e])
      case None => result == InvalidData && left == buffer
      case Some(n) => ExtractsLength(buffer, e, n, result, left)
  {
    hide ParseSize, Find;
    EndIsUnique(buffer, e);
    FirstSoh(buffer, e);
    assert buffer[10..][2..][..e - 12] == buffer[12..e];
    assert buffer[10..][..2] == LENGTH_TAG;
    var parsed := ParseSize(buffer[12..e]);
    if parsed.Some? && |buffer| >= e + 4 + parsed.value {
      assert buffer[e + 1 + parsed.value..][..3] == buffer[e + 1 + parsed.value..e + 4 + parsed.value];
    }
  }

  lemma {:induction false} HeadExtracts(buffer: Text, e: nat, result: Extracted, left: Text)
    requires PREFIX <= buffer && LengthEnds(buffer, e)
    ensures ExtractHere(buffer) == (result, left) <==> ExtractsBody(buffer, e, result, left)
  {
    hide ParseSize, Numeral, IsSize, ExtractHere, ExtractsLength;
    LengthExtracts(buffer, e, result, left);
    var digits := buffer[12..e];
    SizesAreRead(digits);
    if ParseSize(digits).Some? {
      SizeIsNumeral(digits, ParseSize(digits).value);
      SameNumeral(digits);
    }
  }

  /**
   What is extracted from any buffer, and what is left in it: what stands before the first version is
   skipped, and without one more than ten bytes are an error.
   */
  lemma {:induction false} ExtractedExactly(buffer: Text, at: nat, result: Extracted, left: Text)
    requires at <= |buffer| && (forall i :: 0 <= i < at ==> !Begins(buffer[i..])) && (at == |buffer| || Begins(buffer[at..]))
    ensures Extract(buffer) == (result, left) <==>
      if at == |buffer| then result == (if |buffer| > 10 then InvalidData else NeedMoreData) && left == buffer
      else Extracts(buffer[at..], result, left)
  {
    hide ExtractHere, Extracts, Locate;
    if at < |buffer| {
      HereExtracts(buffer[at..], result, left);
    }
    var found := Locate(buffer);
    assert found.Some? ==> Begins(buffer[found.value..]);
    assert at < |buffer| ==> PREFIX <= buffer[at..];
  }

  lemma {:induction false} HereExtracts(buffer: Text, result: Extracted, left: Text)
    requires PREFIX <= buffer
    ensures ExtractHere(buffer) == (result, left) <==> Extracts(buffer, result, left)
  {
    hide ParseSize, Numeral, IsSize, Find, ExtractsBody, LengthEnds;
    assert |buffer| >= 12 ==> buffer[10..][..2] == buffer[10..12];
    if LengthBegins(buffer) {
      var e := LengthEndFound(buffer);
      if '\U{0001}' in buffer[12..] {
        hide ExtractHere;
        EndIsUnique(buffer, e);
        HeadExtracts(buffer, e, result, left);
      }
    }
  }
}
