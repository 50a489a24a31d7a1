/** The FIX codec as it runs: loops over strings, a cursor through the body, a buffer erased in place. */
module FixCodec {
  import opened ExchangeTypes
  import opened Fix

  const UNSIGNED: nat := 0x1_0000_0000

  // What setting a tag makes of the fields: the first of that tag is overwritten, or one is added.
  function Updated(fields: seq<Field>, tag: int, value: Text): seq<Field> {
    if fields == [] then [Field(tag, value)]
    else if fields[0].tag == tag then [Field(tag, value)] + fields[1..]
    else [fields[0]] + Updated(fields[1..], tag, value)
  }

  /** Setting a tag is seen when getting it, and by no other tag; no field moves. */
  lemma {:induction false} SetThenGet(fields: seq<Field>, tag: int, value: Text, other: int)
    ensures Get(Updated(fields, tag, value), other) == if other == tag then Some(value) else Get(fields, other)
    ensures |Updated(fields, tag, value)| == |fields| + if Get(fields, tag).Some? then 0 else 1
    ensures forall i :: 0 <= i < |fields| ==> Updated(fields, tag, value)[i].tag == fields[i].tag
  {
    if fields != [] && fields[0].tag != tag {
      SetThenGet(fields[1..], tag, value, other);
      assert Updated(fields, tag, value)[1..] == Updated(fields[1..], tag, value);
    } else {
      assert Updated(fields, tag, value)[1..] == if fields == [] then [] else fields[1..];
    }
  }

  lemma UpdatedHere(fields: seq<Field>, i: nat, tag: int, value: Text)
    requires i < |fields| && fields[i].tag == tag
    ensures fields[..i] + Updated(fields[i..], tag, value) == fields[i := Field(tag, value)]
  {
    assert fields[i..][1..] == fields[i + 1..];
  }

  lemma UpdatedFurther(fields: seq<Field>, i: nat, tag: int, value: Text)
    requires i < |fields| && fields[i].tag != tag
    ensures fields[..i] + Updated(fields[i..], tag, value) == fields[..i + 1] + Updated(fields[i + 1..], tag, value)
  {
    assert fields[i..][1..] == fields[i + 1..];
    assert fields[..i + 1] == fields[..i] + [fields[i]];
  }

  lemma UpdatedAtEnd(fields: seq<Field>, tag: int, value: Text)
    ensures fields[..|fields|] + Updated(fields[|fields|..], tag, value) == fields + [Field(tag, value)]
  {
    assert fields[|fields|..] == [] && fields[..|fields|] == fields;
  }

  class Message {
    var fields: seq<Field>

    constructor ()
      ensures fields == []
    {
      fields := [];
    }

    method Add(tag: int, value: Text)
      modifies this
      ensures fields == old(fields) + [Field(tag, value)]
    {
      fields := fields + [Field(tag, value)];
    }

    method Set(tag: int, value: Text)
      modifies this
      ensures fields == Updated(old(fields), tag, value)
    {
      hide Updated;
      assert fields[..0] + Updated(fields[0..], tag, value) == Updated(fields, tag, value) by { assert fields[0..] == fields; }
      for i := 0 to |fields|
        invariant fields == old(fields)
        invariant Updated(fields, tag, value) == fields[..i] + Updated(fields[i..], tag, value)
      {
        if fields[i].tag == tag {
          UpdatedHere(fields, i, tag, value);
          fields := fields[i := Field(tag, value)];
          return;
        }
        UpdatedFurther(fields, i, tag, value);
      }
      UpdatedAtEnd(fields, tag, value);
      Add(tag, value);
    }

    method GetValue(tag: int) returns (value: Option<Text>)
      ensures value == Get(fields, tag)
    {
      for i := 0 to |fields|
        invariant Get(fields, tag) == Get(fields[i..], tag)
      {
        if fields[i].tag == tag {
          return Some(fields[i].value);
        }
        assert fields[i..][1..] == fields[i + 1..];
      }
      return None;
    }
  }

  // The sum is kept in a 32-bit word; that does not change it modulo 256.
  method ChecksumBefore(wire: Text, offset: nat) returns (checksum: nat)
    requires offset <= |wire|
    ensures checksum == Sum(wire[..offset]) % 256
  {
    var sum := 0;
    assert wire[..0] == [];
    for index := 0 to offset
      invariant 0 <= sum < UNSIGNED && sum % 256 == Sum(wire[..index]) % 256
    {
      assert wire[..index + 1][..index] == wire[..index];
      SumWraps(sum, Sum(wire[..index]), wire[index] as int);
      sum := (sum + wire[index] as int) % UNSIGNED;
    }
    checksum := sum % 256;
  }

  lemma SumWraps(word: nat, sum: nat, byte: nat)
    requires word % 256 == sum % 256
    ensures ((word + byte) % UNSIGNED) % 256 == (sum + byte) % 256
  {
  }

  method Encode(message: Message) returns (wire: Text)
    ensures wire == Encoding(message.fields)
  {
    hide FieldText, Sum, ThreeDigits, Decimal;
    var fields := message.fields;
    var body: Text := [];
    assert fields[0..] == fields;
    for i := 0 to |fields|
      invariant body + Body(fields[i..]) == Body(fields)
    {
      assert fields[i..][1..] == fields[i + 1..];
      if Generated(fields[i].tag) {
        continue;
      }
      assert body + (FieldText(fields[i]) + Body(fields[i + 1..])) == body + FieldText(fields[i]) + Body(fields[i + 1..]);
      body := body + FieldText(fields[i]);
    }
    assert fields[|fields|..] == [] && body + [] == body;
    wire := PREFIX;
    wire := wire + LENGTH_TAG;
    wire := wire + Decimal(|body|);
    wire := wire + [SOH];
    wire := wire + body;
    assert wire == Head(|body|) + body && wire[..|wire|] == wire;
    var checksum := ChecksumBefore(wire, |wire|);
    ghost var tail := Tail(Sum(wire));
    assert wire + CHECKSUM_TAG + ThreeDigits(checksum) + [SOH] == wire + tail;
    wire := wire + CHECKSUM_TAG + ThreeDigits(checksum) + [SOH];
  }

  // What parsing the rest makes of the fields read so far.
  function Resume(parsed: seq<Field>, rest: Parsed): Parsed {
    match rest case Ok(fields) => Ok(parsed + fields) case Rejected(why) => Rejected(why)
  }

  method ParseMessage(wire: Text) returns (result: Parsed)
    ensures result == Parse(wire)
  {
    hide ParseFields, ParseSize, Sum, HasMsgType;
    var start := |PREFIX|;
    if !(PREFIX <= wire) {
      return Rejected(NotFix44);
    }
    if !(LENGTH_TAG <= wire[start..]) {
      return Rejected(NoBodyLength);
    }
    var end := Find(SOH, wire[start..]);
    if end.None? {
      return Rejected(TruncatedBodyLength);
    }
    var bodyLength := ParseSize(wire[start..][|LENGTH_TAG|..][..end.value - |LENGTH_TAG|]);
    if bodyLength.None? {
      return Rejected(InvalidBodyLength);
    }
    var bodyStart := start + end.value + 1;
    if bodyLength.value > |wire| - bodyStart {
      return Rejected(BodyLengthTooLong);
    }
    var checksumOffset := bodyStart + bodyLength.value;
    if checksumOffset + 7 != |wire| || !(CHECKSUM_TAG <= wire[checksumOffset..]) || wire[|wire| - 1] != SOH {
      return Rejected(BodyLengthNotAtChecksum);
    }
    var checksumValue := ParseSize(wire[checksumOffset + 3..checksumOffset + 6]);
    if checksumValue.None? || checksumValue.value > 255 {
      return Rejected(InvalidChecksum);
    }
    var checksum := ChecksumBefore(wire, checksumOffset);
    if checksum != checksumValue.value {
      return Rejected(ChecksumMismatch);
    }
    var parsed := ParseBodyFields(wire, bodyStart, checksumOffset);
    if parsed.Rejected? {
      return parsed;
    }
    if !HasMsgType(parsed.fields) {
      return Rejected(NoMsgType);
    }
    return parsed;
  }

  lemma ResumeMore(parsed: seq<Field>, one: Field, rest: Parsed)
    ensures Resume(parsed, Resume([one], rest)) == Resume(parsed + [one], rest)
    ensures Resume([], rest) == rest
  {
    if rest.Ok? {
      assert parsed + ([one] + rest.fields) == parsed + [one] + rest.fields;
      assert [] + rest.fields == rest.fields;
    }
  }

  // One field and the rest.
  lemma {:induction false} FirstThenRest(text: Text)
    requires text != []
    ensures var at := Find(SOH, text);
      ParseFields(text) ==
        if at.None? then Rejected(TruncatedField)
        else
          var equals := Find('=', text[..at.value]);
          if equals.None? || equals.value == 0 then Rejected(InvalidField)
          else
            var tag := ParseTag(text[..equals.value]);
            if tag.None? then Rejected(InvalidTag)
            else Resume([Field(tag.value, text[equals.value + 1..at.value])], ParseFields(text[at.value + 1..]))
  {
    hide Find, ParseTag;
  }

  // The next field of the body, as the cursor loop finds it.
  lemma {:induction false} OneField(wire: Text, cursor: nat, end: nat)
    requires cursor < end <= |wire|
    ensures var at := Find(SOH, wire[cursor..]);
      ParseFields(wire[cursor..end]) ==
        if at.None? || cursor + at.value >= end then Rejected(TruncatedField)
        else
          var field := wire[cursor..cursor + at.value];
          var equals := Find('=', field);
          if equals.None? || equals.value == 0 then Rejected(InvalidField)
          else
            var tag := ParseTag(field[..equals.value]);
            if tag.None? then Rejected(InvalidTag)
            else Resume([Field(tag.value, field[equals.value + 1..])], ParseFields(wire[cursor + at.value + 1..end]))
  {
    hide Find, ParseTag, ParseFields, Resume;
    FieldEnd(wire, cursor, end);
    var text := wire[cursor..end];
    FirstThenRest(text);
    var at := Find(SOH, text);
    if at.Some? {
      assert text[..at.value] == wire[cursor..cursor + at.value];
      assert text[at.value + 1..] == wire[cursor + at.value + 1..end];
      var equals := Find('=', text[..at.value]);
      if equals.Some? {
        assert text[..equals.value] == text[..at.value][..equals.value];
        assert text[equals.value + 1..at.value] == text[..at.value][equals.value + 1..];
      }
    }
  }

  // The cursor loop over the body.
  method ParseBodyFields(wire: Text, start: nat, end: nat) returns (result: Parsed)
    requires start <= end <= |wire|
    ensures result == ParseFields(wire[start..end])
  {
    hide ParseFields, Resume, ParseTag, Find;
    var parsed: seq<Field> := [];
    var cursor := start;
    ghost var all := ParseFields(wire[start..end]);
    ResumeMore([], Field(1, []), all);
    while cursor < end
      invariant start <= cursor <= end
      invariant Resume(parsed, ParseFields(wire[cursor..end])) == all
    {
      OneField(wire, cursor, end);
      var fieldEnd := Find(SOH, wire[cursor..]);
      if fieldEnd.None? || cursor + fieldEnd.value >= end {
        ResumeRejected(parsed, TruncatedField);
        return Rejected(TruncatedField);
      }
      var field := wire[cursor..cursor + fieldEnd.value];
      var equals := Find('=', field);
      if equals.None? || equals.value == 0 {
        ResumeRejected(parsed, InvalidField);
        return Rejected(InvalidField);
      }
      var tag := ParseTag(field[..equals.value]);
      if tag.None? {
        ResumeRejected(parsed, InvalidTag);
        return Rejected(InvalidTag);
      }
      var one := Field(tag.value, field[equals.value + 1..]);
      ResumeMore(parsed, one, ParseFields(wire[cursor + fieldEnd.value + 1..end]));
      parsed := parsed + [one];
      cursor := cursor + fieldEnd.value + 1;
    }
    assert wire[cursor..end] == [];
    ResumeNothing(parsed);
    return Ok(parsed);
  }

  lemma ResumeRejected(parsed: seq<Field>, why: Rejection)
    ensures Resume(parsed, Rejected(why)) == Rejected(why)
  {
  }

  lemma ResumeNothing(parsed: seq<Field>)
    ensures Resume(parsed, ParseFields([])) == Ok(parsed)
  {
    assert parsed + [] == parsed;
  }

  // Looking past the end of the body makes no difference to a field that ends inside it.
  lemma FieldEnd(wire: Text, cursor: nat, end: nat)
    requires cursor <= end <= |wire|
    ensures Find(SOH, wire[cursor..end]) ==
      var at := Find(SOH, wire[cursor..]); if at.None? || cursor + at.value >= end then None else at
  {
    hide Find;
    var whole, part := wire[cursor..], wire[cursor..end];
    assert forall i :: 0 <= i < |part| ==> part[i] == whole[i];
    var at, inside := Find(SOH, whole), Find(SOH, part);
    if inside.Some? {
      assert whole[inside.value] == SOH;
    }
  }

  class ReceiveBuffer {
    var bytes: Text

    constructor ()
      ensures bytes == []
    {
      bytes := [];
    }

    method Receive(chunk: Text)
      modifies this
      ensures bytes == old(bytes) + chunk
    {
      bytes := bytes + chunk;
    }

    // Once the buffer begins with the prefix.
    method ExtractHere() returns (result: Extracted)
      requires PREFIX <= bytes
      modifies this
      ensures (result, bytes) == Fix.ExtractHere(old(bytes))
    {
      hide ParseSize, Find;
      var start := |PREFIX|;
      if |bytes| < start + |LENGTH_TAG| {
        return NeedMoreData;
      }
      if !(LENGTH_TAG <= bytes[start..]) {
        return InvalidData;
      }
      var end := Find(SOH, bytes[start..]);
      if end.None? {
        return NeedMoreData;
      }
      var bodyLength := ParseSize(bytes[start..][|LENGTH_TAG|..][..end.value - |LENGTH_TAG|]);
      if bodyLength.None? {
        return InvalidData;
      }
      var bodyStart := start + end.value + 1;
      if bodyLength.value > SIZE_RANGE - 1 - bodyStart - 7 {
        return InvalidData;
      }
      var totalSize := bodyStart + bodyLength.value + 7;
      if |bytes| < totalSize {
        return NeedMoreData;
      }
      if !(CHECKSUM_TAG <= bytes[bodyStart + bodyLength.value..]) {
        return InvalidData;
      }
      result := MessageReady(bytes[..totalSize]);
      bytes := bytes[totalSize..];
    }

    method ExtractOne() returns (result: Extracted)
      modifies this
      ensures (result, bytes) == Extract(old(bytes))
    {
      hide Fix.ExtractHere;
      if bytes == [] {
        assert Locate(bytes) == None;
        return NeedMoreData;
      }
      if !(PREFIX <= bytes) {
        var next := Locate(bytes);
        if next.None? {
          return if |bytes| > |PREFIX| then InvalidData else NeedMoreData;
        }
        bytes := bytes[next.value..];
      } else {
        assert Locate(bytes) == Some(0) && bytes[0..] == bytes;
      }
      result := ExtractHere();
    }
  }
}
