/** Cutting the byte stream of a connection into messages. */
module Framing {
  import opened ExchangeTypes
  import opened Chunks
  import opened Wire
  import opened WireLaws

  const MAXIMUM_BODY_SIZE: nat := 1024 * 1024

  datatype Message = Message(header: Header, body: seq<Byte>)

  // What one pass over the receive buffer hands over and what it leaves; not ok when it met a
  // header it cannot accept, and then everything still in the buffer is thrown away.
  datatype Drained = Drained(messages: seq<Message>, left: seq<Byte>, ok: bool)

  function Drain(buffer: seq<Byte>): Drained
    decreases |buffer|
  {
    if |buffer| < HEADER_SIZE then Drained([], buffer, true)
    else
      match DecodeHeader(buffer[..HEADER_SIZE])
      case None => Drained([], [], false)
      case Some(h) =>
        if h.bodySize > MAXIMUM_BODY_SIZE then Drained([], [], false)
        else if |buffer| < HEADER_SIZE + h.bodySize then Drained([], buffer, true)
        else
          var rest := Drain(buffer[HEADER_SIZE + h.bodySize..]);
          rest.(messages := [Message(h, buffer[HEADER_SIZE..HEADER_SIZE + h.bodySize])] + rest.messages)
  }

  // The buffer after a whole series of receives, and all that was handed over.
  function Receive(left: seq<Byte>, chunks: seq<seq<Byte>>): Drained
    decreases |chunks|
  {
    if chunks == [] then Drained([], left, true)
    else
      var now := Drain(left + chunks[0]);
      var later := Receive(now.left, chunks[1..]);
      Drained(now.messages + later.messages, later.left, now.ok && later.ok)
  }

  predicate Sendable(m: Message) {
    ValidHeader(m.header) && |m.body| == m.header.bodySize <= MAXIMUM_BODY_SIZE
  }

  function Sent(messages: seq<Message>): seq<Byte>
  {
    if messages == [] then [] else EncodeHeader(messages[0].header) + messages[0].body + Sent(messages[1..])
  }

  // ---- Laws -----------------------------------------------------------------------------------

  // A whole message at the front of the buffer is handed over first.
  lemma {:induction false} DrainFirst(h: Header, first: seq<Byte>, body: seq<Byte>, rest: seq<Byte>)
    requires |first| == HEADER_SIZE && DecodeHeader(first) == Some(h) && |body| == h.bodySize <= MAXIMUM_BODY_SIZE
    ensures var later := Drain(rest);
      Drain(first + body + rest) == later.(messages := [Message(h, body)] + later.messages)
  {
    hide DecodeHeader;
    var buffer := first + body + rest;
    assert buffer[..HEADER_SIZE] == first;
    assert buffer[HEADER_SIZE..HEADER_SIZE + h.bodySize] == body;
    assert buffer[HEADER_SIZE + h.bodySize..] == rest;
  }

  // As long as the first part holds no bad header, draining it first makes no difference.
  lemma {:induction false} DrainInTwo(a: seq<Byte>, b: seq<Byte>)
    requires Drain(a).ok
    ensures var now := Drain(a);
      var later := Drain(now.left + b);
      Drain(a + b) == Drained(now.messages + later.messages, later.left, later.ok)
    decreases |a|
  {
    hide DecodeHeader;
    if |a| < HEADER_SIZE {
    } else {
      var h := DecodeHeader(a[..HEADER_SIZE]).value;
      if |a| >= HEADER_SIZE + h.bodySize {
        DrainInTwo(a[HEADER_SIZE + h.bodySize..], b);
        MessageThenTwo(h, a[..HEADER_SIZE], a[HEADER_SIZE..HEADER_SIZE + h.bodySize], a[HEADER_SIZE + h.bodySize..], b);
        assert a == a[..HEADER_SIZE] + a[HEADER_SIZE..HEADER_SIZE + h.bodySize] + a[HEADER_SIZE + h.bodySize..];
      }
    }
  }

  lemma {:induction false} MessageThenTwo(h: Header, first: seq<Byte>, body: seq<Byte>, rest: seq<Byte>, b: seq<Byte>)
    requires |first| == HEADER_SIZE && DecodeHeader(first) == Some(h) && |body| == h.bodySize <= MAXIMUM_BODY_SIZE
    requires var now := Drain(rest);
      var later := Drain(now.left + b);
      Drain(rest + b) == Drained(now.messages + later.messages, later.left, later.ok)
    ensures var now := Drain(first + body + rest);
      var later := Drain(now.left + b);
      Drain(first + body + rest + b) == Drained(now.messages + later.messages, later.left, later.ok)
  {
    hide DecodeHeader, Drain;
    DrainFirst(h, first, body, rest);
    DrainFirst(h, first, body, rest + b);
    assert first + body + rest + b == first + body + (rest + b);
    var now, later := Drain(rest), Drain(Drain(rest).left + b);
    assert [Message(h, body)] + (now.messages + later.messages) == [Message(h, body)] + now.messages + later.messages;
  }

  // A bad header is as bad with more bytes after it.
  lemma {:induction false} BadStaysBad(a: seq<Byte>, b: seq<Byte>)
    requires !Drain(a).ok
    ensures !Drain(a + b).ok
    decreases |a|
  {
    hide DecodeHeader;
    assert (a + b)[..HEADER_SIZE] == a[..HEADER_SIZE];
    var header := DecodeHeader(a[..HEADER_SIZE]);
    if header.Some? && header.value.bodySize <= MAXIMUM_BODY_SIZE {
      var size := HEADER_SIZE + header.value.bodySize;
      BadStaysBad(a[size..], b);
      assert (a + b)[size..] == a[size..] + b;
    }
  }

  /**
   However a stream without a bad header is cut into chunks, the same messages are handed over in
   the same order and the same unfinished bytes are left.
   */
  lemma {:induction false} ChunksDoNotMatter(left: seq<Byte>, chunks: seq<seq<Byte>>)
    requires Drain(left) == Drained([], left, true)
    requires Drain(left + Concat(chunks)).ok
    ensures Receive(left, chunks) == Drain(left + Concat(chunks))
    decreases |chunks|
  {
    if chunks == [] {
      assert left + Concat(chunks) == left;
    } else {
      var first, rest := left + chunks[0], Concat(chunks[1..]);
      assert left + Concat(chunks) == first + rest;
      if !Drain(first).ok {
        BadStaysBad(first, rest);
      }
      DrainInTwo(first, rest);
      NothingMore(first);
      ChunksDoNotMatter(Drain(first).left, chunks[1..]);
    }
  }

  // What a pass leaves holds no whole message.
  lemma {:induction false} NothingMore(buffer: seq<Byte>)
    requires Drain(buffer).ok
    ensures Drain(Drain(buffer).left) == Drained([], Drain(buffer).left, true)
    decreases |buffer|
  {
    hide DecodeHeader;
    if |buffer| >= HEADER_SIZE {
      var h := DecodeHeader(buffer[..HEADER_SIZE]).value;
      if |buffer| >= HEADER_SIZE + h.bodySize {
        NothingMore(buffer[HEADER_SIZE + h.bodySize..]);
      }
    }
  }

  // ---- When the cut does not matter ---------------------------------------------------------------

  // However the stream is cut, the same is handed over and the same is left.
  ghost predicate CutFree(s: seq<Byte>) {
    forall chunks: seq<seq<Byte>> :: Concat(chunks) == s ==> SameOutcome(Receive([], chunks), Drain(s))
  }

  predicate SameOutcome(a: Drained, b: Drained) {
    a.messages == b.messages && a.left == b.left
  }

  // A pass that fails leaves nothing.
  lemma {:induction false} FailedLeavesNothing(buffer: seq<Byte>)
    requires !Drain(buffer).ok
    ensures Drain(buffer).left == []
    decreases |buffer|
  {
    hide DecodeHeader;
    var header := DecodeHeader(buffer[..HEADER_SIZE]);
    if header.Some? && header.value.bodySize <= MAXIMUM_BODY_SIZE {
      FailedLeavesNothing(buffer[HEADER_SIZE + header.value.bodySize..]);
    }
  }

  lemma {:induction false} NothingReceived(chunks: seq<seq<Byte>>)
    requires Concat(chunks) == []
    ensures Receive([], chunks) == Drained([], [], true)
  {
    if chunks != [] {
      var none: seq<Byte> := [];
      assert none + chunks[0] == none;
      NothingReceived(chunks[1..]);
    }
  }

  // A bad header that ends with the stream's last byte is met by whichever chunk brings that byte.
  lemma {:induction false} BadAtTheEnd(left: seq<Byte>, chunks: seq<seq<Byte>>, s: seq<Byte>)
    requires Drain(left) == Drained([], left, true) && s == left + Concat(chunks)
    requires !Drain(s).ok && s != [] && Drain(s[..|s| - 1]).ok
    ensures Receive(left, chunks) == Drain(s)
    decreases |chunks|
  {
    hide Drain;
    assert left + [] == left;
    if chunks != [] {
      var first, rest := left + chunks[0], Concat(chunks[1..]);
      assert s == first + rest;
      if rest == [] {
        assert first == s;
        FailedLeavesNothing(s);
        NothingReceived(chunks[1..]);
      } else {
        var short := rest[..|rest| - 1];
        assert s[..|s| - 1] == first + short;
        if !Drain(first).ok {
          BadStaysBad(first, short);
        }
        DrainInTwo(first, rest);
        DrainInTwo(first, short);
        NothingMore(first);
        var later := Drain(first).left;
        assert (later + rest)[..|later + rest| - 1] == later + short;
        BadAtTheEnd(later, chunks[1..], later + rest);
      }
    }
  }

  // Cut before its last byte, a stream that had failed by then keeps that byte for a new start.
  lemma {:induction false} FailedEarlier(s: seq<Byte>)
    requires s != [] && !Drain(s).ok && !Drain(s[..|s| - 1]).ok
    ensures !CutFree(s)
  {
    hide Drain, CutFree;
    var head, last := s[..|s| - 1], s[|s| - 1..];
    assert Concat([head, last]) == s by { ConcatTwo(head, last); }
    FailedLeavesNothing(head);
    FailedLeavesNothing(s);
    ShortIsLeft(last);
    ReceivedTwo(head, last);
    assert [] + last == last;
    if CutFree(s) {
      CutFreeMeans(s, [head, last]);
    }
  }

  lemma ReceivedTwo(a: seq<Byte>, b: seq<Byte>)
    ensures var now := Drain(a);
      var later := Drain(now.left + b);
      Receive([], [a, b]) == Drained(now.messages + later.messages, later.left, now.ok && later.ok)
  {
    hide Drain;
    var none: seq<seq<Byte>> := [];
    assert [a, b][1..] == [b] && [b][1..] == none;
    assert [] + a == a;
    ReceivedOne(Drain(a).left, b);
  }

  lemma ReceivedOne(left: seq<Byte>, b: seq<Byte>)
    ensures Receive(left, [b]) == Drain(left + b)
  {
    hide Drain;
    var none: seq<seq<Byte>> := [];
    assert [b][1..] == none;
    var now := Drain(left + b);
    assert Receive(now.left, none) == Drained([], now.left, true);
    assert now.messages + [] == now.messages;
  }

  lemma ShortIsLeft(buffer: seq<Byte>)
    requires |buffer| < HEADER_SIZE
    ensures Drain(buffer) == Drained([], buffer, true)
  {
  }

  lemma CutFreeMeans(s: seq<Byte>, chunks: seq<seq<Byte>>)
    requires CutFree(s) && Concat(chunks) == s
    ensures SameOutcome(Receive([], chunks), Drain(s))
  {
  }

  /**
   Exactly when the cut of a stream into chunks does not matter: if and only if the stream holds no
   bad header, or the first one ends with its very last byte.
   */
  lemma {:induction false} CutFreeExactly(s: seq<Byte>)
    ensures CutFree(s) <==> Drain(s).ok || (s != [] && Drain(s[..|s| - 1]).ok)
  {
    hide Drain;
    var none: seq<Byte> := [];
    ShortIsLeft(none);
    if Drain(s).ok || (s != [] && Drain(s[..|s| - 1]).ok) {
      forall chunks: seq<seq<Byte>> | Concat(chunks) == s
        ensures SameOutcome(Receive([], chunks), Drain(s))
      {
        assert none + s == s;
        if Drain(s).ok {
          ChunksDoNotMatter(none, chunks);
        } else {
          BadAtTheEnd(none, chunks, s);
        }
      }
    } else {
      FailedEarlier(s);
    }
  }

  // ---- What is sent is received ---------------------------------------------------------------------

  // A header that does not decode, or announces a body that is too large.
  predicate Bad(bytes: seq<Byte>) {
    |bytes| == HEADER_SIZE && (DecodeHeader(bytes).None? || DecodeHeader(bytes).value.bodySize > MAXIMUM_BODY_SIZE)
  }

  /** Round trip: the messages sent are the messages handed over, and an unfinished one stays. */
  lemma {:induction false} SentIsReceived(messages: seq<Message>, partial: seq<Byte>)
    requires forall i :: 0 <= i < |messages| ==> Sendable(messages[i])
    requires Drain(partial) == Drained([], partial, true)
    ensures Drain(Sent(messages) + partial) == Drained(messages, partial, true)
  {
    hide DecodeHeader, EncodeHeader, Drain;
    if messages == [] {
      assert Sent(messages) + partial == partial;
    } else {
      var m := messages[0];
      HeaderRoundTrip(m.header);
      HeaderWidth(m.header);
      SentIsReceived(messages[1..], partial);
      DrainFirst(m.header, EncodeHeader(m.header), m.body, Sent(messages[1..]) + partial);
      assert Sent(messages) + partial == EncodeHeader(m.header) + m.body + (Sent(messages[1..]) + partial);
    }
  }

  lemma {:induction false} GoodThenBad(messages: seq<Message>, bad: seq<Byte>, rest: seq<Byte>)
    requires forall i :: 0 <= i < |messages| ==> Sendable(messages[i])
    requires Bad(bad)
    ensures Drain(Sent(messages) + bad + rest) == Drained(messages, [], false)
  {
    hide DecodeHeader, EncodeHeader, Drain;
    if messages == [] {
      assert Sent(messages) + bad + rest == bad + rest;
      BadFails(bad, rest);
    } else {
      var m := messages[0];
      HeaderRoundTrip(m.header);
      HeaderWidth(m.header);
      GoodThenBad(messages[1..], bad, rest);
      DrainFirst(m.header, EncodeHeader(m.header), m.body, Sent(messages[1..]) + bad + rest);
      assert Sent(messages) + bad + rest == EncodeHeader(m.header) + m.body + (Sent(messages[1..]) + bad + rest);
    }
  }

  lemma BadFails(bad: seq<Byte>, rest: seq<Byte>)
    requires Bad(bad)
    ensures Drain(bad + rest) == Drained([], [], false)
  {
    hide DecodeHeader;
    assert (bad + rest)[..HEADER_SIZE] == bad;
  }

  /**
   With a bad header the cut matters: whatever whole messages stand before and after it, those after
   it are lost when they arrive with it and handed over when they arrive later.
   */
  lemma {:induction false} BadHeaderMatters(before: seq<Message>, bad: seq<Byte>, after: seq<Message>)
    requires forall i :: 0 <= i < |before| ==> Sendable(before[i])
    requires forall i :: 0 <= i < |after| ==> Sendable(after[i])
    requires Bad(bad)
    ensures Receive([], [Sent(before) + bad, Sent(after)]).messages == before + after
    ensures Receive([], [Sent(before) + bad + Sent(after)]).messages == before
  {
    hide DecodeHeader, Drain, Sent, Bad;
    var none: seq<Byte> := [];
    var front, rest := Sent(before) + bad, Sent(after);
    assert front + none == front && none + rest == rest && rest + none == rest && none + (front + rest) == front + rest;
    GoodThenBad(before, bad, none);
    GoodThenBad(before, bad, rest);
    ShortIsLeft(none);
    SentIsReceived(after, none);
    ReceivedTwo(front, rest);
    ReceivedOne(none, front + rest);
  }

  // Whatever is handed over carries a header that decoded and the body it announces.
  lemma {:induction false} DrainedIsSendable(buffer: seq<Byte>)
    ensures forall i :: 0 <= i < |Drain(buffer).messages| ==> Sendable(Drain(buffer).messages[i])
    decreases |buffer|
  {
    if |buffer| >= HEADER_SIZE {
      var header := DecodeHeader(buffer[..HEADER_SIZE]);
      if header.Some? && header.value.bodySize <= MAXIMUM_BODY_SIZE && |buffer| >= HEADER_SIZE + header.value.bodySize {
        DecodedIsValid(buffer[..HEADER_SIZE]);
        DrainedIsSendable(buffer[HEADER_SIZE + header.value.bodySize..]);
      }
    }
  }

  lemma DecodedIsValid(input: seq<Byte>)
    requires DecodeHeader(input).Some?
    ensures ValidHeader(DecodeHeader(input).value)
  {
    hide FromLittleEndian;
    Ranges();
    WriteWhatWasRead(input[6..8]);
    WriteWhatWasRead(input[8..12]);
    WriteWhatWasRead(input[12..20]);
  }
}
