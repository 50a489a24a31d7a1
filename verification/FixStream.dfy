/** Pulling FIX messages out of a byte stream, however the stream is cut. */
module FixStreams {
  import opened ExchangeTypes
  import opened Chunks
  import opened Fix
  import opened FixLaws

  // Everything that can be pulled out of a buffer, and what stays; not ok when the data is invalid.
  datatype Pulled = Pulled(wires: seq<Text>, left: Text, ok: bool)

  lemma ExtractShrinks(buffer: Text)
    requires Extract(buffer).0.MessageReady?
    ensures |Extract(buffer).1| < |buffer|
  {
  }

  function Pull(buffer: Text): Pulled
    decreases |buffer|
  {
    var (extracted, rest) := Extract(buffer);
    match extracted
    case NeedMoreData => Pulled([], rest, true)
    case InvalidData => Pulled([], rest, false)
    case MessageReady(wire) =>
      ExtractShrinks(buffer);
      var later := Pull(rest);
      later.(wires := [wire] + later.wires)
  }

  // A series of receives; the first invalid data ends the session, and nothing more is looked at.
  function Receive(left: Text, chunks: seq<Text>): Pulled
    decreases |chunks|
  {
    if chunks == [] then Pulled([], left, true)
    else
      var now := Pull(left + chunks[0]);
      if !now.ok then now
      else
        var later := Receive(now.left, chunks[1..]);
        Pulled(now.wires + later.wires, later.left, later.ok)
  }

  // ---- More bytes ---------------------------------------------------------------------------------

  lemma {:induction false} LocateMore(a: Text, b: Text)
    requires Locate(a).Some?
    ensures Locate(a + b) == Locate(a) && (a + b)[Locate(a).value..] == a[Locate(a).value..] + b
  {
    hide Locate;
    var i := Locate(a).value;
    assert (a + b)[i..] == a[i..] + b;
    forall j | 0 <= j < i
      ensures !(PREFIX <= (a + b)[j..])
    {
      assert |a[i..]| >= |PREFIX|;
      assert (a + b)[j..][..|PREFIX|] == a[j..][..|PREFIX|];
    }
  }

  lemma LocateHere(a: Text)
    requires PREFIX <= a
    ensures Locate(a) == Some(0)
  {
  }

  lemma FindMore(c: Octet, a: Text, b: Text)
    requires Find(c, a).Some?
    ensures Find(c, a + b) == Find(c, a)
  {
    hide Find;
    var i := Find(c, a).value;
    assert (a + b)[i] == c;
    assert forall j :: 0 <= j < i ==> (a + b)[j] == a[j];
  }

  // The parts extraction looks at are the same with more bytes behind them.
  lemma TakeMore(a: Text, b: Text, i: nat, j: nat)
    requires i <= j <= |a|
    ensures (a + b)[i..] == a[i..] + b && (a + b)[..j] == a[..j] && (a + b)[i..][..j - i] == a[i..][..j - i]
  {
  }

  // What extraction at a prefix goes by: where the length ends, the length, and the end of the message.
  ghost predicate HeadReads(a: Text, e: nat, length: nat) {
    var at := |PREFIX|;
    && PREFIX <= a && |a| >= at + 2 && LENGTH_TAG <= a[at..]
    && Find(SOH, a[at..]) == Some(e) && e >= 2 && ParseSize(a[at..][2..][..e - 2]) == Some(length)
    && length <= SIZE_RANGE - 1 - (at + e + 1) - 7
  }

  lemma ReadyHeadReads(a: Text) returns (e: nat, length: nat)
    requires PREFIX <= a && ExtractHere(a).0.MessageReady?
    ensures HeadReads(a, e, length)
    ensures var end := |PREFIX| + e + 1 + length;
      && end + 7 <= |a| && CHECKSUM_TAG <= a[end..] && ExtractHere(a) == (MessageReady(a[..end + 7]), a[end + 7..])
  {
    hide ParseSize, Find;
    var at := |PREFIX|;
    e := Find(SOH, a[at..]).value;
    assert a[at..][0] == LENGTH_TAG[0] && a[at..][1] == LENGTH_TAG[1];
    length := ParseSize(a[at..][2..][..e - 2]).value;
  }

  lemma HeadReadsReady(a: Text, e: nat, length: nat)
    requires HeadReads(a, e, length)
    requires var end := |PREFIX| + e + 1 + length; end + 7 <= |a| && CHECKSUM_TAG <= a[end..]
    ensures var end := |PREFIX| + e + 1 + length;
      ExtractHere(a) == (MessageReady(a[..end + 7]), a[end + 7..])
  {
    hide ParseSize, Find;
  }

  lemma {:induction false} HeadReadsMore(a: Text, b: Text, e: nat, length: nat)
    requires HeadReads(a, e, length)
    ensures HeadReads(a + b, e, length)
  {
    hide ParseSize, Find;
    var at := |PREFIX|;
    TakeMore(a, b, at, |a|);
    FindMore(SOH, a[at..], b);
    assert (a + b)[at..][2..][..e - 2] == a[at..][2..][..e - 2];
    assert (a + b)[at..][..2] == a[at..][..2] == LENGTH_TAG;
  }

  // A message that is ready stays the same, and what follows it only grows.
  lemma {:induction false} ReadyMore(a: Text, b: Text)
    requires PREFIX <= a && ExtractHere(a).0.MessageReady?
    ensures PREFIX <= a + b && ExtractHere(a + b) == (ExtractHere(a).0, ExtractHere(a).1 + b)
  {
    hide ExtractHere, HeadReads;
    var e, length := ReadyHeadReads(a);
    var end := |PREFIX| + e + 1 + length;
    HeadReadsMore(a, b, e, length);
    TakeMore(a, b, end, end + 3);
    assert (a + b)[end..][..3] == a[end..][..3] == CHECKSUM_TAG;
    HeadReadsReady(a + b, e, length);
    TakeMore(a, b, end + 7, end + 7);
  }

  lemma {:induction false} WaitingKeepsBuffer(a: Text)
    requires PREFIX <= a && ExtractHere(a).0.NeedMoreData?
    ensures ExtractHere(a).1 == a
  {
  }

  lemma {:induction false} ExtractReadyMore(a: Text, b: Text)
    requires Extract(a).0.MessageReady?
    ensures Extract(a + b) == (Extract(a).0, Extract(a).1 + b)
  {
    hide ExtractHere, Locate;
    LocateMore(a, b);
    ReadyMore(a[Locate(a).value..], b);
  }

  lemma {:induction false} ExtractWaitingMore(a: Text, b: Text)
    requires Extract(a).0.NeedMoreData?
    ensures Extract(Extract(a).1 + b) == Extract(a + b) && Extract(Extract(a).1) == Extract(a)
  {
    hide ExtractHere, Locate;
    if Locate(a).Some? {
      var rest := a[Locate(a).value..];
      WaitingKeepsBuffer(rest);
      LocateMore(a, b);
      LocateHere(rest);
      LocateHere(rest + b);
      assert rest[0..] == rest && (rest + b)[0..] == rest + b;
    }
  }

  lemma {:induction false} PullInTwo(a: Text, b: Text)
    requires Pull(a).ok
    ensures var now := Pull(a);
      var later := Pull(now.left + b);
      Pull(a + b) == Pulled(now.wires + later.wires, later.left, later.ok)
    ensures Pull(Pull(a).left) == Pulled([], Pull(a).left, true)
    decreases |a|
  {
    hide Extract;
    var (extracted, rest) := Extract(a);
    match extracted {
      case NeedMoreData =>
        ExtractWaitingMore(a, b);
        SamePull(rest + b, a + b);
        assert [] + Pull(rest + b).wires == Pull(rest + b).wires;
      case MessageReady(wire) =>
        ExtractReadyMore(a, b);
        ExtractShrinks(a);
        PullInTwo(rest, b);
        var now, later := Pull(rest), Pull(Pull(rest).left + b);
        assert [wire] + (now.wires + later.wires) == [wire] + now.wires + later.wires;
      case InvalidData =>
    }
  }

  lemma SamePull(a: Text, b: Text)
    requires Extract(a) == Extract(b)
    ensures Pull(a) == Pull(b)
  {
    hide Extract;
  }

  // ---- Chunks ---------------------------------------------------------------------------------------

  // Wherever the stream is cut, what has arrived is not invalid.
  ghost predicate NeverInvalid(left: Text, stream: Text) {
    forall n :: 0 <= n <= |stream| ==> Pull(left + stream[..n]).ok
  }

  /** Cut anywhere, a stream that is never invalid yields the same messages and leaves the same bytes. */
  lemma {:induction false} ChunksDoNotMatter(left: Text, chunks: seq<Text>)
    requires Pull(left) == Pulled([], left, true) && NeverInvalid(left, Concat(chunks))
    ensures Receive(left, chunks) == Pull(left + Concat(chunks))
    decreases |chunks|
  {
    hide Pull;
    if chunks == [] {
      assert left + Concat(chunks) == left;
    } else {
      var stream, rest := Concat(chunks), Concat(chunks[1..]);
      var first := left + chunks[0];
      assert stream[..|chunks[0]|] == chunks[0];
      PullInTwo(first, rest);
      assert left + stream == first + rest;
      var left' := Pull(first).left;
      forall n | 0 <= n <= |rest|
        ensures Pull(left' + rest[..n]).ok
      {
        assert left + stream[..|chunks[0]| + n] == first + rest[..n];
        PullInTwo(first, rest[..n]);
      }
      ChunksDoNotMatter(left', chunks[1..]);
    }
  }

  // ---- When the cut does not matter ---------------------------------------------------------------

  // The same messages, the same verdict, and the same bytes left if the session goes on.
  predicate SameOutcome(a: Pulled, b: Pulled) {
    a.wires == b.wires && a.ok == b.ok && (a.ok ==> a.left == b.left)
  }

  // However the stream is cut, the same comes of it.
  ghost predicate CutFree(stream: Text) {
    forall chunks: seq<Text> :: Concat(chunks) == stream ==> SameOutcome(Receive([], chunks), Pull(stream))
  }

  // Data that is invalid after its prefix was found is as invalid with more bytes after it.
  lemma {:induction false} InvalidMore(a: Text, b: Text)
    requires Locate(a).Some? && Extract(a).0.InvalidData?
    ensures Extract(a + b).0.InvalidData?
  {
    hide ExtractHere, Locate;
    LocateMore(a, b);
    InvalidHereMore(a[Locate(a).value..], b);
  }

  lemma {:induction false} InvalidHereMore(a: Text, b: Text)
    requires PREFIX <= a && ExtractHere(a).0.InvalidData?
    ensures PREFIX <= a + b && ExtractHere(a + b).0.InvalidData?
  {
    hide ParseSize, Find;
    var at := |PREFIX|;
    assert (a + b)[at..] == a[at..] + b;
    if LENGTH_TAG <= a[at..] {
      FindMore(SOH, a[at..], b);
      var e := Find(SOH, a[at..]).value;
      assert (a + b)[at..][2..][..e - 2] == a[at..][2..][..e - 2];
      var size := ParseSize(a[at..][2..][..e - 2]);
      if size.Some? && |a| >= at + e + 1 + size.value + 7 {
        var end := at + e + 1 + size.value;
        assert (a + b)[end..][..3] == a[end..][..3];
      }
    } else {
      assert (a + b)[at..][..2] == a[at..][..2];
    }
  }

  // Whatever stopped extraction, going on with more bytes is extracting from what was left with them.
  lemma {:induction false} PullOn(a: Text, b: Text)
    requires !Pull(a).ok
    ensures var now := Pull(a);
      var later := Pull(now.left + b);
      Pull(a + b) == Pulled(now.wires + later.wires, later.left, later.ok)
    ensures Extract(Pull(a).left).0.InvalidData?
    decreases |a|
  {
    hide Extract;
    var (extracted, rest) := Extract(a);
    match extracted {
      case InvalidData =>
        ExtractInvalidMore(a, b);
        SamePull(rest + b, a + b);
        assert [] + Pull(rest + b).wires == Pull(rest + b).wires;
      case MessageReady(wire) =>
        ExtractReadyMore(a, b);
        ExtractShrinks(a);
        PullOn(rest, b);
        var now, later := Pull(rest), Pull(Pull(rest).left + b);
        assert [wire] + (now.wires + later.wires) == [wire] + now.wires + later.wires;
      case NeedMoreData =>
    }
  }

  lemma {:induction false} ExtractInvalidMore(a: Text, b: Text)
    requires Extract(a).0.InvalidData?
    ensures Extract(Extract(a).1 + b) == Extract(a + b) && Extract(Extract(a).1) == Extract(a)
  {
    hide ExtractHere, Locate;
    if Locate(a).Some? {
      var rest := a[Locate(a).value..];
      InvalidKeepsBuffer(rest);
      LocateMore(a, b);
      LocateHere(rest);
      LocateHere(rest + b);
      assert rest[0..] == rest && (rest + b)[0..] == rest + b;
    }
  }

  lemma {:induction false} InvalidKeepsBuffer(a: Text)
    requires PREFIX <= a && ExtractHere(a).0.InvalidData?
    ensures ExtractHere(a).1 == a
  {
  }

  lemma PullInvalid(a: Text)
    ensures Extract(a).0.InvalidData? <==> Pull(a).wires == [] && !Pull(a).ok
  {
  }

  // What stops extraction somewhere in the stream would stop it with the whole stream as well.
  ghost predicate StopsAnyway(left: Text, stream: Text) {
    forall n :: 0 <= n <= |stream| ==> StopsAt(left, stream, n)
  }

  predicate StopsAt(left: Text, stream: Text, n: nat)
    requires n <= |stream|
  {
    var now := Pull(left + stream[..n]);
    !now.ok ==> Extract(now.left + stream[n..]).0.InvalidData?
  }

  lemma {:induction false} StopsLater(left: Text, first: Text, rest: Text)
    requires StopsAnyway(left, first + rest) && Pull(left + first).ok
    ensures StopsAnyway(Pull(left + first).left, rest)
  {
    hide Pull, Extract;
    var left', stream := Pull(left + first).left, first + rest;
    forall n | 0 <= n <= |rest|
      ensures StopsAt(left', rest, n)
    {
      assert StopsAt(left, stream, |first| + n);
      assert left + stream[..|first| + n] == left + first + rest[..n];
      assert stream[|first| + n..] == rest[n..];
      PullInTwo(left + first, rest[..n]);
    }
  }

  lemma {:induction false} StopsAlike(left: Text, chunks: seq<Text>)
    requires Pull(left) == Pulled([], left, true) && StopsAnyway(left, Concat(chunks))
    ensures SameOutcome(Receive(left, chunks), Pull(left + Concat(chunks)))
    decreases |chunks|
  {
    hide Pull, Extract, StopsAnyway, StopsAt;
    if chunks == [] {
      assert left + Concat(chunks) == left;
    } else {
      var first, rest := left + chunks[0], Concat(chunks[1..]);
      assert left + Concat(chunks) == first + rest;
      if Pull(first).ok {
        PullInTwo(first, rest);
        StopsLater(left, chunks[0], rest);
        StopsAlike(Pull(first).left, chunks[1..]);
      } else {
        StopsHere(left, chunks[0], rest);
        PullOn(first, rest);
        PullInvalid(Pull(first).left + rest);
      }
    }
  }

  lemma StopsHere(left: Text, first: Text, rest: Text)
    requires StopsAnyway(left, first + rest) && !Pull(left + first).ok
    ensures Extract(Pull(left + first).left + rest).0.InvalidData?
  {
    hide Pull, Extract;
    assert StopsAt(left, first + rest, |first|);
    assert (first + rest)[..|first|] == first && (first + rest)[|first|..] == rest;
  }

  // ---- Gaps before messages --------------------------------------------------------------------------

  // One pass over the gaps: no message, whole or not, has more than one byte in front of its prefix,
  // unless what stands there is invalid.
  predicate Clean(buffer: Text)
    decreases |buffer|
  {
    var (extracted, rest) := Extract(buffer);
    && (Locate(buffer).Some? && Locate(buffer).value > 1 ==> extracted.InvalidData?)
    && if extracted.MessageReady? then ExtractShrinks(buffer); Clean(rest) else true
  }

  // The first prefix is found as soon as all of it is there, and not before.
  lemma {:induction false} LocateCut(b: Text, n: nat)
    requires n <= |b|
    ensures Locate(b[..n]) ==
      if Locate(b).Some? && Locate(b).value + |PREFIX| <= n then Locate(b) else None
  {
    hide Locate;
    var a := b[..n];
    assert a + b[n..] == b;
    if Locate(b).Some? && Locate(b).value + |PREFIX| <= n {
      var i := Locate(b).value;
      assert a[i..][..|PREFIX|] == b[i..][..|PREFIX|] == PREFIX;
      assert PREFIX <= a[i..];
    }
    if Locate(a).Some? {
      LocateMore(a, b[n..]);
      assert |a[Locate(a).value..]| >= |PREFIX|;
    }
  }

  // Where no message can be extracted yet, a cut is harmful exactly if it leaves noise of a stream
  // that is not invalid: more bytes than a prefix has, and no prefix among them.
  lemma {:induction false} CutBeforeMessage(b: Text, n: nat)
    requires n <= |b| && !Extract(b[..n]).0.MessageReady?
    ensures StopsAt([], b, n) <==> Extract(b).0.InvalidData? || n <= |PREFIX| || Locate(b[..n]).Some?
  {
    hide ExtractHere, Locate;
    var a := b[..n];
    assert [] + a == a && a + b[n..] == b;
    if Extract(a).0.InvalidData? {
      ExtractInvalidMore(a, b[n..]);
      if Locate(a).Some? {
        InvalidMore(a, b[n..]);
      }
    }
  }

  // A message at the front needs no more than its own bytes.
  lemma {:induction false} ReadyAlone(a: Text)
    requires PREFIX <= a && ExtractHere(a).0.MessageReady?
    ensures var wire := ExtractHere(a).0.wire;
      a == wire + ExtractHere(a).1 && PREFIX <= wire && ExtractHere(wire) == (MessageReady(wire), [])
  {
    hide ExtractHere, HeadReads;
    var e, length := ReadyHeadReads(a);
    var end := |PREFIX| + e + 1 + length;
    var wire := a[..end + 7];
    HeadReadsAlone(a, end + 7, e, length);
    assert wire[end..][..3] == a[end..][..3] == CHECKSUM_TAG;
    HeadReadsReady(wire, e, length);
    assert wire[..end + 7] == wire && wire[end + 7..] == [];
  }

  lemma {:induction false} HeadReadsAlone(a: Text, n: nat, e: nat, length: nat)
    requires HeadReads(a, e, length) && |PREFIX| + e < n <= |a|
    ensures HeadReads(a[..n], e, length)
  {
    hide ParseSize, Find;
    var at := |PREFIX|;
    var wire := a[..n];
    assert wire[at..] == a[at..][..n - at];
    FindAlone(SOH, a[at..], n - at);
    assert wire[at..][2..][..e - 2] == a[at..][2..][..e - 2];
    assert wire[at..][..2] == a[at..][..2] == LENGTH_TAG;
    assert wire[..at] == a[..at] == PREFIX;
  }

  lemma FindAlone(c: Octet, a: Text, n: nat)
    requires Find(c, a).Some? && Find(c, a).value < n <= |a|
    ensures Find(c, a[..n]) == Find(c, a)
  {
    hide Find;
    assert a[..n][Find(c, a).value] == c;
    assert forall i :: 0 <= i < n ==> a[..n][i] == a[i];
  }

  // Cut after the message it is extracted, cut before its last byte it is not.
  lemma {:induction false} ReadyCut(b: Text, n: nat)
    requires n <= |b| && Extract(b).0.MessageReady?
    ensures var (extracted, rest) := Extract(b);
      var end := |b| - |rest|;
      && 0 < end
      && (n < end ==> !Extract(b[..n]).0.MessageReady?)
      && (n >= end ==> Extract(b[..n]) == (extracted, rest[..n - end]) && b[n..] == rest[n - end..])
  {
    hide ExtractHere, Locate;
    ExtractShrinks(b);
    var g := Locate(b).value;
    var (extracted, rest) := Extract(b);
    ReadyAlone(b[g..]);
    var wire := extracted.wire;
    var end := |b| - |rest|;
    assert b[g..] == wire + rest;
    assert b[..n] + b[n..] == b;
    if n < end {
      if Extract(b[..n]).0.MessageReady? {
        ExtractReadyMore(b[..n], b[n..]);
      }
    } else {
      assert b[..n][g..] == wire + rest[..n - end];
      LocateCut(b, n);
      ReadyMore(wire, rest[..n - end]);
      assert [] + rest[..n - end] == rest[..n - end];
    }
  }

  lemma {:induction false} StopsAfterMessage(b: Text, n: nat)
    requires Extract(b).0.MessageReady? && |b| - |Extract(b).1| <= n <= |b|
    ensures StopsAt([], b, n) <==> StopsAt([], Extract(b).1, n - (|b| - |Extract(b).1|))
  {
    hide Extract;
    ReadyCut(b, n);
    var rest := Extract(b).1;
    var m := n - (|b| - |rest|);
    assert [] + b[..n] == b[..n] && [] + rest[..m] == rest[..m];
    assert Pull(b[..n]).left == Pull(rest[..m]).left && Pull(b[..n]).ok == Pull(rest[..m]).ok;
  }

  // With two bytes in the gap, the cut after eleven bytes finds only noise.
  lemma {:induction false} WideGapStops(b: Text)
    requires Locate(b).Some? && Locate(b).value > 1 && !Extract(b).0.InvalidData?
    ensures |b| > 11 && !StopsAt([], b, 11)
  {
    hide ExtractHere, Locate;
    assert |b[Locate(b).value..]| >= |PREFIX|;
    LocateCut(b, 11);
    CutBeforeMessage(b, 11);
  }

  // With less, no cut before the message finds noise.
  lemma {:induction false} NarrowGapGoesOn(b: Text, n: nat)
    requires n <= |b| && !Extract(b[..n]).0.MessageReady?
    requires Locate(b).Some? && Locate(b).value > 1 ==> Extract(b).0.InvalidData?
    ensures StopsAt([], b, n)
  {
    hide ExtractHere, Locate;
    LocateCut(b, n);
    CutBeforeMessage(b, n);
  }

  lemma {:induction false} CleanStops(b: Text)
    requires Clean(b)
    ensures StopsAnyway([], b)
    decreases |b|
  {
    hide Extract, Locate, StopsAt;
    var (extracted, rest) := Extract(b);
    if extracted.MessageReady? {
      ExtractShrinks(b);
      CleanStops(rest);
    }
    forall n | 0 <= n <= |b|
      ensures StopsAt([], b, n)
    {
      if Extract(b[..n]).0.MessageReady? {
        ReadyAgain(b, n);
        ReadyCut(b, n);
        StopsAfterMessage(b, n);
      } else {
        NarrowGapGoesOn(b, n);
      }
    }
  }

  lemma ReadyAgain(b: Text, n: nat)
    requires n <= |b| && Extract(b[..n]).0.MessageReady?
    ensures Extract(b).0.MessageReady?
  {
    hide Extract;
    ExtractReadyMore(b[..n], b[n..]);
    assert b[..n] + b[n..] == b;
  }

  lemma {:induction false} StopsMeansClean(b: Text)
    requires StopsAnyway([], b)
    ensures Clean(b)
    decreases |b|
  {
    hide Extract, Locate, StopsAt;
    var (extracted, rest) := Extract(b);
    if Locate(b).Some? && Locate(b).value > 1 && !extracted.InvalidData? {
      WideGapStops(b);
    }
    if extracted.MessageReady? {
      ExtractShrinks(b);
      forall n | 0 <= n <= |rest|
        ensures StopsAt([], rest, n)
      {
        StopsAfterMessage(b, n + |b| - |rest|);
      }
      StopsMeansClean(rest);
    }
  }

  /**
   Exactly when the cut does not matter: if and only if no message has more than one byte in front of
   its prefix, unless what stands there is invalid. Two bytes are enough: with nine of the prefix they
   are more than a prefix has, without a prefix among them.
   */
  lemma {:induction false} CutFreeExactly(stream: Text)
    ensures CutFree(stream) <==> Clean(stream)
  {
    hide Pull, Receive, StopsAt, Clean;
    if Clean(stream) {
      CleanStops(stream);
      NothingWaits();
      assert [] + stream == stream;
      forall chunks: seq<Text> | Concat(chunks) == stream
        ensures SameOutcome(Receive([], chunks), Pull(stream))
      {
        StopsAlike([], chunks);
      }
    }
    if CutFree(stream) {
      forall n | 0 <= n <= |stream|
        ensures StopsAt([], stream, n)
      {
        CutStops(stream, n);
      }
      StopsMeansClean(stream);
    }
  }

  lemma {:induction false} CutStops(stream: Text, n: nat)
    requires CutFree(stream) && n <= |stream|
    ensures StopsAt([], stream, n)
  {
    hide Pull, Extract;
    var a, b := stream[..n], stream[n..];
    assert [] + a == a && a + b == stream;
    if !Pull(a).ok {
      assert Concat([a, b]) == stream by { ConcatTwo(a, b); }
      assert Receive([], [a, b]) == Pull(a);
      PullOn(a, b);
      PullInvalid(Pull(a).left + b);
    }
  }

  // ---- Streams of encodings -------------------------------------------------------------------------

  function Encodings(messages: seq<seq<Field>>): seq<Text> {
    if messages == [] then [] else [Encoding(messages[0])] + Encodings(messages[1..])
  }

  // What a string can hold.
  predicate Small(fields: seq<Field>) {
    |Encoding(fields)| < SIZE_RANGE
  }

  predicate AllSmall(messages: seq<seq<Field>>) {
    forall i :: 0 <= i < |messages| ==> Small(messages[i])
  }

  lemma {:induction false} EncodingIsAssembled(fields: seq<Field>) returns (digits: Text, body: Text, check: Text)
    requires Small(fields)
    ensures |check| == 3 && AllDigits(digits) && ParseSize(digits) == Some(|body|)
    ensures Encoding(fields) == Assembled(digits, body, check)
    ensures 13 + |digits| + |body| + 7 < SIZE_RANGE
  {
    hide Decimal, ThreeDigits, Sum, Body;
    body := Body(fields);
    digits := Decimal(|body|);
    check := ThreeDigits(Sum(Head(|body|) + body) % 256);
    DecimalReads(|body|);
    ThreeOfThem(Sum(Head(|body|) + body) % 256);
    Layout(digits, body, check);
    assert Encoding(fields) == Assembled(digits, body, check);
  }

  // A whole encoding at the front of the buffer is extracted; a part of one waits for more.
  lemma {:induction false} AssembledExtracts(digits: Text, body: Text, check: Text, rest: Text)
    requires |check| == 3 && AllDigits(digits) && ParseSize(digits) == Some(|body|) && 13 + |digits| + |body| + 7 < SIZE_RANGE
    ensures var wire := Assembled(digits, body, check);
      Extract(wire + rest) == (MessageReady(wire), rest)
  {
    hide Assembled, ParseSize;
    var wire := Assembled(digits, body, check);
    Layout(digits, body, check);
    DigitsAreNotSoh(digits);
    HeadFound(wire + rest, digits);
    var end := 13 + |digits| + |body|;
    assert (wire + rest)[end..][..3] == wire[end..end + 3];
    assert (wire + rest)[..end + 7] == wire && (wire + rest)[end + 7..] == rest;
  }

  // The fixed start and the body length, as extraction sees them.
  lemma {:induction false} HeadFound(buffer: Text, digits: Text)
    requires |buffer| > 12 + |digits| && SOH !in digits
    requires buffer[..10] == PREFIX && buffer[10..12] == LENGTH_TAG && buffer[12..12 + |digits|] == digits && buffer[12 + |digits|] == SOH
    ensures PREFIX <= buffer && Locate(buffer) == Some(0) && buffer[0..] == buffer
    ensures LENGTH_TAG <= buffer[10..] && Find(SOH, buffer[10..]) == Some(2 + |digits|)
    ensures buffer[10..][2..][..|digits|] == digits
  {
    LocateHere(buffer);
    FirstSoh(buffer, 12 + |digits|);
    assert buffer[10..][..2] == LENGTH_TAG;
  }

  lemma {:induction false} PartWaits(digits: Text, body: Text, check: Text, n: nat)
    requires |check| == 3 && AllDigits(digits) && ParseSize(digits) == Some(|body|) && 13 + |digits| + |body| + 7 < SIZE_RANGE
    requires n < |Assembled(digits, body, check)|
    ensures Extract(Assembled(digits, body, check)[..n]) == (NeedMoreData, Assembled(digits, body, check)[..n])
  {
    hide Assembled, ParseSize;
    var wire := Assembled(digits, body, check);
    var part := wire[..n];
    Layout(digits, body, check);
    DigitsAreNotSoh(digits);
    if n < 10 {
      assert Locate(part).None?;
    } else {
      assert part[..10] == wire[..10];
      LocateHere(part);
      assert part[0..] == part;
      if n > 12 + |digits| {
        assert part[10..12] == wire[10..12] && part[12..12 + |digits|] == wire[12..12 + |digits|];
        HeadFound(part, digits);
      } else if n >= 12 {
        assert part[10..] == wire[10..n] && wire[10..n][..2] == wire[10..12];
        NoSohYet(wire, n);
      }
    }
  }

  lemma NoSohYet(wire: Text, n: nat)
    requires 12 <= n <= |wire| && wire[10..12] == LENGTH_TAG && SOH !in wire[12..n]
    ensures Find(SOH, wire[..n][10..]) == None
  {
    var part := wire[..n][10..];
    forall i | 0 <= i < |part|
      ensures part[i] != SOH
    {
      if i < 2 {
        assert part[i] == wire[10..12][i];
      } else {
        assert part[i] == wire[12..n][i - 2];
      }
    }
  }

  lemma {:induction false} EncodingExtracts(fields: seq<Field>, rest: Text)
    requires Small(fields)
    ensures Extract(Encoding(fields) + rest) == (MessageReady(Encoding(fields)), rest)
    ensures Pull(Encoding(fields) + rest) == Pulled([Encoding(fields)] + Pull(rest).wires, Pull(rest).left, Pull(rest).ok)
  {
    hide Encoding, Extract, Assembled;
    var digits, body, check := EncodingIsAssembled(fields);
    AssembledExtracts(digits, body, check, rest);
  }

  lemma {:induction false} PartOfEncodingWaits(fields: seq<Field>, n: nat)
    requires Small(fields) && n < |Encoding(fields)|
    ensures Pull(Encoding(fields)[..n]) == Pulled([], Encoding(fields)[..n], true)
  {
    hide Encoding, Extract, Assembled;
    var digits, body, check := EncodingIsAssembled(fields);
    PartWaits(digits, body, check, n);
  }

  lemma ConcatFirst(wire: Text, wires: seq<Text>)
    ensures Concat([wire] + wires) == wire + Concat(wires)
  {
    assert ([wire] + wires)[1..] == wires;
  }

  lemma FirstOfStream(messages: seq<seq<Field>>, part: Text)
    ensures messages == [] ==> Encodings(messages) == [] && Concat(Encodings(messages)) + part == part
    ensures messages != [] ==>
      && Encodings(messages) == [Encoding(messages[0])] + Encodings(messages[1..])
      && Concat(Encodings(messages)) + part == Encoding(messages[0]) + (Concat(Encodings(messages[1..])) + part)
  {
    hide Encoding, Concat;
    if messages == [] {
      NothingConcatenated();
    } else {
      var rest := Encodings(messages[1..]);
      ConcatFirst(Encoding(messages[0]), rest);
      Reassociate(Encoding(messages[0]), Concat(rest), part);
    }
  }

  lemma NothingConcatenated()
    ensures Concat<Octet>([]) == []
  {
  }

  lemma Reassociate(a: Text, b: Text, c: Text)
    ensures a + b + c == a + (b + c)
  {
  }

  // Encodings one after another, and the beginning of one more.
  lemma {:induction false} StreamIsPulled(messages: seq<seq<Field>>, last: seq<Field>, k: nat)
    requires AllSmall(messages) && Small(last) && k < |Encoding(last)|
    ensures Pull(Concat(Encodings(messages)) + Encoding(last)[..k]) == Pulled(Encodings(messages), Encoding(last)[..k], true)
  {
    hide Encoding, Pull, Small, Concat, Encodings;
    var part := Encoding(last)[..k];
    FirstOfStream(messages, part);
    if messages == [] {
      PartOfEncodingWaits(last, k);
    } else {
      StreamIsPulled(messages[1..], last, k);
      EncodingExtracts(messages[0], Concat(Encodings(messages[1..])) + part);
    }
  }

  lemma {:induction false} StreamIsNeverInvalid(messages: seq<seq<Field>>, last: seq<Field>, k: nat, n: nat)
    requires AllSmall(messages) && Small(last) && k < |Encoding(last)|
    requires n <= |Concat(Encodings(messages)) + Encoding(last)[..k]|
    ensures Pull((Concat(Encodings(messages)) + Encoding(last)[..k])[..n]).ok
  {
    hide Encoding, Pull, Concat, Encodings;
    var part := Encoding(last)[..k];
    FirstOfStream(messages, part);
    if messages == [] {
      assert part[..n] == Encoding(last)[..n];
      PartOfEncodingWaits(last, n);
    } else {
      var wire := Encoding(messages[0]);
      var rest := Concat(Encodings(messages[1..])) + part;
      if n < |wire| {
        assert (wire + rest)[..n] == wire[..n];
        PartOfEncodingWaits(messages[0], n);
      } else {
        StreamIsNeverInvalid(messages[1..], last, k, n - |wire|);
        EncodingExtracts(messages[0], rest[..n - |wire|]);
        assert (wire + rest)[..n] == wire + rest[..n - |wire|];
      }
    }
  }

  /**
   A stream of encodings with an unfinished one at its end, cut into any chunks: exactly the
   encodings are pulled out, in order, and exactly the unfinished bytes are left.
   */
  lemma {:induction false} StreamRoundTrip(messages: seq<seq<Field>>, last: seq<Field>, k: nat, chunks: seq<Text>)
    requires AllSmall(messages) && Small(last) && k < |Encoding(last)|
    requires Concat(chunks) == Concat(Encodings(messages)) + Encoding(last)[..k]
    ensures Receive([], chunks) == Pulled(Encodings(messages), Encoding(last)[..k], true)
  {
    hide Encoding, Pull, Receive;
    var stream := Concat(chunks);
    forall n | 0 <= n <= |stream|
      ensures Pull([] + stream[..n]).ok
    {
      StreamIsNeverInvalid(messages, last, k, n);
      assert [] + stream[..n] == stream[..n];
    }
    NothingWaits();
    ChunksDoNotMatter([], chunks);
    assert [] + stream == stream;
    StreamIsPulled(messages, last, k);
  }

  lemma {:induction false} NoiseSkipped(noise: Text, wire: Text)
    requires PREFIX[0] !in noise && PREFIX <= wire
    ensures Locate(noise + wire) == Some(|noise|) && (noise + wire)[|noise|..] == wire
  {
    if noise == [] {
      assert noise + wire == wire;
    } else {
      assert (noise + wire)[0] == noise[0] != PREFIX[0];
      assert (noise + wire)[1..] == noise[1..] + wire;
      NoiseSkipped(noise[1..], wire);
    }
  }

  /**
   Noise in front of a message: the message is extracted from what arrives in one piece, but with two
   bytes of noise or more the cut after eleven bytes ends the session before it is seen.
   */
  lemma {:induction false} NoiseMatters(noise: Text, fields: seq<Field>)
    requires PREFIX[0] !in noise && Small(fields)
    ensures var stream := noise + Encoding(fields);
      && (CutFree(stream) <==> |noise| <= 1)
      && Receive([], [stream]).wires == [Encoding(fields)]
      && (|noise| > 1 ==> |stream| > 11 && Receive([], [stream[..11], stream[11..]]) == Pulled([], stream[..11], false))
  {
    hide Encoding, ExtractHere, Locate, CutFree, Pull, Concat;
    var wire := Encoding(fields);
    var stream := noise + wire;
    EncodingStarts(fields);
    NoiseSkipped(noise, wire);
    NoiseThenMessage(noise, fields);
    CutFreeExactly(stream);
    NothingIsClean();
    if |noise| > 1 {
      LocateCut(stream, 11);
      var first := stream[..11];
      NoisePulled(first);
      assert [] + first == first;
    }
  }

  lemma NoisePulled(noise: Text)
    requires |noise| > |PREFIX| && Locate(noise) == None
    ensures Pull(noise) == Pulled([], noise, false)
  {
    hide Locate;
  }

  lemma NothingIsClean()
    ensures Clean([])
  {
  }

  lemma {:induction false} NoiseThenMessage(noise: Text, fields: seq<Field>)
    requires PREFIX[0] !in noise && Small(fields)
    ensures Extract(noise + Encoding(fields)) == (MessageReady(Encoding(fields)), [])
    ensures Receive([], [noise + Encoding(fields)]).wires == [Encoding(fields)]
  {
    hide Encoding, ExtractHere, Locate;
    var wire := Encoding(fields);
    var none: seq<Text> := [];
    EncodingStarts(fields);
    NoiseSkipped(noise, wire);
    LocateHere(wire);
    assert wire[0..] == wire && wire + [] == wire;
    EncodingExtracts(fields, []);
    SamePull(noise + wire, wire);
    NothingWaits();
    assert [noise + wire][1..] == none && [] + (noise + wire) == noise + wire;
    assert Receive([], [noise + wire]).wires == [wire] + Receive(Pull(noise + wire).left, none).wires;
  }

  lemma {:induction false} EncodingStarts(fields: seq<Field>)
    requires Small(fields)
    ensures PREFIX <= Encoding(fields)
  {
    hide Encoding, Extract, Assembled;
    var digits, body, check := EncodingIsAssembled(fields);
    Layout(digits, body, check);
    assert Encoding(fields)[..10] == PREFIX;
  }

  lemma NothingWaits()
    ensures Pull([]) == Pulled([], [], true)
  {
  }
}
