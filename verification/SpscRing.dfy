/**
 The single-producer single-consumer ring as a machine: every step is one access by one thread to
 memory the other may be using, and a run is any interleaving of such steps, under sequential
 consistency. Positions are 64-bit words that wrap.
 */
module SpscRings {
  import opened ExchangeTypes
  import opened RingPositions

  // Where a producer's call stands: about to reload the read position, filling the slot, or about
  // to publish it.
  datatype Producer<T> = Outside | Refreshing(value: T) | Filling(value: T) | Publishing(value: T)

  // Where a consumer's call stands: about to reload the write position, in the slot, or done with it.
  datatype Consumer<T> = Away | Reloading | Reading | Releasing(seen: Option<T>)

  // The shared words, both caches, the slots (None while being filled), and what has gone in and out.
  datatype Ring<T> = Ring(
    slots: seq<Option<T>>,
    write: nat,
    cachedRead: nat,
    read: nat,
    cachedWrite: nat,
    producer: Producer<T>,
    consumer: Consumer<T>,
    pushed: seq<T>,
    popped: seq<Option<T>>,
    readSeen: nat,    // the position the cached read position stands for
    writeSeen: nat)   // the position the cached write position stands for

  datatype Action<T> = Produce(value: T) | Consume

  function Empty<T>(c: nat): Ring<T> {
    Ring(seq(c, _ => None), 0, 0, 0, 0, Outside, Away, [], [], 0, 0)
  }

  function Apart(later: nat, earlier: nat): nat {
    ((later as int) - earlier) % WORD
  }

  // Claim the slot: until it is filled again it holds nothing a reader could use.
  function Claim<T>(c: nat, s: Ring<T>, value: T): Ring<T>
    requires c > 0 && |s.slots| == c
  {
    s.(slots := s.slots[Slot(s.write, c) := None], producer := Filling(value))
  }

  // One step of try_emplace; a call is given its value when it begins.
  function ProducerStep<T>(c: nat, s: Ring<T>, value: T): Ring<T>
    requires c > 0 && |s.slots| == c
  {
    match s.producer
    case Outside =>
      if Apart(s.write, s.cachedRead) >= c then s.(producer := Refreshing(value)) else Claim(c, s, value)
    case Refreshing(v) =>
      var s' := s.(cachedRead := s.read, readSeen := |s.popped|);
      if Apart(s'.write, s'.cachedRead) >= c then s'.(producer := Outside) else Claim(c, s', v)
    case Filling(v) =>
      s.(slots := s.slots[Slot(s.write, c) := Some(v)], producer := Publishing(v))
    case Publishing(v) =>
      s.(write := (s.write + 1) % WORD, pushed := s.pushed + [v], producer := Outside)
  }

  // One step of try_consume.
  function ConsumerStep<T>(c: nat, s: Ring<T>): Ring<T>
    requires c > 0 && |s.slots| == c
  {
    match s.consumer
    case Away =>
      if s.read == s.cachedWrite then s.(consumer := Reloading) else s.(consumer := Reading)
    case Reloading =>
      var s' := s.(cachedWrite := s.write, writeSeen := |s.pushed|);
      if s'.read == s'.cachedWrite then s'.(consumer := Away) else s'.(consumer := Reading)
    case Reading =>
      s.(consumer := Releasing(s.slots[Slot(s.read, c)]))
    case Releasing(seen) =>
      s.(read := (s.read + 1) % WORD, popped := s.popped + [seen], consumer := Away)
  }

  function Do<T>(c: nat, s: Ring<T>, action: Action<T>): (s': Ring<T>)
    requires c > 0 && |s.slots| == c
    ensures |s'.slots| == c
  {
    match action
    case Produce(value) => ProducerStep(c, s, value)
    case Consume => ConsumerStep(c, s)
  }

  function Run<T>(c: nat, s: Ring<T>, actions: seq<Action<T>>): (s': Ring<T>)
    requires c > 0 && |s.slots| == c
    ensures |s'.slots| == c
    decreases |actions|
  {
    if actions == [] then s else Run(c, Do(c, s, actions[0]), actions[1..])
  }

  // ---- The invariant ----------------------------------------------------------------------------

  // The words are the wrapped images of positions that are in order and within a capacity.
  predicate Positions<T>(c: nat, s: Ring<T>) {
    && s.readSeen <= |s.popped| <= s.writeSeen <= |s.pushed| <= s.readSeen + c
    && s.write == |s.pushed| % WORD && s.read == |s.popped| % WORD
    && s.cachedRead == s.readSeen % WORD && s.cachedWrite == s.writeSeen % WORD
  }

  // What is between the positions is in the slots; what went out is what went in.
  ghost predicate Contents<T>(c: nat, s: Ring<T>)
    requires c > 0
  {
    && |s.slots| == c
    && (forall k :: |s.popped| <= k < |s.pushed| ==> s.slots[Slot(k, c)] == Some(s.pushed[k]))
    && (|s.popped| <= |s.pushed|)
    && (forall k :: 0 <= k < |s.popped| ==> s.popped[k] == Some(s.pushed[k]))
  }

  // What each thread knows in the middle of a call.
  ghost predicate Calls<T>(c: nat, s: Ring<T>)
    requires c > 0 && |s.slots| == c
  {
    && (s.producer.Filling? || s.producer.Publishing? ==> |s.pushed| < s.readSeen + c)
    && (s.producer.Publishing? ==> s.slots[Slot(|s.pushed|, c)] == Some(s.producer.value))
    && (s.consumer.Reading? || s.consumer.Releasing? ==> |s.popped| < s.writeSeen)
    && (s.consumer.Releasing? ==> |s.popped| < |s.pushed| && s.consumer.seen == Some(s.pushed[|s.popped|]))
  }

  ghost predicate Sound<T>(c: nat, s: Ring<T>) {
    IsCapacity(c) && c > 0 && Positions(c, s) && Contents(c, s) && Calls(c, s)
  }

  // The queue the ring stands for.
  function Queue<T>(s: Ring<T>): seq<T>
    requires |s.popped| <= |s.pushed|
  {
    s.pushed[|s.popped|..]
  }

  // What the wrapped arithmetic of the two calls works out to.
  lemma {:induction false} WordsMean<T>(c: nat, s: Ring<T>)
    requires IsCapacity(c) && c > 0 && Positions(c, s)
    ensures Apart(s.write, s.cachedRead) == |s.pushed| - s.readSeen
    ensures Apart(s.write, s.read) == |s.pushed| - |s.popped|
    ensures s.read == s.cachedWrite <==> |s.popped| == s.writeSeen
    ensures s.read == s.write <==> |s.popped| == |s.pushed|
    ensures Slot(s.write, c) == Slot(|s.pushed|, c) && Slot(s.read, c) == Slot(|s.popped|, c)
    ensures (s.write + 1) % WORD == (|s.pushed| + 1) % WORD && (s.read + 1) % WORD == (|s.popped| + 1) % WORD
  {
    hide Pow2, IsCapacity;
    CapacityFitsWord(c);
    PositionMeans(|s.pushed|, s.readSeen, c);
    PositionMeans(|s.pushed|, |s.popped|, c);
    PositionMeans(s.writeSeen, |s.popped|, c);
  }

  lemma PositionMeans(a: nat, b: nat, c: nat)
    requires IsCapacity(c) && c > 0 && b <= a <= b + c && c < WORD
    ensures Apart(a % WORD, b % WORD) == a - b
    ensures a % WORD == b % WORD <==> a == b
    ensures Slot(a % WORD, c) == Slot(a, c) && Slot(b % WORD, c) == Slot(b, c)
    ensures (a % WORD + 1) % WORD == (a + 1) % WORD && (b % WORD + 1) % WORD == (b + 1) % WORD
  {
    WrappedDistance(a, b);
    WrappedEqual(a, b);
    WrappedSlot(a, c);
    WrappedSlot(b, c);
    WrappedNext(a);
    WrappedNext(b);
  }

  // Claiming or filling the slot at the write position disturbs nothing that is queued.
  lemma {:induction false} SlotIsFree<T>(c: nat, s: Ring<T>, slot: Option<T>)
    requires c > 0 && Contents(c, s) && |s.pushed| < |s.popped| + c
    ensures Contents(c, s.(slots := s.slots[Slot(|s.pushed|, c) := slot]))
  {
    forall k | |s.popped| <= k < |s.pushed|
      ensures Slot(k, c) != Slot(|s.pushed|, c)
    {
      SlotsDiffer(|s.pushed|, k, c);
    }
  }

  lemma {:induction false} ProducerKeepsSound<T>(c: nat, s: Ring<T>, value: T)
    requires Sound(c, s)
    ensures Sound(c, ProducerStep(c, s, value))
  {
    hide Slot, IsCapacity;
    WordsMean(c, s);
    var s' := ProducerStep(c, s, value);
    match s.producer
    case Outside =>
      if s'.producer.Filling? { SlotIsFree(c, s, None); }
    case Refreshing(v) =>
      var reloaded := s.(cachedRead := s.read, readSeen := |s.popped|);
      WordsMean(c, reloaded);
      if s'.producer.Filling? { SlotIsFree(c, reloaded, None); }
    case Filling(v) =>
      SlotIsFree(c, s, Some(v));
    case Publishing(v) =>
  }

  lemma SlotsStayApart<T>(c: nat, s: Ring<T>)
    requires c > 0 && |s.popped| < |s.pushed| < |s.popped| + c
    ensures Slot(|s.pushed|, c) != Slot(|s.popped|, c)
  {
    SlotsDiffer(|s.pushed|, |s.popped|, c);
  }

  lemma {:induction false} ConsumerKeepsSound<T>(c: nat, s: Ring<T>)
    requires Sound(c, s)
    ensures Sound(c, ConsumerStep(c, s))
  {
    hide Slot, IsCapacity;
    WordsMean(c, s);
  }

  /** Every interleaving, of any length: the invariant holds throughout. */
  lemma {:induction false} RunKeepsSound<T>(c: nat, s: Ring<T>, actions: seq<Action<T>>)
    requires Sound(c, s)
    ensures Sound(c, Run(c, s, actions))
    decreases |actions|
  {
    if actions != [] {
      match actions[0] {
        case Produce(value) => ProducerKeepsSound(c, s, value);
        case Consume => ConsumerKeepsSound(c, s);
      }
      RunKeepsSound(c, Do(c, s, actions[0]), actions[1..]);
    }
  }

  lemma {:induction false} EmptyIsSound<T>(c: nat)
    requires IsCapacity(c)
    ensures c > 0 && Sound(c, Empty<T>(c))
  {
    CapacityFitsWord(c);
  }

  // ---- What it means --------------------------------------------------------------------------------

  /**
   First in, first out, nothing torn, lost or invented, and never more than the capacity: what the
   consumer has read is a prefix of what the producer has published.
   */
  lemma {:induction false} EveryRunIsFifo<T>(c: nat, actions: seq<Action<T>>)
    requires IsCapacity(c)
    ensures c > 0
    ensures var s := Run(c, Empty<T>(c), actions);
      && |s.popped| <= |s.pushed| <= |s.popped| + c
      && forall k :: 0 <= k < |s.popped| ==> s.popped[k] == Some(s.pushed[k])
  {
    EmptyIsSound<T>(c);
    RunKeepsSound(c, Empty<T>(c), actions);
  }

  /** Each step leaves the queue alone, appends one value while there is room, or takes its head. */
  lemma {:induction false} StepIsQueueStep<T>(c: nat, s: Ring<T>, action: Action<T>)
    requires Sound(c, s)
    ensures var s' := Do(c, s, action);
      && |s'.popped| <= |s'.pushed|
      && (|| (Queue(s') == Queue(s) && s'.popped == s.popped)
          || (s.producer.Publishing? && |Queue(s)| < c && Queue(s') == Queue(s) + [s.producer.value] && s'.popped == s.popped)
          || (Queue(s) != [] && Queue(s') == Queue(s)[1..] && s'.popped == s.popped + [Some(Queue(s)[0])]))
  {
  }

  /** A push is refused exactly when the queue is full at the moment the read position is loaded. */
  lemma {:induction false} RefusedMeansFull<T>(c: nat, s: Ring<T>, value: T)
    requires Sound(c, s) && s.producer.Refreshing?
    ensures ProducerStep(c, s, value).producer.Outside? <==> |Queue(s)| == c
  {
    WordsMean(c, s.(cachedRead := s.read, readSeen := |s.popped|));
  }

  /** A pop comes back empty exactly when the queue is empty at the moment the write position is loaded. */
  lemma {:induction false} NothingMeansEmpty<T>(c: nat, s: Ring<T>)
    requires Sound(c, s) && s.consumer.Reloading?
    ensures ConsumerStep(c, s).consumer.Away? <==> Queue(s) == []
  {
    WordsMean(c, s);
  }

  /** The two threads are never in the same slot. */
  lemma {:induction false} NeverInTheSameSlot<T>(c: nat, s: Ring<T>)
    requires Sound(c, s)
    requires s.producer.Filling? || s.producer.Publishing?
    requires s.consumer.Reading? || s.consumer.Releasing?
    ensures Slot(s.write, c) != Slot(s.read, c)
  {
    WordsMean(c, s);
    SlotsStayApart(c, s);
  }

  // ---- Looking at the size ------------------------------------------------------------------------

  // size_approx loads the write position in one state and the read position in a later one.
  function SizeApprox<T>(c: nat, before: Ring<T>, after: Ring<T>): nat {
    var difference := Apart(before.write, after.read);
    if difference > c then c else difference
  }

  /**
   Asked by the consumer, which is not popping meanwhile, the size is the size at the first load;
   so an empty answer means the ring was empty then.
   */
  lemma {:induction false} SizeForTheConsumer<T>(c: nat, before: Ring<T>, after: Ring<T>)
    requires Sound(c, before) && Sound(c, after) && after.popped == before.popped
    ensures SizeApprox(c, before, after) == |Queue(before)|
  {
    CapacityFitsWord(c);
    WordsMean(c, before);
    WordsMean(c, after);
  }

  /**
   Asked by anyone, with pops and pushes between the two loads: what had been pushed at the first and
   not popped at the second, or the capacity if the reader has overtaken that position by then.
   */
  lemma {:induction false} SizeForAnyone<T>(c: nat, before: Ring<T>, after: Ring<T>)
    requires Sound(c, before) && Sound(c, after) && |before.popped| <= |after.popped| < |before.pushed| + WORD - c
    ensures SizeApprox(c, before, after) ==
      if |after.popped| <= |before.pushed| then |before.pushed| - |after.popped| else c
  {
    CapacityFitsWord(c);
    if |after.popped| <= |before.pushed| {
      WrappedDistance(|before.pushed|, |after.popped|);
    } else {
      WrappedBackwards(|before.pushed|, |after.popped|);
    }
  }

  // ---- The calls run alone --------------------------------------------------------------------------

  // All the steps of one try_emplace, nobody interfering.
  function PushAlone<T>(c: nat, s: Ring<T>, value: T): Ring<T>
    requires c > 0 && |s.slots| == c && s.producer.Outside?
  {
    var begun := ProducerStep(c, s, value);
    var checked := if begun.producer.Refreshing? then ProducerStep(c, begun, value) else begun;
    if checked.producer.Outside? then checked
    else ProducerStep(c, ProducerStep(c, checked, value), value)
  }

  function PopAlone<T>(c: nat, s: Ring<T>): Ring<T>
    requires c > 0 && |s.slots| == c && s.consumer.Away?
  {
    var begun := ConsumerStep(c, s);
    var checked := if begun.consumer.Reloading? then ConsumerStep(c, begun) else begun;
    if checked.consumer.Away? then checked
    else ConsumerStep(c, ConsumerStep(c, checked))
  }

  lemma {:induction false} PushAloneMeans<T>(c: nat, s: Ring<T>, value: T)
    requires Sound(c, s) && s.producer.Outside?
    ensures var s' := PushAlone(c, s, value);
      && Sound(c, s') && s'.producer.Outside? && s'.consumer == s.consumer
      && Queue(s') == if |Queue(s)| < c then Queue(s) + [value] else Queue(s)
  {
    hide Sound, ProducerStep;
    PushStep(c, s, value);
    var begun := ProducerStep(c, s, value);
    if begun.producer.Refreshing? {
      PushStep(c, begun, value);
    }
    var checked := if begun.producer.Refreshing? then ProducerStep(c, begun, value) else begun;
    if !checked.producer.Outside? {
      PushStep(c, checked, value);
      PushStep(c, ProducerStep(c, checked, value), value);
    }
  }

  // One producer step, told apart by where the call stands.
  lemma {:induction false} PushStep<T>(c: nat, s: Ring<T>, value: T)
    requires Sound(c, s)
    ensures |s.slots| == c > 0 && |s.popped| <= |s.pushed| && |Queue(s)| <= c
    ensures var s' := ProducerStep(c, s, value);
      && Sound(c, s') && |s'.slots| == c && |s'.popped| <= |s'.pushed| && s'.consumer == s.consumer
      && match s.producer {
           case Outside => Queue(s') == Queue(s) && (s'.producer == Refreshing(value) || (s'.producer == Filling(value) && |Queue(s)| < c))
           case Refreshing(v) => Queue(s') == Queue(s) && s'.producer == if |Queue(s)| < c then Filling(v) else Outside
           case Filling(v) => Queue(s') == Queue(s) && s'.producer == Publishing(v)
           case Publishing(v) => Queue(s') == Queue(s) + [v] && s'.producer == Outside
         }
  {
    hide Slot, IsCapacity, Pow2;
    ProducerKeepsSound(c, s, value);
    WordsMean(c, s);
    if s.producer.Refreshing? {
      RefusedMeansFull(c, s, value);
    }
  }

  lemma {:induction false} PopAloneMeans<T>(c: nat, s: Ring<T>)
    requires Sound(c, s) && s.consumer.Away?
    ensures var s' := PopAlone(c, s);
      && Sound(c, s') && s'.consumer.Away? && s'.producer == s.producer
      && (if Queue(s) == [] then Queue(s') == [] && s'.popped == s.popped
          else Queue(s') == Queue(s)[1..] && s'.popped == s.popped + [Some(Queue(s)[0])])
  {
    hide Sound, ConsumerStep;
    PopStep(c, s);
    var begun := ConsumerStep(c, s);
    if begun.consumer.Reloading? {
      PopStep(c, begun);
    }
    var checked := if begun.consumer.Reloading? then ConsumerStep(c, begun) else begun;
    if !checked.consumer.Away? {
      PopStep(c, checked);
      PopStep(c, ConsumerStep(c, checked));
    }
  }

  lemma {:induction false} PopStep<T>(c: nat, s: Ring<T>)
    requires Sound(c, s)
    ensures |s.slots| == c > 0 && |s.popped| <= |s.pushed|
    ensures var s' := ConsumerStep(c, s);
      && Sound(c, s') && |s'.slots| == c && |s'.popped| <= |s'.pushed| && s'.producer == s.producer
      && match s.consumer {
           case Away => Queue(s') == Queue(s) && s'.popped == s.popped && (s'.consumer == Reloading || (s'.consumer == Reading && Queue(s) != []))
           case Reloading => Queue(s') == Queue(s) && s'.popped == s.popped && s'.consumer == if Queue(s) != [] then Reading else Away
           case Reading => Queue(s) != [] && Queue(s') == Queue(s) && s'.popped == s.popped && s'.consumer == Releasing(Some(Queue(s)[0]))
           case Releasing(seen) => Queue(s) != [] && Queue(s') == Queue(s)[1..] && s'.popped == s.popped + [seen] && s'.consumer == Away
         }
  {
    hide Slot, IsCapacity, Pow2;
    ConsumerKeepsSound(c, s);
    WordsMean(c, s);
    if s.consumer.Reloading? {
      NothingMeansEmpty(c, s);
    }
  }

  /** The ring itself. Each method, run alone, takes the steps of the machine. */
  class SpscRing<T(0)> {
    const capacity: nat
    const slots: array<T>
    var writePosition: nat
    var cachedReadPosition: nat
    var readPosition: nat
    var cachedWritePosition: nat
    ghost var pushed: seq<T>
    ghost var popped: seq<Option<T>>
    ghost var readSeen: nat
    ghost var writeSeen: nat

    ghost function Picture(): (s: Ring<T>)
      reads this, slots
      ensures |s.slots| == slots.Length
    {
      Ring(seq(slots.Length, i requires 0 <= i < slots.Length reads this, slots => Some(slots[i])),
           writePosition, cachedReadPosition, readPosition, cachedWritePosition,
           Outside, Away, pushed, popped, readSeen, writeSeen)
    }

    ghost predicate Valid()
      reads this, slots
    {
      slots.Length == capacity && Sound(capacity, Picture())
    }

    ghost function Contents(): seq<T>
      requires Valid()
      reads this, slots
    {
      Queue(Picture())
    }

    constructor (capacity: nat)
      requires IsCapacity(capacity)
      ensures Valid() && this.capacity == capacity && fresh(slots) && Contents() == []
    {
      CapacityFitsWord(capacity);
      this.capacity := capacity;
      slots := new T[capacity];
      writePosition, cachedReadPosition, readPosition, cachedWritePosition := 0, 0, 0, 0;
      pushed, popped, readSeen, writeSeen := [], [], 0, 0;
    }

    method Reset()
      requires Valid()
      modifies this
      ensures Valid() && Contents() == []
    {
      CapacityFitsWord(capacity);
      writePosition, readPosition := 0, 0;
      cachedReadPosition, cachedWritePosition := 0, 0;
      pushed, popped, readSeen, writeSeen := [], [], 0, 0;
    }

    method TryPush(value: T) returns (accepted: bool)
      requires Valid()
      modifies this, slots
      ensures Valid() && Picture() == PushAlone(capacity, old(Picture()), value)
      ensures accepted <==> |old(Contents())| < capacity
      ensures Contents() == if accepted then old(Contents()) + [value] else old(Contents())
    {
      hide Sound, Slot;
      ghost var before := Picture();
      PushAloneMeans(capacity, before, value);
      PushStep(capacity, before, value);
      if Apart(writePosition, cachedReadPosition) >= capacity {
        PushStep(capacity, ProducerStep(capacity, before, value), value);
        cachedReadPosition := readPosition;
        readSeen := |popped|;
        if Apart(writePosition, cachedReadPosition) >= capacity {
          assert Picture() == PushAlone(capacity, before, value);
          return false;
        }
      }
      slots[Slot(writePosition, capacity)] := value;
      pushed := pushed + [value];
      writePosition := (writePosition + 1) % WORD;
      assert Picture().slots == PushAlone(capacity, before, value).slots;
      return true;
    }

    method TryPop() returns (value: Option<T>)
      requires Valid()
      modifies this
      ensures Valid() && Picture() == PopAlone(capacity, old(Picture()))
      ensures value == if old(Contents()) == [] then None else Some(old(Contents())[0])
      ensures Contents() == if old(Contents()) == [] then [] else old(Contents())[1..]
    {
      hide Sound, Queue, Slot;
      ghost var before := Picture();
      PopAloneMeans(capacity, before);
      PopStep(capacity, before);
      ghost var checked := ConsumerStep(capacity, before);
      if readPosition == cachedWritePosition {
        PopStep(capacity, checked);
        checked := ConsumerStep(capacity, checked);
        cachedWritePosition := writePosition;
        writeSeen := |pushed|;
        if readPosition == cachedWritePosition {
          assert Picture() == PopAlone(capacity, before);
          return None;
        }
      }
      assert Picture() == checked.(consumer := Away) && checked.consumer.Reading?;
      PopStep(capacity, checked);
      value := Some(slots[Slot(readPosition, capacity)]);
      popped := popped + [value];
      readPosition := (readPosition + 1) % WORD;
      assert Picture() == PopAlone(capacity, before);
    }

    method SizeApprox() returns (size: nat)
      requires Valid()
      ensures size == |Contents()|
    {
      SizeForTheConsumer(capacity, Picture(), Picture());
      var difference := Apart(writePosition, readPosition);
      size := if difference > capacity then capacity else difference;
    }
  }
}
