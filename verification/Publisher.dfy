/**
 The multicast publisher as a machine: sender threads with a queue each, one publisher thread that
 drains the queues round-robin and sleeps when there is nothing to do, and one call of stop. Every
 step is one access to shared memory, and a run is any interleaving, under sequential consistency.
 A queue is the bounded FIFO that SpscRings shows each ring to be.
 */
module Publishers {
  import opened ExchangeTypes
  import Wire

  type Datagram = seq<Wire.Byte>
  type Thread = nat

  const SHARDS: nat := 256
  const QUEUE_CAPACITY: nat := 32
  const MAXIMUM_DATAGRAM_SIZE: nat := 512

  // What has gone into a shard's queue, how much of it has been taken out, and the sender's flag.
  datatype Shard = Shard(pushed: seq<Datagram>, taken: nat, active: bool)
  const NEW_SHARD := Shard([], 0, false)

  // Where a call of send stands: it loads the generation, draws a shard if the thread has none for
  // that generation, and from then on works on the thread's shard.
  datatype SenderAt =
    | Idle
    | Registering
    | Drawing(generation: nat)
    | Activating(shard: nat)
    | Rechecking(shard: nat)
    | Withdrawing(shard: nat)
    | Pushing(shard: nat)
    | Deactivating(shard: nat, queued: bool)
    | Testing(shard: nat)
    | Setting(shard: nat)
    | Notifying(shard: nat)

  datatype Registration = Registration(generation: nat, shard: nat)

  // A thread: its thread-local registration, its current call, and the datagrams its calls since
  // registering have returned true for.
  datatype Sender = Sender(registered: Option<Registration>, at: SenderAt, datagram: Datagram, accepted: seq<Datagram>)
  const NEW_SENDER := Sender(None, Idle, [], [])

  datatype ConsumerAt =
    | Scanning(offset: nat)
    | Scanned
    | CheckingQueues(next: nat)
    | CheckingSenders(next: nat)
    | Arming
    | Rescanning(next: nat)
    | RecheckingRunning
    | Waiting
    | Asleep
    | Finished

  datatype StopperAt = NotStopping | SettingFlag | NotifyingAll | Joining

  datatype Publisher = Publisher(
    running: bool,
    wake: bool,
    generation: nat,
    nextShard: nat,
    shards: seq<Shard>,
    senders: map<Thread, Sender>,
    consumer: ConsumerAt,
    cursor: nat,
    log: seq<(nat, Datagram)>,      // what was sent on, with the shard it came from
    stopper: StopperAt,
    atStop: seq<seq<Datagram>>)     // what each shard had been given when stop began

  datatype Action = Send(thread: Thread, datagram: Datagram) | Publish | Stop | Start

  // ---- Steps ---------------------------------------------------------------------------------------

  function SenderOf(s: Publisher, t: Thread): Sender {
    if t in s.senders then s.senders[t] else NEW_SENDER
  }

  predicate HasWork(shard: Shard) {
    |shard.pushed| > shard.taken
  }

  function Woken(s: Publisher): Publisher {
    if s.consumer.Asleep? then s.(consumer := Waiting) else s
  }

  // The call returns true.
  function Returned(me: Sender): Sender {
    me.(at := Idle, accepted := me.accepted + [me.datagram])
  }

  // What one step does to the thread, its shard, the wake flag and the shard counter.
  datatype Move = Move(me: Sender, mine: Shard, wake: bool, nextShard: nat)

  // The load of the generation: a registration made in it is used again.
  function Register(s: Publisher, me: Sender): SenderAt {
    if me.registered.Some? && me.registered.value.generation == s.generation
    then Activating(me.registered.value.shard) else Drawing(s.generation)
  }

  // The draw: the next shard number, which may be one too many.
  function Draw(s: Publisher, me: Sender, mine: Shard, generation: nat): Move {
    if s.nextShard >= SHARDS then Move(me.(at := Idle), mine, s.wake, s.nextShard + 1)
    else
      Move(me.(registered := Some(Registration(generation, s.nextShard)), at := Activating(s.nextShard), accepted := []),
           mine, s.wake, s.nextShard + 1)
  }

  function SenderMove(s: Publisher, me: Sender, mine: Shard, datagram: Datagram): Move {
    match me.at
    case Idle =>
      var begins := s.running && 0 < |datagram| <= MAXIMUM_DATAGRAM_SIZE;
      Move(if begins then me.(at := Registering, datagram := datagram) else me, mine, s.wake, s.nextShard)
    case Registering => Move(me.(at := Register(s, me)), mine, s.wake, s.nextShard)
    case Drawing(generation) => Draw(s, me, mine, generation)
    case Activating(k) => Move(me.(at := Rechecking(k)), mine.(active := true), s.wake, s.nextShard)
    case Rechecking(k) => Move(me.(at := if s.running then Pushing(k) else Withdrawing(k)), mine, s.wake, s.nextShard)
    case Withdrawing(k) => Move(me.(at := Idle), mine.(active := false), s.wake, s.nextShard)
    case Pushing(k) =>
      if |mine.pushed| - mine.taken < QUEUE_CAPACITY
      then Move(me.(at := Deactivating(k, true)), mine.(pushed := mine.pushed + [me.datagram]), s.wake, s.nextShard)
      else Move(me.(at := Deactivating(k, false)), mine, s.wake, s.nextShard)
    case Deactivating(k, queued) =>
      Move(me.(at := if queued then Testing(k) else Idle), mine.(active := false), s.wake, s.nextShard)
    case Testing(k) => Move(if s.wake then Returned(me) else me.(at := Setting(k)), mine, s.wake, s.nextShard)
    case Setting(k) => Move(if s.wake then Returned(me) else me.(at := Notifying(k)), mine, true, s.nextShard)
    case Notifying(k) => Move(Returned(me), mine, s.wake, s.nextShard)
  }

  // The shard a thread's call is working on, if it has come that far.
  predicate OnShard(me: Sender) {
    !me.at.Idle? && !me.at.Registering? && !me.at.Drawing?
  }

  predicate SenderInRange(me: Sender) {
    && (OnShard(me) ==> me.at.shard < SHARDS)
    && (me.registered.Some? ==> me.registered.value.shard < SHARDS)
  }

  function Mine(s: Publisher, me: Sender): Shard
    requires |s.shards| == SHARDS && SenderInRange(me)
  {
    if OnShard(me) then s.shards[me.at.shard] else NEW_SHARD
  }

  function SenderStep(s: Publisher, t: Thread, datagram: Datagram): Publisher
    requires |s.shards| == SHARDS && SenderInRange(SenderOf(s, t))
  {
    var me := SenderOf(s, t);
    var move := SenderMove(s, me, Mine(s, me), datagram);
    s.(senders := s.senders[t := move.me],
       shards := if OnShard(me) then s.shards[me.at.shard := move.mine] else s.shards,
       wake := move.wake,
       nextShard := move.nextShard,
       consumer := if me.at.Notifying? then Woken(s).consumer else s.consumer)
  }

  // Send the oldest datagram of the shard on, and scan again from the shard after it.
  function Take(s: Publisher, k: nat): Publisher
    requires k < |s.shards| && HasWork(s.shards[k])
  {
    var shard := s.shards[k];
    s.(shards := s.shards[k := shard.(taken := shard.taken + 1)],
       log := s.log + [(k, shard.pushed[shard.taken])],
       cursor := (k + 1) % SHARDS,
       consumer := Scanning(0))
  }

  function ConsumerStep(s: Publisher): Publisher
    requires |s.shards| == SHARDS
  {
    match s.consumer
    case Scanning(offset) =>
      var k := (s.cursor + offset) % SHARDS;
      if offset >= SHARDS then s.(consumer := Scanned)
      else if HasWork(s.shards[k]) then Take(s, k)
      else s.(consumer := Scanning(offset + 1))
    case Scanned =>
      s.(consumer := if s.running then Arming else CheckingQueues(0))
    case CheckingQueues(k) =>
      if k >= SHARDS then s.(consumer := CheckingSenders(0))
      else s.(consumer := if HasWork(s.shards[k]) then Scanning(0) else CheckingQueues(k + 1))
    case CheckingSenders(k) =>
      if k >= SHARDS then s.(consumer := Finished)
      else s.(consumer := if s.shards[k].active then Scanning(0) else CheckingSenders(k + 1))
    case Arming =>
      s.(wake := false, consumer := Rescanning(0))
    case Rescanning(k) =>
      if k >= SHARDS then s.(consumer := RecheckingRunning)
      else s.(consumer := if HasWork(s.shards[k]) then Scanning(0) else Rescanning(k + 1))
    case RecheckingRunning =>
      s.(consumer := if s.running then Waiting else Scanning(0))
    case Waiting =>
      s.(consumer := if s.wake then Scanning(0) else Asleep)
    case Asleep => s
    case Finished => s
  }

  function Given(shards: seq<Shard>): seq<seq<Datagram>> {
    seq(|shards|, k requires 0 <= k < |shards| => shards[k].pushed)
  }

  function StopStep(s: Publisher): Publisher {
    match s.stopper
    case NotStopping => s.(running := false, stopper := SettingFlag, atStop := Given(s.shards))
    case SettingFlag => s.(wake := true, stopper := NotifyingAll)
    case NotifyingAll => Woken(s).(stopper := Joining)
    case Joining => s
  }

  function Fresh(generation: nat, senders: map<Thread, Sender>): Publisher {
    Publisher(true, false, generation, 0, seq(SHARDS, _ => NEW_SHARD), senders, Scanning(0), 0, [], NotStopping, [])
  }

  // Not concurrent with anything: the last generation has been joined and no call is in progress.
  function StartStep(s: Publisher): Publisher {
    if s.stopper.Joining? && s.consumer.Finished? && forall t :: t in s.senders ==> s.senders[t].at.Idle?
    then Fresh(s.generation + 1, s.senders) else s
  }

  function Do(s: Publisher, action: Action): Publisher
    requires Shape(s)
  {
    match action
    case Send(thread, datagram) => SenderStep(s, thread, datagram)
    case Publish => ConsumerStep(s)
    case Stop => StopStep(s)
    case Start => StartStep(s)
  }

  // ---- The machine stays in range ----------------------------------------------------------------

  predicate ConsumerInRange(at: ConsumerAt) {
    match at
    case Scanning(offset) => offset <= SHARDS
    case CheckingQueues(next) => next <= SHARDS
    case CheckingSenders(next) => next <= SHARDS
    case Rescanning(next) => next <= SHARDS
    case _ => true
  }

  predicate ShardInRange(shard: Shard) {
    shard.taken <= |shard.pushed| <= shard.taken + QUEUE_CAPACITY
  }

  predicate ShardsInRange(shards: seq<Shard>) {
    |shards| == SHARDS && forall k :: 0 <= k < SHARDS ==> ShardInRange(shards[k])
  }

  predicate SendersInRange(senders: map<Thread, Sender>) {
    forall t :: t in senders ==> SenderInRange(senders[t])
  }

  predicate Shape(s: Publisher) {
    s.cursor < SHARDS && ConsumerInRange(s.consumer) && ShardsInRange(s.shards) && SendersInRange(s.senders)
  }

  lemma {:induction false} PutShard(shards: seq<Shard>, k: nat, shard: Shard)
    requires ShardsInRange(shards) && k < SHARDS && ShardInRange(shard)
    ensures ShardsInRange(shards[k := shard])
  {
  }

  lemma {:induction false} PutSender(senders: map<Thread, Sender>, t: Thread, me: Sender)
    requires SendersInRange(senders) && SenderInRange(me)
    ensures SendersInRange(senders[t := me])
  {
  }

  lemma {:induction false} SenderStepShape(s: Publisher, t: Thread, datagram: Datagram)
    requires Shape(s)
    ensures SenderInRange(SenderOf(s, t)) && Shape(SenderStep(s, t, datagram))
  {
    hide ShardsInRange, SendersInRange, SenderMove, SenderInRange, ShardInRange;
    var me := SenderOf(s, t);
    ShardsMean(s.shards);
    SenderMeans(s.senders, t);
    NewInRange();
    MoveInRange(s, me, Mine(s, me), datagram);
    var move := SenderMove(s, me, Mine(s, me), datagram);
    PutSender(s.senders, t, move.me);
    if OnShard(me) {
      AtShard(me);
      PutShard(s.shards, me.at.shard, move.mine);
    }
  }

  lemma NewInRange()
    ensures SenderInRange(NEW_SENDER) && ShardInRange(NEW_SHARD)
  {
  }

  lemma AtShard(me: Sender)
    requires SenderInRange(me) && OnShard(me)
    ensures me.at.shard < SHARDS
  {
  }

  lemma {:induction false} MoveInRange(s: Publisher, me: Sender, mine: Shard, datagram: Datagram)
    requires SenderInRange(me) && ShardInRange(mine)
    ensures var move := SenderMove(s, me, mine, datagram);
      SenderInRange(move.me) && ShardInRange(move.mine)
  {
  }

  lemma ShardsMean(shards: seq<Shard>)
    requires ShardsInRange(shards)
    ensures |shards| == SHARDS && forall k :: 0 <= k < SHARDS ==> ShardInRange(shards[k])
  {
  }

  lemma SenderMeans(senders: map<Thread, Sender>, t: Thread)
    requires SendersInRange(senders)
    ensures t in senders ==> SenderInRange(senders[t])
  {
  }

  lemma {:induction false} ConsumerStepShape(s: Publisher)
    requires Shape(s)
    ensures Shape(ConsumerStep(s))
  {
    hide SendersInRange;
    if s.consumer.Scanning? && s.consumer.offset < SHARDS {
      var k := (s.cursor + s.consumer.offset) % SHARDS;
      if HasWork(s.shards[k]) {
        PutShard(s.shards, k, s.shards[k].(taken := s.shards[k].taken + 1));
      }
    }
  }

  lemma {:induction false} StepKeepsShape(s: Publisher, action: Action)
    requires Shape(s)
    ensures action.Send? ==> SenderInRange(SenderOf(s, action.thread))
    ensures Shape(Do(s, action))
  {
    hide ShardsInRange, SendersInRange, SenderStep, ConsumerStep, StartStep;
    match action
    case Send(t, datagram) => SenderStepShape(s, t, datagram);
    case Publish => ConsumerStepShape(s);
    case Stop =>
    case Start => StartShape(s);
  }

  lemma {:induction false} StartShape(s: Publisher)
    requires Shape(s)
    ensures Shape(StartStep(s))
  {
  }

  function Run(s: Publisher, actions: seq<Action>): (s': Publisher)
    requires Shape(s)
    ensures Shape(s')
    decreases |actions|
  {
    if actions == [] then s
    else
      StepKeepsShape(s, actions[0]);
      Run(Do(s, actions[0]), actions[1..])
  }

  const START_STATE := Fresh(1, map[])
}
