/**
 What holds in every interleaving of the publisher: one producer per shard, order and conservation
 in every queue, no lost wake-up, and everything given before stop is sent before the thread exits.
 */
module PublisherLaws {
  import opened ExchangeTypes
  import opened Publishers

  // ---- Registration: one producer per shard and generation -----------------------------------------

  // The shard a thread holds in the current generation.
  function ShardOf(s: Publisher, t: Thread): Option<nat> {
    var r := SenderOf(s, t).registered;
    if r.Some? && r.value.generation == s.generation then Some(r.value.shard) else None
  }

  ghost predicate OneProducer(s: Publisher) {
    && (forall t :: SenderOf(s, t).registered.Some? ==> SenderOf(s, t).registered.value.generation <= s.generation)
    && (forall t :: ShardOf(s, t).Some? ==> ShardOf(s, t).value < s.nextShard)
    && (forall t, u :: ShardOf(s, t).Some? && ShardOf(s, t) == ShardOf(s, u) ==> t == u)
    && (forall t :: OnShard(SenderOf(s, t)) ==> ShardOf(s, t) == Some(SenderOf(s, t).at.shard))
    && (forall t :: SenderOf(s, t).at.Drawing? ==> SenderOf(s, t).at.generation == s.generation)
  }

  // Taking the next free shard, with nothing sent on it yet.
  predicate Registers(s: Publisher, me: Sender, move: Move) {
    && me.at.Drawing? && s.nextShard < SHARDS && move.nextShard == s.nextShard + 1
    && move.me.registered == Some(Registration(me.at.generation, s.nextShard)) && move.me.accepted == []
    && move.me.at == Activating(s.nextShard)
  }

  // A move keeps the registration and the shard, or makes a registration.
  lemma {:induction false} MoveRegistration(s: Publisher, me: Sender, mine: Shard, datagram: Datagram)
    ensures var move := SenderMove(s, me, mine, datagram);
      && s.nextShard <= move.nextShard
      && (Registers(s, me, move)
          || (&& move.me.registered == me.registered
              && (OnShard(move.me) ==>
                    || (OnShard(me) && move.me.at.shard == me.at.shard)
                    || me.registered == Some(Registration(s.generation, move.me.at.shard)))
              && (!OnShard(me) ==> move.me.accepted == me.accepted)))
      && (move.me.at.Drawing? ==> move.me.at.generation == s.generation)
      && (!OnShard(me) ==> InFlight(move.me) == InFlight(me) == [])
  {
  }

  lemma {:induction false} SenderKeepsOneProducer(s: Publisher, t: Thread, datagram: Datagram)
    requires Shape(s) && OneProducer(s)
    ensures SenderInRange(SenderOf(s, t)) && OneProducer(SenderStep(s, t, datagram))
  {
    hide SenderMove, ShardInRange, SendersInRange;
    var me := SenderOf(s, t);
    SenderStepShape(s, t, datagram);
    MoveRegistration(s, me, Mine(s, me), datagram);
    var s' := SenderStep(s, t, datagram);
    assert forall u :: u != t ==> SenderOf(s', u) == SenderOf(s, u) && ShardOf(s', u) == ShardOf(s, u);
    assert ShardOf(s', t) == ShardOf(s, t) || ShardOf(s', t) == Some(s.nextShard);
  }

  // ---- Accounts: what a shard was given is what its producer's calls answered for ------------------

  function InFlight(me: Sender): seq<Datagram> {
    if (me.at.Deactivating? && me.at.queued) || me.at.Testing? || me.at.Setting? || me.at.Notifying?
    then [me.datagram] else []
  }

  ghost predicate Accounts(s: Publisher)
    requires |s.shards| == SHARDS
  {
    && (forall t :: ShardOf(s, t).Some? && ShardOf(s, t).value < SHARDS ==>
          s.shards[ShardOf(s, t).value].pushed == SenderOf(s, t).accepted + InFlight(SenderOf(s, t)))
    && (forall k :: s.nextShard <= k < SHARDS ==> s.shards[k].pushed == [])
  }

  lemma {:induction false} MoveAccounts(s: Publisher, me: Sender, mine: Shard, datagram: Datagram)
    requires OnShard(me) && mine.pushed == me.accepted + InFlight(me)
    ensures var move := SenderMove(s, me, mine, datagram);
      move.mine.pushed == move.me.accepted + InFlight(move.me)
  {
  }

  lemma {:induction false} SenderKeepsAccounts(s: Publisher, t: Thread, datagram: Datagram)
    requires Shape(s) && OneProducer(s) && Accounts(s)
    ensures SenderInRange(SenderOf(s, t))
    ensures |SenderStep(s, t, datagram).shards| == SHARDS && Accounts(SenderStep(s, t, datagram))
  {
    hide SenderMove, ShardInRange, SendersInRange;
    var me := SenderOf(s, t);
    SenderStepShape(s, t, datagram);
    MoveRegistration(s, me, Mine(s, me), datagram);
    if OnShard(me) {
      MoveAccounts(s, me, Mine(s, me), datagram);
    }
    var s' := SenderStep(s, t, datagram);
    assert forall u :: u != t ==> SenderOf(s', u) == SenderOf(s, u) && ShardOf(s', u) == ShardOf(s, u);
    assert ShardOf(s', t) == ShardOf(s, t) || ShardOf(s', t) == Some(s.nextShard);
  }

  // The other parties leave the senders, the registrations and what was pushed alone.
  lemma {:induction false} ConsumerFrame(s: Publisher)
    requires Shape(s)
    ensures var s' := ConsumerStep(s);
      && s'.senders == s.senders && s'.nextShard == s.nextShard && s'.generation == s.generation
      && s'.running == s.running && s'.stopper == s.stopper && s'.atStop == s.atStop
      && |s'.shards| == SHARDS
      && (forall k :: 0 <= k < SHARDS ==>
            && s'.shards[k].pushed == s.shards[k].pushed && s'.shards[k].active == s.shards[k].active
            && s'.shards[k].taken >= s.shards[k].taken)
  {
    hide Take, HasWork, ShardInRange, SendersInRange, ConsumerInRange;
    if s.consumer.Scanning? {
      var k := (s.cursor + s.consumer.offset) % SHARDS;
      if HasWork(s.shards[k]) {
        TakeFrame(s, k);
      }
    }
  }

  lemma TakeFrame(s: Publisher, k: nat)
    requires k < |s.shards| && HasWork(s.shards[k])
    ensures Take(s, k) == s.(shards := s.shards[k := s.shards[k].(taken := s.shards[k].taken + 1)],
                             log := Take(s, k).log, cursor := Take(s, k).cursor, consumer := Scanning(0))
  {
  }

  lemma SameProducers(s: Publisher, s': Publisher)
    requires OneProducer(s) && s'.senders == s.senders && s'.nextShard == s.nextShard && s'.generation == s.generation
    ensures OneProducer(s')
    ensures forall t :: SenderOf(s', t) == SenderOf(s, t) && ShardOf(s', t) == ShardOf(s, t)
  {
    assert forall t :: SenderOf(s', t) == SenderOf(s, t) && ShardOf(s', t) == ShardOf(s, t);
  }

  // ---- Flags: a sender that may touch its queue shows it -------------------------------------------

  predicate MayPush(me: Sender) {
    me.at.Rechecking? || me.at.Withdrawing? || me.at.Pushing? || me.at.Deactivating?
  }

  ghost predicate Flags(s: Publisher)
    requires |s.shards| == SHARDS
  {
    forall t :: MayPush(SenderOf(s, t)) && SenderOf(s, t).at.shard < SHARDS ==> s.shards[SenderOf(s, t).at.shard].active
  }

  lemma {:induction false} MoveFlags(s: Publisher, me: Sender, mine: Shard, datagram: Datagram)
    requires MayPush(me) ==> mine.active
    ensures var move := SenderMove(s, me, mine, datagram);
      MayPush(move.me) ==> OnShard(me) && move.me.at.shard == me.at.shard && move.mine.active
  {
  }

  lemma {:induction false} SenderKeepsFlags(s: Publisher, t: Thread, datagram: Datagram)
    requires Shape(s) && OneProducer(s) && Flags(s)
    ensures SenderInRange(SenderOf(s, t))
    ensures |SenderStep(s, t, datagram).shards| == SHARDS && Flags(SenderStep(s, t, datagram))
  {
    hide SenderMove, ShardInRange, SendersInRange;
    var me := SenderOf(s, t);
    SenderStepShape(s, t, datagram);
    MoveFlags(s, me, Mine(s, me), datagram);
    var s' := SenderStep(s, t, datagram);
    forall u | MayPush(SenderOf(s', u)) && SenderOf(s', u).at.shard < SHARDS
      ensures s'.shards[SenderOf(s', u).at.shard].active
    {
      if u != t {
        assert SenderOf(s', u) == SenderOf(s, u);
        assert OnShard(me) && me.at.shard == SenderOf(s, u).at.shard ==> ShardOf(s, t) == ShardOf(s, u);
      }
    }
  }

  // And a flag that is up stands for such a sender.
  predicate Occupies(me: Sender, k: nat) {
    MayPush(me) && me.at.shard == k
  }

  ghost predicate Occupied(s: Publisher)
    requires |s.shards| == SHARDS
  {
    forall k :: 0 <= k < SHARDS && s.shards[k].active ==> exists t :: Occupies(SenderOf(s, t), k)
  }

  lemma {:induction false} MoveOccupies(s: Publisher, me: Sender, mine: Shard, datagram: Datagram)
    requires OnShard(me)
    ensures var move := SenderMove(s, me, mine, datagram);
      move.mine.active ==> Occupies(move.me, me.at.shard) || (mine.active && !MayPush(me))
  {
  }

  lemma {:induction false} SenderKeepsOccupied(s: Publisher, t: Thread, datagram: Datagram)
    requires Shape(s) && Occupied(s)
    ensures SenderInRange(SenderOf(s, t))
    ensures |SenderStep(s, t, datagram).shards| == SHARDS && Occupied(SenderStep(s, t, datagram))
  {
    hide SenderMove, ShardInRange, SendersInRange;
    var me := SenderOf(s, t);
    SenderStepShape(s, t, datagram);
    var s' := SenderStep(s, t, datagram);
    forall k | 0 <= k < SHARDS && s'.shards[k].active
      ensures exists u :: Occupies(SenderOf(s', u), k)
    {
      if OnShard(me) && k == me.at.shard {
        MoveOccupies(s, me, Mine(s, me), datagram);
      }
      if !Occupies(SenderOf(s', t), k) {
        var u :| Occupies(SenderOf(s, u), k);
        assert u != t;
        assert SenderOf(s', u) == SenderOf(s, u);
      }
    }
  }

  // ---- Waking up -----------------------------------------------------------------------------------

  // Has pushed, and has not yet made sure that the flag is set.
  predicate ToSignal(me: Sender) {
    (me.at.Deactivating? && me.at.queued) || me.at.Testing? || me.at.Setting?
  }

  predicate SignalsFor(me: Sender, k: nat) {
    ToSignal(me) && me.at.shard == k
  }

  ghost predicate Pending(s: Publisher, k: nat) {
    exists t :: SignalsFor(SenderOf(s, t), k)
  }

  ghost predicate SomeNotifier(s: Publisher) {
    exists t :: SenderOf(s, t).at.Notifying?
  }

  // How many shards the consumer has found empty since it cleared the flag.
  function FoundEmpty(at: ConsumerAt): nat {
    match at
    case Rescanning(next) => next
    case RecheckingRunning => SHARDS
    case Waiting => SHARDS
    case Asleep => SHARDS
    case _ => 0
  }

  ghost predicate WorkIsSignalled(s: Publisher)
    requires |s.shards| == SHARDS
  {
    forall k :: 0 <= k < FoundEmpty(s.consumer) && k < SHARDS && HasWork(s.shards[k]) && !s.wake ==> Pending(s, k)
  }

  ghost predicate SleepIsSafe(s: Publisher) {
    && (s.running <==> s.stopper.NotStopping?)
    && ((s.consumer.Waiting? || s.consumer.Asleep?) && !s.running && !s.wake ==> s.stopper.SettingFlag?)
    && (s.consumer.Asleep? && s.wake ==> SomeNotifier(s) || s.stopper.NotifyingAll?)
  }

  lemma {:induction false} MoveSignals(s: Publisher, me: Sender, mine: Shard, datagram: Datagram)
    ensures var move := SenderMove(s, me, mine, datagram);
      && (s.wake ==> move.wake)
      && (ToSignal(me) && !move.wake ==> ToSignal(move.me) && move.me.at.shard == me.at.shard)
      && (HasWork(move.mine) && !HasWork(mine) ==> me.at.Pushing? && ToSignal(move.me) && move.me.at.shard == me.at.shard)
      && (move.wake && !s.wake ==> move.me.at.Notifying?)
      && (move.me.at.Notifying? ==> move.wake)
  {
  }

  lemma {:induction false} SenderKeepsSignals(s: Publisher, t: Thread, datagram: Datagram)
    requires Shape(s) && WorkIsSignalled(s)
    ensures SenderInRange(SenderOf(s, t))
    ensures |SenderStep(s, t, datagram).shards| == SHARDS && WorkIsSignalled(SenderStep(s, t, datagram))
  {
    hide SenderMove, ShardInRange, SendersInRange;
    var me := SenderOf(s, t);
    SenderStepShape(s, t, datagram);
    MoveSignals(s, me, Mine(s, me), datagram);
    var s' := SenderStep(s, t, datagram);
    forall k | 0 <= k < FoundEmpty(s'.consumer) && k < SHARDS && HasWork(s'.shards[k]) && !s'.wake
      ensures Pending(s', k)
    {
      if HasWork(s.shards[k]) {
        var u :| SignalsFor(SenderOf(s, u), k);
        assert SignalsFor(SenderOf(s', u), k);
      } else {
        assert SignalsFor(SenderOf(s', t), k);
      }
    }
  }

  lemma {:induction false} SenderKeepsSleep(s: Publisher, t: Thread, datagram: Datagram)
    requires Shape(s) && SleepIsSafe(s)
    ensures SenderInRange(SenderOf(s, t)) && |s.shards| == SHARDS && SleepIsSafe(SenderStep(s, t, datagram))
  {
    hide SenderMove, ShardInRange, SendersInRange;
    var me := SenderOf(s, t);
    SenderStepShape(s, t, datagram);
    MoveSignals(s, me, Mine(s, me), datagram);
    var s' := SenderStep(s, t, datagram);
    if s'.consumer.Asleep? && s'.wake {
      if s.wake && !s.stopper.NotifyingAll? {
        var u :| SenderOf(s, u).at.Notifying?;
        assert SenderOf(s', u).at.Notifying?;
      } else if !s.wake {
        assert SenderOf(s', t).at.Notifying?;
      }
    }
  }

  lemma {:induction false} ConsumerKeepsWakefulness(s: Publisher)
    requires Shape(s) && WorkIsSignalled(s) && SleepIsSafe(s)
    ensures |ConsumerStep(s).shards| == SHARDS && WorkIsSignalled(ConsumerStep(s)) && SleepIsSafe(ConsumerStep(s))
  {
    ConsumerFrame(s);
    var s' := ConsumerStep(s);
    forall k | 0 <= k < FoundEmpty(s'.consumer) && k < SHARDS && HasWork(s'.shards[k]) && !s'.wake
      ensures Pending(s', k)
    {
      assert HasWork(s.shards[k]) && k < FoundEmpty(s.consumer) && !s.wake;
      var u :| SignalsFor(SenderOf(s, u), k);
      assert SignalsFor(SenderOf(s', u), k);
    }
  }

  lemma {:induction false} StopKeepsWakefulness(s: Publisher)
    requires Shape(s) && WorkIsSignalled(s) && SleepIsSafe(s)
    ensures |StopStep(s).shards| == SHARDS && WorkIsSignalled(StopStep(s)) && SleepIsSafe(StopStep(s))
  {
    var s' := StopStep(s);
    forall k | 0 <= k < FoundEmpty(s'.consumer) && k < SHARDS && HasWork(s'.shards[k]) && !s'.wake
      ensures Pending(s', k)
    {
      var u :| SignalsFor(SenderOf(s, u), k);
      assert SignalsFor(SenderOf(s', u), k);
    }
    if s'.consumer.Asleep? && s'.wake && SomeNotifier(s) {
      var u :| SenderOf(s, u).at.Notifying?;
      assert SenderOf(s', u).at.Notifying?;
    }
  }

  // ---- The way out ---------------------------------------------------------------------------------

  // How many queues, and how many flags, the consumer has found clear on its way out.
  function QueuesClear(at: ConsumerAt): nat {
    match at
    case CheckingQueues(next) => next
    case CheckingSenders(_) => SHARDS
    case Finished => SHARDS
    case _ => 0
  }

  function FlagsClear(at: ConsumerAt): nat {
    match at
    case CheckingSenders(next) => next
    case Finished => SHARDS
    case _ => 0
  }

  ghost predicate Leaving(s: Publisher)
    requires |s.shards| == SHARDS
  {
    && (s.consumer.CheckingQueues? || s.consumer.CheckingSenders? || s.consumer.Finished? ==> !s.running)
    && (!s.running ==> |s.atStop| == SHARDS && forall k :: 0 <= k < SHARDS ==> s.atStop[k] <= s.shards[k].pushed)
    && (!s.running ==> forall k :: 0 <= k < QueuesClear(s.consumer) && k < SHARDS && k < |s.atStop| ==> |s.atStop[k]| <= s.shards[k].taken)
    && (forall t :: SenderOf(s, t).at.Pushing? ==> SenderOf(s, t).at.shard >= FlagsClear(s.consumer))
  }

  lemma {:induction false} MoveLeaving(s: Publisher, me: Sender, mine: Shard, datagram: Datagram)
    ensures var move := SenderMove(s, me, mine, datagram);
      && mine.pushed <= move.mine.pushed && move.mine.taken == mine.taken
      && (move.me.at.Pushing? ==> s.running)
  {
  }

  lemma {:induction false} SenderKeepsLeaving(s: Publisher, t: Thread, datagram: Datagram)
    requires Shape(s) && Leaving(s)
    ensures SenderInRange(SenderOf(s, t))
    ensures |SenderStep(s, t, datagram).shards| == SHARDS && Leaving(SenderStep(s, t, datagram))
  {
    hide SenderMove, ShardInRange, SendersInRange;
    var me := SenderOf(s, t);
    SenderStepShape(s, t, datagram);
    MoveLeaving(s, me, Mine(s, me), datagram);
    var s' := SenderStep(s, t, datagram);
    assert forall u :: u != t ==> SenderOf(s', u) == SenderOf(s, u);
  }

  predicate OnTheWayOut(at: ConsumerAt) {
    at.CheckingQueues? || at.CheckingSenders? || at.Finished?
  }

  // On the way out the consumer passes one queue, and later one flag, at a time.
  lemma {:induction false} OneAtATime(s: Publisher)
    requires Shape(s)
    ensures var at, at' := s.consumer, ConsumerStep(s).consumer;
      && (OnTheWayOut(at') ==> OnTheWayOut(at) || !s.running)
      && (QueuesClear(at') <= QueuesClear(at)
          || (QueuesClear(at) < SHARDS && QueuesClear(at') == QueuesClear(at) + 1 && !HasWork(s.shards[QueuesClear(at)])))
      && (FlagsClear(at') <= FlagsClear(at)
          || (FlagsClear(at) < SHARDS && FlagsClear(at') == FlagsClear(at) + 1 && !s.shards[FlagsClear(at)].active))
  {
    hide Take, HasWork, ShardInRange, SendersInRange, ConsumerInRange;
    if s.consumer.Scanning? {
      var k := (s.cursor + s.consumer.offset) % SHARDS;
      if HasWork(s.shards[k]) {
        TakeFrame(s, k);
      }
    }
  }

  lemma {:induction false} ConsumerKeepsLeaving(s: Publisher)
    requires Shape(s) && Leaving(s) && Flags(s)
    ensures |ConsumerStep(s).shards| == SHARDS && Leaving(ConsumerStep(s))
  {
    hide ConsumerStep, ShardInRange, SendersInRange, QueuesClear, FlagsClear;
    ConsumerFrame(s);
    OneAtATime(s);
    var s' := ConsumerStep(s);
    forall t | SenderOf(s', t).at.Pushing?
      ensures SenderOf(s', t).at.shard >= FlagsClear(s'.consumer)
    {
      assert SenderOf(s', t) == SenderOf(s, t) && MayPush(SenderOf(s, t));
    }
  }

  lemma {:induction false} StopKeepsLeaving(s: Publisher)
    requires Shape(s) && Leaving(s) && SleepIsSafe(s)
    ensures |StopStep(s).shards| == SHARDS && Leaving(StopStep(s))
  {
    assert forall t :: SenderOf(StopStep(s), t) == SenderOf(s, t);
  }

  // ---- Order and conservation ----------------------------------------------------------------------

  // What was sent on from one shard, in order.
  function Of(log: seq<(nat, Datagram)>, k: nat): seq<Datagram> {
    if log == [] then []
    else Of(log[..|log| - 1], k) + if log[|log| - 1].0 == k then [log[|log| - 1].1] else []
  }

  ghost predicate InOrder(s: Publisher)
    requires ShardsInRange(s.shards)
  {
    forall k :: 0 <= k < SHARDS ==> Of(s.log, k) == s.shards[k].pushed[..s.shards[k].taken]
  }

  lemma {:induction false} SenderKeepsOrder(s: Publisher, t: Thread, datagram: Datagram)
    requires Shape(s) && InOrder(s)
    ensures SenderInRange(SenderOf(s, t)) && Shape(SenderStep(s, t, datagram)) && InOrder(SenderStep(s, t, datagram))
  {
    hide SenderMove, SendersInRange, Of;
    var me := SenderOf(s, t);
    SenderStepShape(s, t, datagram);
    MoveLeaving(s, me, Mine(s, me), datagram);
  }

  lemma {:induction false} OfMore(log: seq<(nat, Datagram)>, k: nat, j: nat, datagram: Datagram)
    ensures Of(log + [(k, datagram)], j) == Of(log, j) + if k == j then [datagram] else []
  {
    assert (log + [(k, datagram)])[..|log|] == log;
  }

  lemma {:induction false} TakeKeepsOrder(s: Publisher, k: nat)
    requires ShardsInRange(s.shards) && InOrder(s) && k < SHARDS && HasWork(s.shards[k])
    ensures ShardsInRange(Take(s, k).shards) && InOrder(Take(s, k))
  {
    hide Of;
    var s' := Take(s, k);
    var shard := s.shards[k];
    PutShard(s.shards, k, s'.shards[k]);
    assert shard.pushed[..shard.taken + 1] == shard.pushed[..shard.taken] + [shard.pushed[shard.taken]];
    forall j | 0 <= j < SHARDS
      ensures Of(s'.log, j) == s'.shards[j].pushed[..s'.shards[j].taken]
    {
      OfMore(s.log, k, j, shard.pushed[shard.taken]);
    }
  }

  lemma {:induction false} ConsumerKeepsOrder(s: Publisher)
    requires Shape(s) && InOrder(s)
    ensures Shape(ConsumerStep(s)) && InOrder(ConsumerStep(s))
  {
    hide InOrder, ShardsInRange, Take;
    assert |s.shards| == SHARDS by { ShardsMean(s.shards); }
    ConsumerStepShape(s);
    var k := if s.consumer.Scanning? then (s.cursor + s.consumer.offset) % SHARDS else 0;
    if s.consumer.Scanning? && s.consumer.offset < SHARDS && HasWork(s.shards[k]) {
      TakeKeepsOrder(s, k);
    } else {
      SameOrder(s, ConsumerStep(s));
    }
  }

  // ---- Every run -----------------------------------------------------------------------------------

  ghost predicate Safe(s: Publisher) {
    && Shape(s)
    && OneProducer(s) && Accounts(s) && Flags(s) && Occupied(s)
    && WorkIsSignalled(s) && SleepIsSafe(s)
    && Leaving(s) && InOrder(s)
  }

  lemma {:induction false} SenderKeepsSafe(s: Publisher, t: Thread, datagram: Datagram)
    requires Safe(s)
    ensures SenderInRange(SenderOf(s, t)) && |s.shards| == SHARDS && Safe(SenderStep(s, t, datagram))
  {
    hide SenderStep, OneProducer, Accounts, Flags, Occupied, WorkIsSignalled, SleepIsSafe, Leaving, InOrder;
    SenderStepShape(s, t, datagram);
    SenderKeepsOneProducer(s, t, datagram);
    SenderKeepsAccounts(s, t, datagram);
    SenderKeepsFlags(s, t, datagram);
    SenderKeepsOccupied(s, t, datagram);
    SenderKeepsSignals(s, t, datagram);
    SenderKeepsSleep(s, t, datagram);
    SenderKeepsLeaving(s, t, datagram);
    SenderKeepsOrder(s, t, datagram);
  }

  lemma {:induction false} ConsumerKeepsSafe(s: Publisher)
    requires Safe(s)
    ensures Safe(ConsumerStep(s))
  {
    hide ConsumerStep, OneProducer, Occupied, WorkIsSignalled, SleepIsSafe, Leaving, InOrder;
    ConsumerStepShape(s);
    ConsumerFrame(s);
    SameProducers(s, ConsumerStep(s));
    SameOccupants(s, ConsumerStep(s));
    ConsumerKeepsWakefulness(s);
    ConsumerKeepsLeaving(s);
    ConsumerKeepsOrder(s);
  }

  lemma SameOccupants(s: Publisher, s': Publisher)
    requires |s.shards| == |s'.shards| == SHARDS && Occupied(s) && s'.senders == s.senders
    requires forall k :: 0 <= k < SHARDS ==> s'.shards[k].active == s.shards[k].active
    ensures Occupied(s')
  {
    assert forall t :: SenderOf(s', t) == SenderOf(s, t);
  }

  lemma {:induction false} StopKeepsSafe(s: Publisher)
    requires Safe(s)
    ensures Safe(StopStep(s))
  {
    hide OneProducer, Occupied, WorkIsSignalled, SleepIsSafe, Leaving, InOrder;
    SameProducers(s, StopStep(s));
    SameOccupants(s, StopStep(s));
    StopKeepsWakefulness(s);
    StopKeepsLeaving(s);
    assert StopStep(s).log == s.log && StopStep(s).shards == s.shards;
    SameOrder(s, StopStep(s));
  }

  lemma SameOrder(s: Publisher, s': Publisher)
    requires ShardsInRange(s.shards) && InOrder(s) && s'.log == s.log && s'.shards == s.shards
    ensures InOrder(s')
  {
  }

  lemma {:induction false} FreshIsSafe(generation: nat, senders: map<Thread, Sender>)
    requires SendersInRange(senders) && forall t :: t in senders ==> senders[t].at.Idle?
    requires forall t :: t in senders && senders[t].registered.Some? ==> senders[t].registered.value.generation < generation
    ensures Safe(Fresh(generation, senders))
  {
    var s := Fresh(generation, senders);
    assert forall t :: SenderOf(s, t).at.Idle? && ShardOf(s, t) == None;
  }

  lemma {:induction false} StepKeepsSafe(s: Publisher, action: Action)
    requires Safe(s)
    ensures Safe(Do(s, action))
  {
    hide SenderStep, ConsumerStep, StopStep, Accounts, Flags, Occupied, WorkIsSignalled, SleepIsSafe, Leaving, InOrder;
    match action
    case Send(t, datagram) => SenderKeepsSafe(s, t, datagram);
    case Publish => ConsumerKeepsSafe(s);
    case Stop => StopKeepsSafe(s);
    case Start =>
      forall t | t in s.senders && s.senders[t].registered.Some?
        ensures s.senders[t].registered.value.generation < s.generation + 1
      {
        assert SenderOf(s, t) == s.senders[t];
      }
      if StartStep(s) != s {
        FreshIsSafe(s.generation + 1, s.senders);
      }
  }

  /** Any number of threads, any interleaving, any number of restarts. */
  lemma {:induction false} RunKeepsSafe(s: Publisher, actions: seq<Action>)
    requires Safe(s)
    ensures Safe(Run(s, actions))
    decreases |actions|
  {
    hide Do, OneProducer, Accounts, Flags, Occupied, WorkIsSignalled, SleepIsSafe, Leaving, InOrder;
    if actions != [] {
      StepKeepsSafe(s, actions[0]);
      RunKeepsSafe(Do(s, actions[0]), actions[1..]);
    }
  }

  lemma {:induction false} EveryRunIsSafe(actions: seq<Action>)
    ensures Shape(START_STATE) && Safe(Run(START_STATE, actions))
  {
    FreshIsSafe(1, map[]);
    RunKeepsSafe(START_STATE, actions);
  }

  // ---- What it means -------------------------------------------------------------------------------

  /** Two threads whose calls have reached the same queue are one thread. */
  lemma {:induction false} ProducersAreApart(s: Publisher, t: Thread, u: Thread)
    requires Safe(s)
    requires OnShard(SenderOf(s, t)) && OnShard(SenderOf(s, u)) && SenderOf(s, t).at.shard == SenderOf(s, u).at.shard
    ensures t == u
  {
    assert ShardOf(s, t) == ShardOf(s, u);
  }

  /**
   No lost wake-up. While the publisher thread sleeps with the flag clear, every queue with work has
   a producer between its push and its signal, and if the publisher is stopping, stop has yet to set
   the flag. Once the flag is set, somebody is about to notify.
   */
  lemma {:induction false} NoLostWakeUp(s: Publisher)
    requires Safe(s) && s.consumer.Asleep?
    ensures !s.wake ==> forall k :: 0 <= k < SHARDS && HasWork(s.shards[k]) ==> Pending(s, k)
    ensures !s.wake && !s.running ==> s.stopper.SettingFlag?
    ensures s.wake ==> SomeNotifier(s) || s.stopper.NotifyingAll?
  {
  }

  /** So when every call has returned, a sleeping publisher has nothing to do. */
  lemma {:induction false} SleepsOnlyWhenIdle(s: Publisher)
    requires Safe(s) && s.consumer.Asleep?
    requires forall t :: SenderOf(s, t).at.Idle?
    requires s.stopper.NotStopping? || s.stopper.Joining?
    ensures s.running && forall k :: 0 <= k < SHARDS ==> !HasWork(s.shards[k])
  {
    NoLostWakeUp(s);
    assert !SomeNotifier(s);
    assert forall k :: !Pending(s, k);
  }

  /**
   Exactly once and in order: what was sent on from a shard is the front of what it was given, and
   that is what its producer's calls returned true for, plus the call that is about to.
   */
  lemma {:induction false} SentIsWhatWasAccepted(s: Publisher, t: Thread)
    requires Safe(s) && ShardOf(s, t).Some?
    ensures ShardOf(s, t).value < SHARDS
    ensures var k := ShardOf(s, t).value;
      && s.shards[k].pushed == SenderOf(s, t).accepted + InFlight(SenderOf(s, t))
      && Of(s.log, k) == s.shards[k].pushed[..s.shards[k].taken]
  {
  }

  /** When the publisher thread has exited, everything given before stop began has been sent on. */
  lemma {:induction false} DrainedOnExit(s: Publisher, k: nat)
    requires Safe(s) && s.consumer.Finished? && k < SHARDS
    ensures |s.atStop| == SHARDS && s.atStop[k] <= Of(s.log, k)
  {
  }

  /** And from then on nothing is pushed any more: what is left in a queue stays there. */
  lemma {:induction false} NothingPushedAfterExit(s: Publisher, t: Thread, datagram: Datagram)
    requires Safe(s) && s.consumer.Finished?
    ensures SenderInRange(SenderOf(s, t))
    ensures var s' := SenderStep(s, t, datagram);
      s'.consumer.Finished? && forall k :: 0 <= k < SHARDS ==> s'.shards[k].pushed == s.shards[k].pushed && s'.shards[k].taken == s.shards[k].taken
  {
    hide Accounts, Flags, Occupied, WorkIsSignalled;
  }
}
