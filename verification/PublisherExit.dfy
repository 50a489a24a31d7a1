/**
 What stop promises to sends that overlap it: exactly when no call is between its running test and
 its push, everything accepted is sent on before the publisher thread exits.
 */
module PublisherExits {
  import opened ExchangeTypes
  import opened Publishers
  import opened PublisherLaws

  // ---- Runs ----------------------------------------------------------------------------------------

  lemma {:induction false} RunConcat(s: Publisher, xs: seq<Action>, ys: seq<Action>)
    requires Shape(s)
    ensures Run(s, xs + ys) == Run(Run(s, xs), ys)
    decreases |xs|
  {
    hide Do, Shape;
    if xs == [] {
      assert xs + ys == ys;
    } else {
      StepKeepsShape(s, xs[0]);
      RunConcat(Do(s, xs[0]), xs[1..], ys);
      assert (xs + ys)[1..] == xs[1..] + ys;
    }
  }

  lemma RunOne(s: Publisher, action: Action)
    requires Shape(s)
    ensures Run(s, [action]) == Do(s, action)
  {
    assert [action][1..] == [];
  }

  // The publisher thread alone, n steps.
  function Publishes(n: nat): seq<Action> {
    if n == 0 then [] else [Publish] + Publishes(n - 1)
  }

  lemma {:induction false} PublishFirst(s: Publisher, n: nat)
    requires Shape(s) && n > 0
    ensures Shape(ConsumerStep(s)) && Run(s, Publishes(n)) == Run(ConsumerStep(s), Publishes(n - 1))
  {
    ConsumerStepShape(s);
    assert Publishes(n)[1..] == Publishes(n - 1);
  }

  // One thread alone, n steps of its call.
  function Sends(t: Thread, n: nat): seq<Action> {
    if n == 0 then [] else [Send(t, [])] + Sends(t, n - 1)
  }

  lemma {:induction false} SendFirst(s: Publisher, t: Thread, n: nat)
    requires Shape(s) && n > 0
    ensures SenderInRange(SenderOf(s, t)) && Shape(SenderStep(s, t, []))
    ensures Run(s, Sends(t, n)) == Run(SenderStep(s, t, []), Sends(t, n - 1))
  {
    SenderStepShape(s, t, []);
    assert Sends(t, n)[1..] == Sends(t, n - 1);
  }

  lemma {:induction false} NoStarts(t: Thread, n: nat)
    ensures Start !in Sends(t, n) && Start !in Publishes(n)
  {
    if n > 0 {
      NoStarts(t, n - 1);
    }
  }

  // ---- The promise ---------------------------------------------------------------------------------

  // Everything that went into a queue was sent on.
  ghost predicate AllSent(s: Publisher)
    requires |s.shards| == SHARDS
  {
    forall k :: 0 <= k < SHARDS ==> Of(s.log, k) == s.shards[k].pushed
  }

  function AfterStop(s: Publisher, actions: seq<Action>): Publisher
    requires Shape(s)
  {
    Run(s, [Stop] + actions)
  }

  // Whatever happens once stop begins here, the publisher thread leaves nothing behind.
  ghost predicate StopDrains(s: Publisher)
    requires Shape(s)
  {
    forall actions :: Start !in actions && AfterStop(s, actions).consumer.Finished? ==> AllSent(AfterStop(s, actions))
  }

  // ---- No call about to push -----------------------------------------------------------------------

  // The queues have all they will ever have.
  ghost predicate NothingComes(s: Publisher)
    requires |s.shards| == SHARDS
  {
    && !s.running && |s.atStop| == SHARDS
    && (forall t :: !SenderOf(s, t).at.Pushing?)
    && forall k :: 0 <= k < SHARDS ==> s.shards[k].pushed == s.atStop[k]
  }

  lemma {:induction false} MovePushesNothing(s: Publisher, me: Sender, mine: Shard, datagram: Datagram)
    requires !s.running && !me.at.Pushing?
    ensures var move := SenderMove(s, me, mine, datagram);
      move.mine.pushed == mine.pushed && !move.me.at.Pushing?
  {
  }

  lemma {:induction false} SenderPushesNothing(s: Publisher, t: Thread, datagram: Datagram)
    requires Shape(s) && NothingComes(s)
    ensures SenderInRange(SenderOf(s, t))
    ensures |SenderStep(s, t, datagram).shards| == SHARDS && NothingComes(SenderStep(s, t, datagram))
  {
    hide SenderMove, ShardInRange, SendersInRange;
    var me := SenderOf(s, t);
    SenderStepShape(s, t, datagram);
    MovePushesNothing(s, me, Mine(s, me), datagram);
    var s' := SenderStep(s, t, datagram);
    assert forall u :: u != t ==> SenderOf(s', u) == SenderOf(s, u);
  }

  lemma {:induction false} StepPushesNothing(s: Publisher, action: Action)
    requires Safe(s) && NothingComes(s) && !action.Start?
    ensures Shape(Do(s, action)) && NothingComes(Do(s, action))
  {
    hide OneProducer, Accounts, Flags, Occupied, WorkIsSignalled, Leaving, InOrder, SenderStep, ConsumerStep;
    StepKeepsShape(s, action);
    match action
    case Send(t, datagram) => SenderPushesNothing(s, t, datagram);
    case Publish =>
      ConsumerFrame(s);
      assert forall t :: SenderOf(ConsumerStep(s), t) == SenderOf(s, t);
    case Stop =>
      assert forall t :: SenderOf(StopStep(s), t) == SenderOf(s, t);
  }

  lemma {:induction false} RunPushesNothing(s: Publisher, actions: seq<Action>)
    requires Safe(s) && NothingComes(s) && Start !in actions
    ensures NothingComes(Run(s, actions))
    decreases |actions|
  {
    hide Do, Safe, NothingComes;
    if actions != [] {
      SafeHasShape(s);
      StepPushesNothing(s, actions[0]);
      StepKeepsSafe(s, actions[0]);
      RunPushesNothing(Do(s, actions[0]), actions[1..]);
    }
  }

  lemma SafeHasShape(s: Publisher)
    requires Safe(s)
    ensures Shape(s)
  {
  }

  lemma {:induction false} ExitWithNothingComing(s: Publisher)
    requires Safe(s) && NothingComes(s) && s.consumer.Finished?
    ensures AllSent(s)
  {
    hide OneProducer, Accounts, Flags, Occupied, WorkIsSignalled, Of;
    forall k | 0 <= k < SHARDS
      ensures Of(s.log, k) == s.shards[k].pushed
    {
      assert ShardInRange(s.shards[k]);
      assert s.shards[k].pushed[..s.shards[k].taken] == s.shards[k].pushed;
    }
  }

  /** Half of it: when stop begins and no call is about to push, every way out leaves the queues drained. */
  lemma {:induction false} StopDrainsWithoutPushers(s: Publisher)
    requires Safe(s) && s.running && forall t :: !SenderOf(s, t).at.Pushing?
    ensures StopDrains(s)
  {
    hide Safe, NothingComes, AllSent;
    SafeHasShape(s);
    var stopped := Do(s, Stop);
    StepKeepsSafe(s, Stop);
    StopLeavesNothingComing(s);
    forall actions | Start !in actions && AfterStop(s, actions).consumer.Finished?
      ensures AllSent(AfterStop(s, actions))
    {
      assert ([Stop] + actions)[1..] == actions;
      RunPushesNothing(stopped, actions);
      RunKeepsSafe(stopped, actions);
      ExitWithNothingComing(Run(stopped, actions));
    }
  }

  lemma StopLeavesNothingComing(s: Publisher)
    requires Safe(s) && s.running && forall t :: !SenderOf(s, t).at.Pushing?
    ensures NothingComes(StopStep(s)) && Do(s, Stop) == StopStep(s)
  {
    assert forall t :: SenderOf(StopStep(s), t) == SenderOf(s, t);
  }

  // ---- The other calls step aside ------------------------------------------------------------------

  // The calls of other threads that show their flag.
  ghost function Busy(s: Publisher, t: Thread): set<Thread> {
    set u | u in s.senders && u != t && MayPush(s.senders[u])
  }

  // As far as thread t and the publisher thread are concerned, nothing has happened.
  ghost predicate Aside(s: Publisher, s': Publisher, t: Thread) {
    && SenderOf(s', t) == SenderOf(s, t)
    && s'.consumer == s.consumer && s'.wake == s.wake && s'.running == s.running && s'.stopper == s.stopper
  }

  lemma {:induction false} MoveStepsAside(s: Publisher, me: Sender, mine: Shard)
    requires !s.running && (MayPush(me) || me.at.Idle? || me.at.Testing?)
    ensures var move := SenderMove(s, me, mine, []);
      && move.wake == s.wake
      && (me.at.Rechecking? || me.at.Pushing? ==> move.me.at.Withdrawing? || move.me.at.Deactivating?)
      && (!me.at.Rechecking? && !me.at.Pushing? ==> !MayPush(move.me))
      && (me.at.Withdrawing? || me.at.Deactivating? ==> move.me.at.Idle? || move.me.at.Testing?)
  {
  }

  lemma {:induction false} StepAside(s: Publisher, u: Thread)
    requires Shape(s) && !s.running
    requires var me := SenderOf(s, u); MayPush(me) || me.at.Idle? || me.at.Testing?
    ensures SenderInRange(SenderOf(s, u))
    ensures var s' := SenderStep(s, u, []);
      var me, me' := SenderOf(s, u), SenderOf(s', u);
      && (forall v :: v != u ==> Aside(s, s', v))
      && s'.senders.Keys == s.senders.Keys + {u}
      && (me.at.Rechecking? || me.at.Pushing? ==> me'.at.Withdrawing? || me'.at.Deactivating?)
      && (!me.at.Rechecking? && !me.at.Pushing? ==> !MayPush(me'))
      && (me.at.Withdrawing? || me.at.Deactivating? ==> me'.at.Idle? || me'.at.Testing?)
  {
    hide SenderMove, ShardInRange, SendersInRange;
    SenderStepShape(s, u, []);
    MoveStepsAside(s, SenderOf(s, u), Mine(s, SenderOf(s, u)));
  }

  // Two steps take any such call off its queue.
  lemma {:induction false} TwoStepsAside(s: Publisher, u: Thread)
    requires Shape(s) && !s.running && MayPush(SenderOf(s, u))
    ensures var s' := Run(s, Sends(u, 2));
      && (forall v :: v != u ==> Aside(s, s', v))
      && s'.senders.Keys == s.senders.Keys && !MayPush(SenderOf(s', u))
  {
    hide SenderStep, SendersInRange, ShardInRange, Run;
    SendFirst(s, u, 2);
    StepAside(s, u);
    var s1 := SenderStep(s, u, []);
    SendFirst(s1, u, 1);
    StillStopped(s, s1, u);
    StepAside(s1, u);
    var s2 := SenderStep(s1, u, []);
    RunNone(s2);
    forall v | v != u
      ensures Aside(s, s2, v)
    {
      assert Aside(s, s1, v) && Aside(s1, s2, v);
    }
    assert u in s.senders;
  }

  lemma StillStopped(s: Publisher, s1: Publisher, u: Thread)
    requires forall v :: v != u ==> Aside(s, s1, v)
    ensures s1.running == s.running
  {
    assert Aside(s, s1, u + 1);
  }

  lemma {:induction false} OthersStepAside(s: Publisher, t: Thread) returns (actions: seq<Action>)
    requires Safe(s) && !s.running
    ensures Start !in actions && Shape(s)
    ensures var s' := Run(s, actions); Safe(s') && Aside(s, s', t) && Busy(s', t) == {}
    decreases |Busy(s, t)|
  {
    hide Safe, MayPush, Run;
    SafeHasShape(s);
    if Busy(s, t) == {} {
      actions := [];
      assert Run(s, []) == s by { RunNone(s); }
    } else {
      var u :| u in Busy(s, t);
      TwoStepsAside(s, u);
      RunKeepsSafe(s, Sends(u, 2));
      var s' := Run(s, Sends(u, 2));
      assert Aside(s, s', t);
      forall v
        ensures v in Busy(s', t) <==> v in Busy(s, t) && v != u
      {
        if v != u {
          assert Aside(s, s', v) && SenderOf(s', v) == SenderOf(s, v);
        }
        assert SenderOf(s', v) == if v in s'.senders then s'.senders[v] else NEW_SENDER;
      }
      assert Busy(s', t) == Busy(s, t) - {u};
      var later := OthersStepAside(s', t);
      actions := Sends(u, 2) + later;
      NoStarts(u, 2);
      RunConcat(s, Sends(u, 2), later);
    }
  }

  lemma RunNone(s: Publisher)
    requires Shape(s)
    ensures Run(s, []) == s
  {
  }

  // Then nobody but t shows a flag.
  lemma {:induction false} OnlyMineIsUp(s: Publisher, t: Thread)
    requires Safe(s) && Busy(s, t) == {}
    ensures forall k :: 0 <= k < SHARDS && s.shards[k].active ==> Occupies(SenderOf(s, t), k)
  {
    hide OneProducer, Accounts, Flags, WorkIsSignalled, SleepIsSafe, Leaving, InOrder;
    forall k | 0 <= k < SHARDS && s.shards[k].active
      ensures Occupies(SenderOf(s, t), k)
    {
      var u :| Occupies(SenderOf(s, u), k);
      assert u != t ==> u in Busy(s, t);
    }
  }

  // ---- The publisher thread alone ------------------------------------------------------------------

  // How many datagrams are queued.
  function Backlog(shards: seq<Shard>): nat {
    if shards == [] then 0
    else (if HasWork(shards[0]) then |shards[0].pushed| - shards[0].taken else 0) + Backlog(shards[1..])
  }

  lemma {:induction false} BacklogFalls(shards: seq<Shard>, k: nat)
    requires k < |shards| && HasWork(shards[k])
    ensures Backlog(shards[k := shards[k].(taken := shards[k].taken + 1)]) + 1 == Backlog(shards)
  {
    var shards' := shards[k := shards[k].(taken := shards[k].taken + 1)];
    if k == 0 {
      assert shards'[1..] == shards[1..];
    } else {
      BacklogFalls(shards[1..], k - 1);
      assert shards'[1..] == shards[1..][k - 1 := shards[k].(taken := shards[k].taken + 1)];
    }
  }

  ghost predicate NoWork(shards: seq<Shard>) {
    forall k :: 0 <= k < |shards| ==> !HasWork(shards[k])
  }

  // On its way out, and not yet past its look at the queues.
  ghost predicate Settling(s: Publisher) {
    && Shape(s) && !s.running
    && !s.consumer.CheckingSenders? && !s.consumer.Asleep? && !s.consumer.Finished?
    && (s.consumer.Waiting? ==> s.wake)
    && (s.consumer.CheckingQueues? ==> forall k :: 0 <= k < s.consumer.next && k < |s.shards| ==> !HasWork(s.shards[k]))
  }

  ghost predicate Settled(s: Publisher) {
    Shape(s) && s.consumer == CheckingSenders(0) && NoWork(s.shards)
  }

  // How many shards a scan looks at before this one.
  function After(cursor: nat, k: nat): int {
    if k >= cursor then k - cursor else k + SHARDS - cursor
  }

  // The scan has overlooked nothing.
  ghost predicate Thorough(s: Publisher)
    requires Shape(s)
  {
    match s.consumer
    case Scanning(offset) => forall k :: 0 <= k < SHARDS && After(s.cursor, k) < offset ==> !HasWork(s.shards[k])
    case Scanned => NoWork(s.shards)
    case CheckingQueues(_) => NoWork(s.shards)
    case _ => false
  }

  // How far the publisher thread is from the end of its round.
  function Rank(at: ConsumerAt): nat
    requires ConsumerInRange(at)
  {
    match at
    case Arming => 5 * SHARDS
    case Rescanning(next) => 5 * SHARDS - 1 - next
    case RecheckingRunning => 3 * SHARDS
    case Waiting => 3 * SHARDS
    case Scanning(offset) => 2 * SHARDS + 3 - offset
    case Scanned => SHARDS + 2
    case CheckingQueues(next) => SHARDS + 1 - next
    case _ => 0
  }

  // The measure of a round: rounds that overlook something are followed by one that does not.
  ghost function ToGo(s: Publisher): nat
    requires Shape(s)
  {
    Rank(s.consumer) + if Thorough(s) then 0 else 10 * SHARDS
  }

  lemma AtOffset(cursor: nat, offset: nat, k: nat)
    requires cursor < SHARDS && offset < SHARDS && k < SHARDS
    ensures k == (cursor + offset) % SHARDS <==> After(cursor, k) == offset
  {
    if cursor + offset < SHARDS {
      assert (cursor + offset) % SHARDS == cursor + offset;
    } else {
      assert (cursor + offset) % SHARDS == cursor + offset - SHARDS;
    }
  }

  lemma {:induction false} RoundIsThorough(s: Publisher)
    requires Shape(s) && s.consumer == Scanning(SHARDS) && Thorough(s)
    ensures NoWork(s.shards)
  {
    forall k | 0 <= k < |s.shards|
      ensures !HasWork(s.shards[k])
    {
      assert After(s.cursor, k) < SHARDS;
    }
  }

  lemma {:induction false} PassedOne(s: Publisher, k: nat)
    requires Shape(s) && s.consumer.Scanning? && s.consumer.offset < SHARDS && Thorough(s)
    requires k == (s.cursor + s.consumer.offset) % SHARDS && !HasWork(s.shards[k])
    ensures Shape(s.(consumer := Scanning(s.consumer.offset + 1))) && Thorough(s.(consumer := Scanning(s.consumer.offset + 1)))
  {
    forall i | 0 <= i < SHARDS && After(s.cursor, i) < s.consumer.offset + 1
      ensures !HasWork(s.shards[i])
    {
      AtOffset(s.cursor, s.consumer.offset, i);
    }
  }

  // Something to send is found: one datagram fewer.
  lemma {:induction false} TakeSettles(s: Publisher)
    requires Settling(s) && s.consumer.Scanning? && s.consumer.offset < SHARDS
    requires HasWork(s.shards[(s.cursor + s.consumer.offset) % SHARDS])
    ensures Settling(ConsumerStep(s)) && Backlog(ConsumerStep(s).shards) < Backlog(s.shards)
  {
    hide SendersInRange, ShardInRange, HasWork;
    ConsumerStepShape(s);
    BacklogFalls(s.shards, (s.cursor + s.consumer.offset) % SHARDS);
  }

  // Nothing found: the scan goes on, or ends having overlooked as little as before.
  lemma {:induction false} PassSettles(s: Publisher)
    requires Settling(s) && s.consumer.Scanning?
    requires s.consumer.offset < SHARDS ==> !HasWork(s.shards[(s.cursor + s.consumer.offset) % SHARDS])
    ensures var s' := ConsumerStep(s); Settling(s') && s'.shards == s.shards && ToGo(s') < ToGo(s)
  {
    hide SendersInRange, ShardInRange, HasWork;
    ConsumerStepShape(s);
    if s.consumer.offset < SHARDS {
      if Thorough(s) {
        PassedOne(s, (s.cursor + s.consumer.offset) % SHARDS);
      }
    } else if Thorough(s) {
      RoundIsThorough(s);
    }
  }

  lemma {:induction false} OtherStepsSettle(s: Publisher)
    requires Settling(s) && !s.consumer.Scanning?
    ensures var s' := ConsumerStep(s);
      && s'.shards == s.shards
      && (Settled(s') || (Settling(s') && ToGo(s') < ToGo(s)))
  {
    ConsumerStepShape(s);
  }

  // What the publisher thread leaves alone meanwhile.
  predicate OnlyTaken(s: Publisher, s': Publisher) {
    && s'.senders == s.senders && s'.generation == s.generation
    && s'.running == s.running && s'.stopper == s.stopper
    && |s'.shards| == |s.shards| && forall k :: 0 <= k < |s.shards| ==> s'.shards[k].active == s.shards[k].active
  }

  lemma {:induction false} Settles(s: Publisher) returns (n: nat)
    requires Settling(s)
    ensures var s' := Run(s, Publishes(n)); Settled(s') && OnlyTaken(s, s')
    decreases Backlog(s.shards), ToGo(s)
  {
    hide Run, ToGo, Settled;
    var s1 := ConsumerStep(s);
    PublishFirst(s, 1);
    ConsumerFrame(s);
    if s.consumer.Scanning? {
      if s.consumer.offset < SHARDS && HasWork(s.shards[(s.cursor + s.consumer.offset) % SHARDS]) {
        TakeSettles(s);
      } else {
        PassSettles(s);
      }
    } else {
      OtherStepsSettle(s);
    }
    RunNone(s1);
    if Settled(s1) {
      n := 1;
    } else {
      var later := Settles(s1);
      n := later + 1;
      PublishFirst(s, n);
    }
  }

  lemma {:induction false} SendersFoundIdle(s: Publisher, n: nat)
    requires Shape(s) && n <= SHARDS && s.consumer == CheckingSenders(SHARDS - n)
    requires forall k :: 0 <= k < SHARDS ==> !s.shards[k].active
    ensures Run(s, Publishes(n + 1)) == s.(consumer := Finished)
    decreases n
  {
    PublishFirst(s, n + 1);
    if n == 0 {
      RunNone(ConsumerStep(s));
    } else {
      SendersFoundIdle(ConsumerStep(s), n - 1);
    }
  }

  // ---- The call about to push ----------------------------------------------------------------------

  // It finds room, pushes, and takes its flag down; then nothing stands between the publisher
  // thread and its exit.
  lemma {:induction false} PushesLate(s: Publisher, t: Thread)
    requires Shape(s) && s.consumer == CheckingSenders(0) && NoWork(s.shards) && SenderOf(s, t).at.Pushing?
    requires forall k :: 0 <= k < SHARDS && s.shards[k].active ==> Occupies(SenderOf(s, t), k)
    ensures var s', me := Run(s, Sends(t, 2)), SenderOf(s, t);
      && s'.consumer == s.consumer && s'.running == s.running && s'.log == s.log && s'.generation == s.generation
      && SenderOf(s', t) == me.(at := Testing(me.at.shard))
      && forall k :: 0 <= k < SHARDS ==> !s'.shards[k].active
  {
    hide SendersInRange, Run;
    var me := SenderOf(s, t);
    var k := me.at.shard;
    SendFirst(s, t, 2);
    assert !HasWork(s.shards[k]) && ShardInRange(s.shards[k]);
    var s1 := SenderStep(s, t, []);
    assert SenderOf(s1, t) == me.(at := Deactivating(k, true));
    SendFirst(s1, t, 1);
    RunNone(SenderStep(s1, t, []));
  }

  // Its answer is true whatever the wake flag.
  lemma {:induction false} AnswersLate(s: Publisher, t: Thread)
    requires Shape(s) && s.consumer.Finished? && !s.running && SenderOf(s, t).at.Testing?
    ensures var s', me := Run(s, Sends(t, 3)), SenderOf(s, t);
      && s'.consumer.Finished? && s'.log == s.log && s'.generation == s.generation
      && SenderOf(s', t) == Returned(me)
  {
    hide ShardInRange, SendersInRange, Run;
    SendFirst(s, t, 3);
    var s1 := SenderStep(s, t, []);
    SendFirst(s1, t, 2);
    var s2 := SenderStep(s1, t, []);
    SendFirst(s2, t, 1);
    RunNone(SenderStep(s2, t, []));
  }

  // Three steps of stop: the thread in its sleep is woken and on its way out.
  lemma {:induction false} Stopped(s: Publisher)
    requires Safe(s) && s.running
    ensures Shape(s)
    ensures var s' := Run(s, [Stop, Stop, Stop]);
      && Settling(s') && Safe(s')
      && s'.senders == s.senders && s'.log == s.log
  {
    hide OneProducer, Accounts, Flags, Occupied, WorkIsSignalled, InOrder, Run;
    RunConcat(s, [Stop], [Stop, Stop]);
    assert [Stop] + [Stop, Stop] == [Stop, Stop, Stop];
    RunOne(s, Stop);
    var s1 := StopStep(s);
    RunConcat(s1, [Stop], [Stop]);
    assert [Stop] + [Stop] == [Stop, Stop];
    RunOne(s1, Stop);
    var s2 := StopStep(s1);
    RunOne(s2, Stop);
    RunKeepsSafe(s, [Stop, Stop, Stop]);
  }

  lemma AsideSettles(s: Publisher, s': Publisher, t: Thread)
    requires Settling(s) && !s.consumer.CheckingQueues? && Aside(s, s', t) && Shape(s')
    ensures Settling(s')
  {
  }

  /**
   The other half: whenever stop begins while a call is about to push, there is a way on in which
   that call answers true and its datagram is never sent. The exit test reads the queues before the
   senders' flags, and the push falls between the two.
   */
  lemma {:induction false} LateSendIsLost(s: Publisher, t: Thread) returns (actions: seq<Action>)
    requires Safe(s) && s.running && SenderOf(s, t).at.Pushing?
    ensures Start !in actions && Shape(s)
    ensures var s', me := AfterStop(s, actions), SenderOf(s, t);
      && Safe(s') && s'.consumer.Finished?
      && SenderOf(s', t) == Returned(me)
      && ShardOf(s', t) == Some(me.at.shard) && me.at.shard < SHARDS
      && Of(s'.log, me.at.shard) == me.accepted
      && s'.shards[me.at.shard].pushed == me.accepted + [me.datagram]
  {
    hide Safe, Settling, Run, Busy;
    var toSenders, ready := ReadyToExit(s, t);
    var late := Sends(t, 2) + Publishes(SHARDS + 1) + Sends(t, 3);
    actions := [Stop, Stop] + toSenders + late;
    NoStarts(t, 2);
    NoStarts(t, 3);
    NoStarts(t, SHARDS + 1);
    SafeHasShape(s);
    SafeHasShape(ready);
    assert [Stop] + actions == [Stop, Stop, Stop] + toSenders + late;
    RunConcat(s, [Stop, Stop, Stop] + toSenders, late);
    assert AfterStop(s, actions) == Run(ready, late);
    LosesLate(ready, t);
  }

  // The publisher thread has found every queue empty, and only this call is in its way.
  lemma {:induction false} ReadyToExit(s: Publisher, t: Thread) returns (actions: seq<Action>, ready: Publisher)
    requires Safe(s) && s.running && SenderOf(s, t).at.Pushing?
    ensures Start !in actions && Shape(s)
    ensures ready == Run(s, [Stop, Stop, Stop] + actions) && Safe(ready) && Settled(ready) && !ready.running
    ensures SenderOf(ready, t) == SenderOf(s, t) && Busy(ready, t) == {}
  {
    hide Safe, Settling, Settled, Run;
    SafeHasShape(s);
    Stopped(s);
    var stopped := Run(s, [Stop, Stop, Stop]);
    NotCheckingQueues(s);
    var aside := OthersStepAside(stopped, t);
    var alone := Run(stopped, aside);
    SafeHasShape(alone);
    AsideSettles(stopped, alone, t);
    var n := Settles(alone);
    ready := Run(alone, Publishes(n));
    RunKeepsSafe(alone, Publishes(n));
    actions := aside + Publishes(n);
    NoStarts(t, n);
    RunConcat(stopped, aside, Publishes(n));
    RunConcat(s, [Stop, Stop, Stop], actions);
    assert SenderOf(ready, t) == SenderOf(alone, t) && Busy(ready, t) == Busy(alone, t);
    StoppedMeans(alone);
  }

  lemma StoppedMeans(s: Publisher)
    requires Settling(s)
    ensures !s.running
  {
  }

  // While it runs, the publisher thread is not on its way out.
  lemma {:induction false} NotCheckingQueues(s: Publisher)
    requires Safe(s) && s.running
    ensures Shape(s) && !Run(s, [Stop, Stop, Stop]).consumer.CheckingQueues?
    ensures !Run(s, [Stop, Stop, Stop]).running
  {
    hide OneProducer, Accounts, Flags, Occupied, WorkIsSignalled, InOrder, Run;
    Stopped(s);
    RunConcat(s, [Stop], [Stop, Stop]);
    assert [Stop] + [Stop, Stop] == [Stop, Stop, Stop];
    RunOne(s, Stop);
    var s1 := StopStep(s);
    RunConcat(s1, [Stop], [Stop]);
    assert [Stop] + [Stop] == [Stop, Stop];
    RunOne(s1, Stop);
    RunOne(StopStep(s1), Stop);
  }

  lemma {:induction false} LosesLate(s: Publisher, t: Thread)
    requires Safe(s) && Settled(s) && !s.running && SenderOf(s, t).at.Pushing? && Busy(s, t) == {}
    ensures Shape(s)
    ensures var s', me := Run(s, Sends(t, 2) + Publishes(SHARDS + 1) + Sends(t, 3)), SenderOf(s, t);
      && Safe(s') && s'.consumer.Finished?
      && SenderOf(s', t) == Returned(me)
      && ShardOf(s', t) == Some(me.at.shard) && me.at.shard < SHARDS
      && Of(s'.log, me.at.shard) == me.accepted
      && s'.shards[me.at.shard].pushed == me.accepted + [me.datagram]
  {
    hide Safe, Run, Busy, Of;
    SafeHasShape(s);
    OnlyMineIsUp(s, t);
    PushesLate(s, t);
    var pushed := Run(s, Sends(t, 2));
    SendersFoundIdle(pushed, SHARDS);
    var finished := pushed.(consumer := Finished);
    AnswersLate(finished, t);
    RunConcat(s, Sends(t, 2), Publishes(SHARDS + 1));
    RunConcat(s, Sends(t, 2) + Publishes(SHARDS + 1), Sends(t, 3));
    var actions := Sends(t, 2) + Publishes(SHARDS + 1) + Sends(t, 3);
    RunKeepsSafe(s, actions);
    var s' := Run(s, actions);
    SentBefore(s, t);
    KeepsShard(s, s', t);
  }

  // With nothing queued, all the call's thread was given before has been sent on.
  lemma {:induction false} SentBefore(s: Publisher, t: Thread)
    requires Safe(s) && NoWork(s.shards) && SenderOf(s, t).at.Pushing?
    ensures var me := SenderOf(s, t);
      me.at.shard < SHARDS && ShardOf(s, t) == Some(me.at.shard) && Of(s.log, me.at.shard) == me.accepted
  {
    hide Flags, Occupied, WorkIsSignalled, SleepIsSafe, Leaving, Of;
    var me := SenderOf(s, t);
    var k := me.at.shard;
    assert OnShard(me) && ShardOf(s, t) == Some(k) && k < s.nextShard;
    assert SenderInRange(me);
    assert ShardInRange(s.shards[k]) && !HasWork(s.shards[k]);
    assert s.shards[k].pushed[..s.shards[k].taken] == s.shards[k].pushed;
  }

  lemma {:induction false} KeepsShard(s: Publisher, s': Publisher, t: Thread)
    requires Safe(s) && Safe(s') && SenderOf(s, t).at.Pushing? && SenderOf(s', t) == Returned(SenderOf(s, t))
    requires s'.generation == s.generation && SenderOf(s, t).at.shard < SHARDS
    requires ShardOf(s, t) == Some(SenderOf(s, t).at.shard)
    ensures ShardOf(s', t) == ShardOf(s, t)
    ensures s'.shards[SenderOf(s, t).at.shard].pushed == SenderOf(s, t).accepted + [SenderOf(s, t).datagram]
  {
    hide Flags, Occupied, WorkIsSignalled, SleepIsSafe, Leaving, InOrder, OneProducer;
  }

  // What a thread's step does to itself, and what it leaves alone.
  lemma {:induction false} SendShows(s: Publisher, t: Thread, datagram: Datagram)
    requires Shape(s)
    ensures SenderInRange(SenderOf(s, t)) && Shape(SenderStep(s, t, datagram))
    ensures var s', move := SenderStep(s, t, datagram), SenderMove(s, SenderOf(s, t), Mine(s, SenderOf(s, t)), datagram);
      SenderOf(s', t) == move.me && s'.nextShard == move.nextShard && s'.running == s.running && s'.generation == s.generation
  {
    hide SenderMove;
    SenderStepShape(s, t, datagram);
  }

  /** Such calls are reached: by any datagram of a thread's first call, for one. */
  lemma {:induction false} PushIsReached(datagram: Datagram)
    requires 0 < |datagram| <= MAXIMUM_DATAGRAM_SIZE
    ensures Shape(START_STATE)
    ensures var s := Run(START_STATE, [Send(0, datagram)] + Sends(0, 4));
      Safe(s) && s.running && SenderOf(s, 0) == Sender(Some(Registration(1, 0)), Pushing(0), datagram, [])
  {
    hide SenderStep, Safe, Run, Mine, START_STATE, SendersInRange, ShardInRange, ConsumerInRange;
    StartShows();
    EveryRunIsSafe([Send(0, datagram)] + Sends(0, 4));
    var s0 := START_STATE;
    SendShows(s0, 0, datagram);
    RunConcat(s0, [Send(0, datagram)], Sends(0, 4));
    RunOne(s0, Send(0, datagram));
    DoSend(s0, 0, datagram);
    var s1 := SenderStep(s0, 0, datagram);
    SendFirst(s1, 0, 4);
    SendShows(s1, 0, []);
    var s2 := SenderStep(s1, 0, []);
    SendFirst(s2, 0, 3);
    SendShows(s2, 0, []);
    var s3 := SenderStep(s2, 0, []);
    SendFirst(s3, 0, 2);
    SendShows(s3, 0, []);
    var s4 := SenderStep(s3, 0, []);
    SendFirst(s4, 0, 1);
    SendShows(s4, 0, []);
    RunNone(SenderStep(s4, 0, []));
  }

  lemma StartShows()
    ensures SenderOf(START_STATE, 0) == NEW_SENDER
    ensures START_STATE.running && START_STATE.generation == 1 && START_STATE.nextShard == 0
  {
  }

  lemma DoSend(s: Publisher, t: Thread, datagram: Datagram)
    requires Shape(s)
    ensures SenderInRange(SenderOf(s, t)) && Do(s, Send(t, datagram)) == SenderStep(s, t, datagram)
  {
    SenderStepShape(s, t, datagram);
  }

  /**
   Exactly what stop promises: in every way on from here everything that went into a queue is sent
   on before the publisher thread exits, if and only if no call is between its running test and its push.
   */
  lemma {:induction false} StopDrainsExactly(s: Publisher)
    requires Safe(s) && s.running
    ensures Shape(s)
    ensures StopDrains(s) <==> forall t :: !SenderOf(s, t).at.Pushing?
  {
    hide Safe, Of;
    SafeHasShape(s);
    if forall t :: !SenderOf(s, t).at.Pushing? {
      StopDrainsWithoutPushers(s);
    } else {
      var t :| SenderOf(s, t).at.Pushing?;
      var actions := LateSendIsLost(s, t);
      var s' := AfterStop(s, actions);
      var k := SenderOf(s, t).at.shard;
      assert Of(s'.log, k) != s'.shards[k].pushed;
      assert !AllSent(s');
    }
  }
}
