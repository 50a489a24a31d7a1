/** A call of send from its beginning to its return, when nobody else moves meanwhile. */
module PublisherSends {
  import opened ExchangeTypes
  import opened Publishers

  // That many steps of one thread.
  function Steps(s: Publisher, t: Thread, datagram: Datagram, n: nat): (s': Publisher)
    requires Shape(s)
    ensures Shape(s')
    decreases n
  {
    if n == 0 then s
    else
      StepKeepsShape(s, Send(t, datagram));
      Steps(SenderStep(s, t, datagram), t, datagram, n - 1)
  }

  // Everything but the thread, its shard, the wake flag, the draw and the sleeping thread is as it was.
  ghost predicate Elsewhere(s: Publisher, s': Publisher, t: Thread, k: nat) {
    && s' == s.(senders := s'.senders, shards := s'.shards, wake := s'.wake, nextShard := s'.nextShard, consumer := s'.consumer)
    && (forall u :: u != t ==> SenderOf(s', u) == SenderOf(s, u))
    && |s'.shards| == |s.shards| && (forall j :: 0 <= j < |s.shards| && j != k ==> s'.shards[j] == s.shards[j])
  }

  lemma {:induction false} OneStep(s: Publisher, t: Thread, datagram: Datagram, k: nat)
    requires Shape(s) && k < |s.shards| && (OnShard(SenderOf(s, t)) ==> SenderOf(s, t).at.shard == k)
    ensures SenderInRange(SenderOf(s, t)) && |s.shards| == SHARDS
    ensures var me := SenderOf(s, t);
      var move := SenderMove(s, me, Mine(s, me), datagram);
      var s' := SenderStep(s, t, datagram);
      && Shape(s') && Elsewhere(s, s', t, k)
      && SenderOf(s', t) == move.me && s'.wake == move.wake && s'.nextShard == move.nextShard
      && s'.shards[k] == (if OnShard(me) then move.mine else s.shards[k])
  {
    hide SenderMove, Shape;
    StepKeepsShape(s, Send(t, datagram));
    ShapeMeans(s);
  }

  lemma ShapeMeans(s: Publisher)
    requires Shape(s)
    ensures |s.shards| == SHARDS
  {
  }

  lemma ElsewhereAgain(a: Publisher, b: Publisher, c: Publisher, t: Thread, k: nat)
    requires Elsewhere(a, b, t, k) && Elsewhere(b, c, t, k)
    ensures Elsewhere(a, c, t, k)
  {
    forall u | u != t ensures SenderOf(c, u) == SenderOf(a, u) {
      assert SenderOf(c, u) == SenderOf(b, u);
    }
  }

  lemma {:induction false} StepsInTwo(s: Publisher, t: Thread, datagram: Datagram, m: nat, n: nat)
    requires Shape(s)
    ensures Steps(s, t, datagram, m + n) == Steps(Steps(s, t, datagram, m), t, datagram, n)
    decreases m
  {
    hide Shape, SenderStep;
    if m > 0 {
      ShapeMeans(s);
      StepKeepsShape(s, Send(t, datagram));
      StepsInTwo(SenderStep(s, t, datagram), t, datagram, m - 1, n);
    }
  }

  // The shard a call will work on: the one registered in this generation, or the next to be drawn.
  function ShardFor(s: Publisher, t: Thread): nat {
    var me := SenderOf(s, t);
    if me.registered.Some? && me.registered.value.generation == s.generation then me.registered.value.shard else s.nextShard
  }

  predicate AlreadyRegistered(s: Publisher, t: Thread) {
    SenderOf(s, t).registered.Some? && SenderOf(s, t).registered.value.generation == s.generation
  }

  // The call has come to its shard.
  ghost predicate Entered(s: Publisher, s': Publisher, t: Thread, datagram: Datagram, k: nat) {
    && Shape(s') && Elsewhere(s, s', t, k) && s'.wake == s.wake && s'.shards == s.shards
    && s'.nextShard == (if AlreadyRegistered(s, t) then s.nextShard else s.nextShard + 1)
    && SenderOf(s', t) == Sender(
         Some(Registration(s.generation, k)), Activating(k), datagram,
         if AlreadyRegistered(s, t) then SenderOf(s, t).accepted else [])
  }

  lemma {:induction false} Entering(s: Publisher, t: Thread, datagram: Datagram) returns (n: nat)
    requires Shape(s) && SenderOf(s, t).at.Idle? && s.running && 0 < |datagram| <= 512
    requires AlreadyRegistered(s, t) || s.nextShard < 256
    ensures ShardFor(s, t) < 256 && n <= 3
    ensures Entered(s, Steps(s, t, datagram, n), t, datagram, ShardFor(s, t))
  {
    hide Shape, SenderStep, Elsewhere;
    var k := ShardFor(s, t);
    RegisteredShard(s, t);
    ShapeMeans(s);
    OneStep(s, t, datagram, k);
    var s1 := SenderStep(s, t, datagram);
    SameWorld(s, s1, t, k);
    OneStep(s1, t, datagram, k);
    var s2 := SenderStep(s1, t, datagram);
    ElsewhereAgain(s, s1, s2, t, k);
    SameWorld(s1, s2, t, k);
    SameWorld(s, s2, t, k);
    if AlreadyRegistered(s, t) {
      n := 2;
      SameShards(s, s2, t, k);
      assert Steps(s1, t, datagram, 1) == Steps(s2, t, datagram, 0);
    } else {
      n := 3;
      OneStep(s2, t, datagram, k);
      var s3 := SenderStep(s2, t, datagram);
      ElsewhereAgain(s, s2, s3, t, k);
      SameShards(s, s3, t, k);
      assert Steps(s1, t, datagram, 2) == Steps(s2, t, datagram, 1) == Steps(s3, t, datagram, 0);
    }
  }

  lemma RegisteredShard(s: Publisher, t: Thread)
    requires Shape(s)
    ensures AlreadyRegistered(s, t) ==> SenderOf(s, t).registered.value.shard < SHARDS
  {
  }

  lemma SameWorld(s: Publisher, s': Publisher, t: Thread, k: nat)
    requires Elsewhere(s, s', t, k)
    ensures s'.running == s.running && s'.generation == s.generation && |s'.shards| == |s.shards|
  {
  }

  lemma SameShards(s: Publisher, s': Publisher, t: Thread, k: nat)
    requires Elsewhere(s, s', t, k) && k < |s.shards| && |s'.shards| == |s.shards| && s'.shards[k] == s.shards[k]
    ensures s'.shards == s.shards
  {
  }

  // From the load that finds the publisher running to the test whether to signal.
  lemma {:induction false} PushesOn(s: Publisher, t: Thread, datagram: Datagram, k: nat)
    requires Shape(s) && k < |s.shards| && SenderOf(s, t).at == Activating(k) && s.running
    ensures var s' := Steps(s, t, datagram, 4);
      var me, mine := SenderOf(s, t), s.shards[k];
      var room := |mine.pushed| < mine.taken + 32;
      && Elsewhere(s, s', t, k) && s'.nextShard == s.nextShard && s'.wake == s.wake && |s'.shards| == |s.shards|
      && SenderOf(s', t) == me.(at := if room then Testing(k) else Idle)
      && s'.shards[k] == Shard(if room then mine.pushed + [me.datagram] else mine.pushed, mine.taken, false)
  {
    hide Shape, SenderStep, Elsewhere;
    OneStep(s, t, datagram, k);
    var s1 := SenderStep(s, t, datagram);
    SameWorld(s, s1, t, k);
    OneStep(s1, t, datagram, k);
    var s2 := SenderStep(s1, t, datagram);
    ElsewhereAgain(s, s1, s2, t, k);
    SameWorld(s, s2, t, k);
    OneStep(s2, t, datagram, k);
    var s3 := SenderStep(s2, t, datagram);
    ElsewhereAgain(s, s2, s3, t, k);
    SameWorld(s, s3, t, k);
    OneStep(s3, t, datagram, k);
    var s4 := SenderStep(s3, t, datagram);
    ElsewhereAgain(s, s3, s4, t, k);
    SameWorld(s, s4, t, k);
    FourSteps(s, t, datagram, s1, s2, s3);
  }

  lemma FourSteps(s: Publisher, t: Thread, datagram: Datagram, s1: Publisher, s2: Publisher, s3: Publisher)
    requires Shape(s) && SenderInRange(SenderOf(s, t)) && |s.shards| == SHARDS && s1 == SenderStep(s, t, datagram)
    requires Shape(s1) && SenderInRange(SenderOf(s1, t)) && |s1.shards| == SHARDS && s2 == SenderStep(s1, t, datagram)
    requires Shape(s2) && SenderInRange(SenderOf(s2, t)) && |s2.shards| == SHARDS && s3 == SenderStep(s2, t, datagram)
    requires Shape(s3) && SenderInRange(SenderOf(s3, t)) && |s3.shards| == SHARDS
    ensures Steps(s, t, datagram, 4) == SenderStep(s3, t, datagram)
  {
    hide Shape, SenderStep;
    StepKeepsShape(s3, Send(t, datagram));
    assert Steps(s3, t, datagram, 1) == Steps(SenderStep(s3, t, datagram), t, datagram, 0);
    assert Steps(s2, t, datagram, 2) == Steps(s3, t, datagram, 1);
    assert Steps(s1, t, datagram, 3) == Steps(s2, t, datagram, 2);
  }

  // The signal: the flag is tested twice, set, and the publisher notified.
  lemma {:induction false} Signalling(s: Publisher, t: Thread, datagram: Datagram, k: nat) returns (n: nat)
    requires Shape(s) && k < |s.shards| && SenderOf(s, t).at == Testing(k)
    ensures n <= 3
    ensures var s' := Steps(s, t, datagram, n);
      var me := SenderOf(s, t);
      && Elsewhere(s, s', t, k) && s'.nextShard == s.nextShard && s'.wake && |s'.shards| == |s.shards|
      && SenderOf(s', t) == me.(at := Idle, accepted := me.accepted + [me.datagram])
      && s'.shards[k] == s.shards[k]
  {
    hide Shape, SenderStep, Elsewhere;
    OneStep(s, t, datagram, k);
    var s1 := SenderStep(s, t, datagram);
    SameWorld(s, s1, t, k);
    if s.wake {
      n := 1;
      assert Steps(s, t, datagram, 1) == Steps(s1, t, datagram, 0);
    } else {
      n := 3;
      OneStep(s1, t, datagram, k);
      var s2 := SenderStep(s1, t, datagram);
      ElsewhereAgain(s, s1, s2, t, k);
      SameWorld(s, s2, t, k);
      OneStep(s2, t, datagram, k);
      var s3 := SenderStep(s2, t, datagram);
      ElsewhereAgain(s, s2, s3, t, k);
      SameWorld(s, s3, t, k);
      assert Steps(s1, t, datagram, 2) == Steps(s2, t, datagram, 1) == Steps(s3, t, datagram, 0);
    }
  }

  // What a call that runs alone comes to.
  ghost predicate Called(s: Publisher, s': Publisher, t: Thread, datagram: Datagram) {
    var me := SenderOf(s, t);
    var k := ShardFor(s, t);
    var again := AlreadyRegistered(s, t);
    if !s.running || datagram == [] || |datagram| > 512 then s'.shards == s.shards && SenderOf(s', t) == me
    else if !again && s.nextShard >= 256 then
      && s'.shards == s.shards && s'.nextShard == s.nextShard + 1
      && SenderOf(s', t) == me.(datagram := datagram)
    else
      && k < |s.shards| && |s'.shards| == |s.shards|
      && var mine := s.shards[k];
         var room := |mine.pushed| < mine.taken + 32;
         var accepted := if again then me.accepted else [];
         && SenderOf(s', t) == Sender(Some(Registration(s.generation, k)), Idle, datagram, if room then accepted + [datagram] else accepted)
         && s'.shards[k] == Shard(if room then mine.pushed + [datagram] else mine.pushed, mine.taken, false)
         && s'.nextShard == (if again then s.nextShard else s.nextShard + 1)
         && (room ==> s'.wake)
  }

  /**
   A call of send that nobody interrupts returns within ten steps. It accepts the datagram exactly when
   the publisher runs, the datagram has one to 512 bytes, the thread has or gets one of the 256 shards,
   and fewer than 32 wait in it; then the datagram is the last in the shard and the wake flag is set.
   */
  lemma {:induction false} CallAlone(s: Publisher, t: Thread, datagram: Datagram) returns (n: nat)
    requires Shape(s) && SenderOf(s, t).at.Idle?
    ensures 1 <= n <= 10
    ensures var s' := Steps(s, t, datagram, n);
      Elsewhere(s, s', t, ShardFor(s, t)) && Called(s, s', t, datagram)
  {
    hide Shape, SenderStep, Elsewhere;
    var k := ShardFor(s, t);
    ShapeMeans(s);
    if !s.running || datagram == [] || |datagram| > MAXIMUM_DATAGRAM_SIZE || !(AlreadyRegistered(s, t) || s.nextShard < SHARDS) {
      n := TurnedBack(s, t, datagram);
    } else {
      var m := Entering(s, t, datagram);
      var s1 := Steps(s, t, datagram, m);
      SameWorld(s, s1, t, k);
      PushesOn(s1, t, datagram, k);
      var s2 := Steps(s1, t, datagram, 4);
      StepsInTwo(s, t, datagram, m, 4);
      ElsewhereAgain(s, s1, s2, t, k);
      n := m + 4;
      if SenderOf(s2, t).at.Testing? {
        var l := Signalling(s2, t, datagram, k);
        StepsInTwo(s, t, datagram, m + 4, l);
        ElsewhereAgain(s, s2, Steps(s2, t, datagram, l), t, k);
        n := m + 4 + l;
      }
    }
  }

  lemma {:induction false} TurnedBack(s: Publisher, t: Thread, datagram: Datagram) returns (n: nat)
    requires Shape(s) && SenderOf(s, t).at.Idle?
    requires !s.running || datagram == [] || |datagram| > 512 || (!AlreadyRegistered(s, t) && s.nextShard >= 256)
    ensures 1 <= n <= 3
    ensures var s' := Steps(s, t, datagram, n);
      Elsewhere(s, s', t, ShardFor(s, t)) && Called(s, s', t, datagram)
  {
    hide Shape, SenderStep;
    ShapeMeans(s);
    StepKeepsShape(s, Send(t, datagram));
    Quietly(s, t, datagram);
    var s1 := SenderStep(s, t, datagram);
    if !s.running || datagram == [] || |datagram| > 512 {
      n := 1;
      assert Steps(s, t, datagram, 1) == Steps(s1, t, datagram, 0);
    } else {
      n := 3;
      ShapeMeans(s1);
      StepKeepsShape(s1, Send(t, datagram));
      Quietly(s1, t, datagram);
      var s2 := SenderStep(s1, t, datagram);
      ShapeMeans(s2);
      StepKeepsShape(s2, Send(t, datagram));
      Quietly(s2, t, datagram);
      var s3 := SenderStep(s2, t, datagram);
      assert Steps(s1, t, datagram, 2) == Steps(s2, t, datagram, 1) == Steps(s3, t, datagram, 0);
    }
  }

  // A step before the call has come to a shard.
  lemma {:induction false} Quietly(s: Publisher, t: Thread, datagram: Datagram)
    requires Shape(s) && !OnShard(SenderOf(s, t)) && SenderInRange(SenderOf(s, t)) && |s.shards| == SHARDS
    ensures var s' := SenderStep(s, t, datagram);
      var move := SenderMove(s, SenderOf(s, t), NEW_SHARD, datagram);
      && s' == s.(senders := s'.senders, nextShard := move.nextShard)
      && SenderOf(s', t) == move.me && forall u :: u != t ==> SenderOf(s', u) == SenderOf(s, u)
  {
    hide Shape;
  }
}
