/** Fair service in every run of the publisher. */
module PublisherRuns {
  import opened ExchangeTypes
  import opened Publishers
  import opened PublisherLaws

  // ---- Fair service --------------------------------------------------------------------------------

  // How far round-robin order has to go from the cursor to reach a shard.
  function Distance(cursor: nat, k: nat): nat {
    ((k as int) - cursor) % SHARDS
  }

  // The current scan will come to this shard, and it has work.
  predicate InReach(s: Publisher, k: nat) {
    && k < |s.shards| && HasWork(s.shards[k])
    && s.consumer.Scanning? && s.consumer.offset <= Distance(s.cursor, k)
  }

  // The shards served between two moments.
  predicate ServedMeanwhile(before: seq<(nat, Datagram)>, after: seq<(nat, Datagram)>, k: nat) {
    |before| <= |after| && exists i :: |before| <= i < |after| && after[i].0 == k
  }

  // How many shards the scan looks at before it comes to k.
  function Ahead(s: Publisher, k: nat): int
    requires s.consumer.Scanning?
  {
    Distance(s.cursor, k) - s.consumer.offset
  }

  // Serving a shard on the way brings the cursor past it, nearer to k.
  lemma NextInOrder(cursor: nat, offset: nat, k: nat)
    requires cursor < SHARDS && k < SHARDS && offset <= Distance(cursor, k)
    ensures var i := (cursor + offset) % SHARDS;
      && (i == k <==> offset == Distance(cursor, k))
      && (i != k ==> Distance((i + 1) % SHARDS, k) == Distance(cursor, k) - offset - 1)
  {
    var i := (cursor + offset) % SHARDS;
    OnceRound(k as int - cursor);
    OnceRound(cursor + offset);
    OnceRound(i + 1);
    OnceRound(k as int - (i + 1) % SHARDS);
  }

  // Within one round either way.
  lemma OnceRound(n: int)
    requires -(SHARDS as int) <= n < 2 * SHARDS
    ensures n % SHARDS == if n < 0 then n + SHARDS else if n < SHARDS then n else n - SHARDS
  {
  }

  // Each step of the scan serves the shard or brings it one nearer.
  lemma {:induction false} ScanTowards(s: Publisher, k: nat)
    requires Shape(s) && k < SHARDS && InReach(s, k)
    ensures var s' := ConsumerStep(s);
      || (exists d :: s'.log == s.log + [(k, d)])
      || (InReach(s', k) && Ahead(s', k) == Ahead(s, k) - 1 && s.log <= s'.log && |s'.log| <= |s.log| + 1)
  {
    var i := (s.cursor + s.consumer.offset) % SHARDS;
    NextInOrder(s.cursor, s.consumer.offset, k);
    if HasWork(s.shards[i]) {
      assert ConsumerStep(s).log == s.log + [(i, s.shards[i].pushed[s.shards[i].taken])];
    }
  }

  lemma {:induction false} OthersStayInReach(s: Publisher, action: Action, k: nat)
    requires Shape(s) && k < SHARDS && InReach(s, k) && !action.Publish?
    ensures Do(s, action).log == s.log && InReach(Do(s, action), k) && Ahead(Do(s, action), k) == Ahead(s, k)
  {
    match action
    case Send(t, datagram) =>
      SenderStepShape(s, t, datagram);
      MoveLeaving(s, SenderOf(s, t), Mine(s, SenderOf(s, t)), datagram);
    case Stop =>
    case Start =>
  }

  // Within one generation the log only grows.
  lemma {:induction false} LogGrows(s: Publisher, actions: seq<Action>)
    requires Shape(s) && Start !in actions
    ensures s.log <= Run(s, actions).log
    decreases |actions|
  {
    if actions != [] {
      StepKeepsShape(s, actions[0]);
      OneStepGrows(s, actions[0]);
      LogGrows(Do(s, actions[0]), actions[1..]);
    }
  }

  lemma {:induction false} OneStepGrows(s: Publisher, action: Action)
    requires Shape(s) && !action.Start?
    ensures s.log <= Do(s, action).log
  {
    hide SenderMove;
  }

  function PublishSteps(actions: seq<Action>): nat {
    if actions == [] then 0 else (if actions[0].Publish? then 1 else 0) + PublishSteps(actions[1..])
  }

  /**
   A shard that has work when a scan starts is served within 256 steps of the publisher thread,
   whatever the senders do meanwhile: every step that does not serve it brings it one nearer. So it
   waits for at most 255 datagrams of other shards.
   */
  lemma {:induction false} FairService(s: Publisher, actions: seq<Action>, k: nat)
    requires Shape(s) && k < SHARDS && InReach(s, k) && Start !in actions
    ensures var s' := Run(s, actions);
      && s.log <= s'.log
      && (!ServedMeanwhile(s.log, s'.log, k) ==>
            && InReach(s', k) && Ahead(s', k) + PublishSteps(actions) == Ahead(s, k)
            && |s'.log| - |s.log| <= PublishSteps(actions))
      && (PublishSteps(actions) >= SHARDS ==> ServedMeanwhile(s.log, s'.log, k))
    decreases |actions|
  {
    hide Do, Shape, Distance;
    DistanceIsSmall(s.cursor, k);
    LogGrows(s, actions);
    if actions != [] {
      StepKeepsShape(s, actions[0]);
      var next := Do(s, actions[0]);
      var s' := Run(next, actions[1..]);
      LogGrows(next, actions[1..]);
      if actions[0].Publish? {
        PublishIs(s);
        ScanTowards(s, k);
      } else {
        OthersStayInReach(s, actions[0], k);
      }
      if |next.log| > |s.log| {
        assert s'.log[|s.log|] == next.log[|s.log|];
      }
      if InReach(next, k) {
        FairService(next, actions[1..], k);
        if ServedMeanwhile(next.log, s'.log, k) {
          ServedLater(s.log, next.log, s'.log, k);
        }
      }
    }
  }

  lemma DistanceIsSmall(cursor: nat, k: nat)
    ensures 0 <= Distance(cursor, k) < SHARDS
  {
  }

  lemma ServedLater(before: seq<(nat, Datagram)>, between: seq<(nat, Datagram)>, after: seq<(nat, Datagram)>, k: nat)
    requires before <= between <= after && ServedMeanwhile(between, after, k)
    ensures ServedMeanwhile(before, after, k)
  {
    var i :| |between| <= i < |after| && after[i].0 == k;
  }

  lemma PublishIs(s: Publisher)
    requires Shape(s)
    ensures Do(s, Publish) == ConsumerStep(s)
  {
  }
}
