// The retry loop put together with the selectors.
module Failover {
  import opened Affinity
  import Arithmetic
  import Churn
  import opened Domain
  import opened Hysteresis
  import opened Proxy
  import opened RoundRobin
  import opened Wrappers

  predicate Reaches(reachable: nat -> bool, b: Option<nat>) {
    b.Some? && reachable(b.value)
  }

  // No other request interferes, nobody gives up, and flags and reachability stand
  // still: attempt k is the call with counter value c + k.
  function RotatingWorld(flags: seq<bool>, reachable: nat -> bool, c: nat): World<nat> {
    World(k => false, (k: nat) => CallAt(flags, c + k), (k: nat) => Reaches(reachable, CallAt(flags, c + k)))
  }

  lemma RotatingAttempt(flags: seq<bool>, reachable: nat -> bool, c: nat, i: nat)
    ensures var world := RotatingWorld(flags, reachable, c);
            && !world.cancelled(i) && world.select(i) == CallAt(flags, c + i)
            && world.serves(i) == Reaches(reachable, CallAt(flags, c + i))
  {
  }

  // Attempts from counter value c until it is k's turn.
  function TurnOf(flags: seq<bool>, k: nat, c: nat): nat
    requires k < |flags|
  {
    if Ahead(c, k, |flags|) <= Gap(flags, k) then 0 else Ahead(c, k, |flags|) - Gap(flags, k)
  }

  lemma AheadDrops(c: nat, k: nat, n: nat, i: nat)
    requires k < n && i <= Ahead(c, k, n)
    ensures Ahead(c + i, k, n) == Ahead(c, k, n) - i
  {
    Arithmetic.ModForward(c, i, n);
  }

  // Attempt i goes to k exactly when i is in k's turn.
  lemma AttemptIff(flags: seq<bool>, k: nat, c: nat, i: nat)
    requires k < |flags| < TWO_32 && flags[k] && CleanCalls(c, |flags|, |flags|)
    requires i <= Ahead(c, k, |flags|)
    ensures CallAt(flags, c + i).Some?
    ensures CallAt(flags, c + i) == Some(k) <==> TurnOf(flags, k, c) <= i
  {
    CallGoesToIff(flags, c + i, k);
    AheadDrops(c, k, |flags|, i);
  }

  // Failover coverage. With healthy backend k reachable, a request with at least
  // n-1-Gap(k) retries, and so one with n-1, is served from wherever the counter
  // stands, by a healthy and reachable backend.
  lemma FailoverCovers(flags: seq<bool>, reachable: nat -> bool, k: nat, c: nat, limit: int)
    requires k < |flags| < TWO_32 && flags[k] && reachable(k) && CleanCalls(c, |flags|, |flags|)
    requires limit >= |flags| - 1 - Gap(flags, k)
    ensures var end := Play(RotatingWorld(flags, reachable, c), limit, 0);
            && end.Served? && CallAt(flags, c + end.failed).Some?
            && var b := CallAt(flags, c + end.failed).value; b < |flags| && flags[b] && reachable(b)
  {
    var world := RotatingWorld(flags, reachable, c);
    var i := TurnOf(flags, k, c);
    forall j: nat | j <= i
      ensures world.select(j).Some?
    {
      RotatingAttempt(flags, reachable, c, j);
      AttemptIff(flags, k, c, j);
    }
    RotatingAttempt(flags, reachable, c, i);
    AttemptIff(flags, k, c, i);
    ServedBy(world, limit, i);
    RotatingAttempt(flags, reachable, c, Play(world, limit, 0).failed);
  }

  // And not with fewer: when k is the only healthy backend that can be reached, the
  // request is served from every counter value exactly when the retries allow for
  // n-1-Gap(k) failures.
  lemma FailoverCoversIff(flags: seq<bool>, reachable: nat -> bool, k: nat, limit: int)
    requires k < |flags| && 3 * |flags| <= TWO_32 && flags[k] && reachable(k)
    requires forall b | 0 <= b < |flags| && b != k :: flags[b] ==> !reachable(b)
    ensures (forall c: nat | CleanCalls(c, |flags|, |flags|) ::
               Play(RotatingWorld(flags, reachable, c), limit, 0).Served?) <==>
            limit >= |flags| - 1 - Gap(flags, k)
  {
    if limit >= |flags| - 1 - Gap(flags, k) {
      forall c: nat | CleanCalls(c, |flags|, |flags|)
        ensures Play(RotatingWorld(flags, reachable, c), limit, 0).Served?
      {
        FailoverCovers(flags, reachable, k, c, limit);
      }
    } else {
      TooFewRetries(flags, reachable, k, limit);
      assert !Play(RotatingWorld(flags, reachable, k + 1), limit, 0).Served?;
    }
  }

  // The counter just past k is the worst place to start.
  lemma TooFewRetries(flags: seq<bool>, reachable: nat -> bool, k: nat, limit: int)
    requires k < |flags| && 3 * |flags| <= TWO_32 && flags[k]
    requires forall b | 0 <= b < |flags| && b != k :: flags[b] ==> !reachable(b)
    requires limit < |flags| - 1 - Gap(flags, k)
    ensures Play(RotatingWorld(flags, reachable, k + 1), limit, 0).Exhausted?
  {
    var n, c := |flags|, k + 1;
    var world := RotatingWorld(flags, reachable, c);
    Arithmetic.DivModUnique(k, 0, n, k);
    Arithmetic.ModForward(k, 1, n);
    assert Ahead(c, k, n) == n - 1;
    forall i: nat | i <= limit
      ensures Fails(world, i)
    {
      AttemptIff(flags, k, c, i);
      RotatingAttempt(flags, reachable, c, i);
      var b := CallAt(flags, c + i).value;
      assert flags[b] && !reachable(b);
    }
    OneOutcome(world, limit, Exhausted(if limit < 0 then 0 else limit + 1));
  }

  // ---------------------------------------------------------------- sticky routing

  // Between two attempts the registry and the prober may do anything that leaves the
  // same backends healthy: evict and re-admit, register, remove, run whole rounds.
  ghost predicate Follows(t: Thresholds, s: Churn.State, s': Churn.State) {
    SameHealthyMembers(s, s') && exists run :: Churn.Legal(t, s, run) && Churn.Run(t, s, run) == s'
  }

  ghost predicate Reachable(t: Thresholds, s: Churn.State) {
    exists weights, run :: AllWeightsOk(weights) && Churn.Legal(t, Churn.Seeded(weights), run) && Churn.Run(t, Churn.Seeded(weights), run) == s
  }

  // The states in which the attempts of one request find the balancer.
  ghost predicate Attempted(t: Thresholds, states: seq<Churn.State>) {
    && states != [] && Reachable(t, states[0])
    && forall k | 0 < k < |states| :: Follows(t, states[k - 1], states[k])
  }

  // Attempt k hashes the client's key onto the backends that are healthy then.
  function StickyWorld(states: seq<Churn.State>, h: nat, up: (nat, nat) -> bool): World<nat> {
    World(k => false,
          (k: nat) => if k < |states| then Routed(states[k], h) else None,
          (k: nat) => k < |states| && Reaches((b: nat) => up(k, b), Routed(states[k], h)))
  }

  lemma {:induction false} AttemptsStick(t: Thresholds, states: seq<Churn.State>, h: nat, k: nat)
    requires Attempted(t, states) && k < |states|
    ensures Churn.Inv(t, states[k]) && Routed(states[k], h) == Routed(states[0], h)
  {
    if k == 0 {
      var weights, run :| AllWeightsOk(weights) && Churn.Legal(t, Churn.Seeded(weights), run) && Churn.Run(t, Churn.Seeded(weights), run) == states[0];
      Churn.RunKeepsInv(t, Churn.Seeded(weights), run);
    } else {
      AttemptsStick(t, states, h, k - 1);
      assert Follows(t, states[k - 1], states[k]);
      var run :| Churn.Legal(t, states[k - 1], run) && Churn.Run(t, states[k - 1], run) == states[k];
      StableOverRun(t, states[k - 1], run, h);
      Churn.RunKeepsInv(t, states[k - 1], run);
    }
  }

  lemma StickyTarget(t: Thresholds, states: seq<Churn.State>, h: nat)
    requires Attempted(t, states)
    ensures match Routed(states[0], h)
            case None => HealthyList(states[0]) == []
            case Some(b) => b in HealthyList(states[0])
  {
    AttemptsStick(t, states, h, 0);
    RoutedIff(t, states[0], h);
  }

  lemma StickyAttempt(t: Thresholds, states: seq<Churn.State>, h: nat, up: (nat, nat) -> bool, k: nat)
    requires Attempted(t, states) && k < |states|
    ensures var world := StickyWorld(states, h, up);
            && !world.cancelled(k) && world.select(k) == Routed(states[0], h)
            && world.serves(k) == Reaches((b: nat) => up(k, b), Routed(states[0], h))
  {
    AttemptsStick(t, states, h, k);
  }

  // Every attempt goes to b: the first one that b answers serves the request, and
  // when it answers none the request fails after 1 + limit of them.
  ghost predicate StaysWith(world: World<nat>, b: nat, up: (nat, nat) -> bool, limit: nat) {
    var end := Play(world, limit, 0);
    && (forall k: nat | k <= limit :: world.select(k) == Some(b))
    && (end.Served? <==> exists k: nat :: k <= limit && up(k, b))
    && (end.Served? ==> up(end.failed, b) && forall k: nat | k < end.failed :: !up(k, b))
    && (!end.Served? ==> end == Exhausted(limit + 1))
  }

  lemma ConstantTarget(world: World<nat>, b: nat, up: (nat, nat) -> bool, limit: nat)
    requires forall k: nat | k <= limit ::
               world.select(k) == Some(b) && !world.cancelled(k) && world.serves(k) == up(k, b)
    ensures StaysWith(world, b, up, limit)
  {
    var end := Play(world, limit, 0);
    OneOutcome(world, limit, end);
    forall k: nat | k < end.failed
      ensures !up(k, b)
    {
      assert Fails(world, k);
    }
    if k: nat :| k <= limit && up(k, b) {
      assert world.select(k).Some?;
      ServedBy(world, limit, k);
    }
  }

  // Sticky routing has no failover. However many retries there are, and whatever
  // churn comes between them that leaves the same backends healthy, every attempt
  // goes to one backend. So the request is served exactly when that one answers one
  // of them, by the first such attempt, and otherwise fails after trying it 1 + limit
  // times.
  lemma StickyHasNoFailover(t: Thresholds, states: seq<Churn.State>, h: nat, up: (nat, nat) -> bool, limit: nat)
    requires Attempted(t, states) && |states| == limit + 1
    ensures match Routed(states[0], h)
            case None => HealthyList(states[0]) == [] && Play(StickyWorld(states, h, up), limit, 0) == NoBackend(0)
            case Some(b) => b in HealthyList(states[0]) && StaysWith(StickyWorld(states, h, up), b, up, limit)
  {
    var world, target := StickyWorld(states, h, up), Routed(states[0], h);
    StickyTarget(t, states, h);
    forall k: nat | k <= limit
      ensures world.select(k) == target && !world.cancelled(k)
      ensures target.Some? ==> world.serves(k) == up(k, target.value)
    {
      StickyAttempt(t, states, h, up, k);
    }
    if target.Some? {
      ConstantTarget(world, target.value, up, limit);
    } else {
      OneOutcome(world, limit, NoBackend(0));
    }
  }
}
