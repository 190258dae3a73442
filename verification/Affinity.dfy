// Session affinity: what a key is routed to, over runs of the registry and the
// prober.
module Affinity {
  import Arithmetic
  import opened Churn
  import opened Domain
  import opened Hysteresis
  import opened Lists
  import opened Wrappers
  import WeightedBands

  // ListHealthyBackends: the healthy backends in registration order.
  function HealthyList(s: State): seq<nat> {
    Filter(s.registered, (id: nat) => s.Flag(id))
  }

  function WeightsOf(s: State, ids: seq<nat>): seq<nat> {
    seq(|ids|, i requires 0 <= i < |ids| => s.Weight(ids[i]))
  }

  // The backend a hash value is routed to, if there is one (see RoutedIff).
  function Routed(s: State, h: nat): Option<nat> {
    var ids := HealthyList(s);
    if Arithmetic.Sum(WeightsOf(s, ids)) == 0 then None
    else Some(ids[WeightedBands.HashPick(WeightsOf(s, ids), h)])
  }

  lemma HealthyMembers(s: State)
    requires Increasing(s.registered, s.nextId)
    ensures Increasing(HealthyList(s), s.nextId)
    ensures forall id: nat :: id in HealthyList(s) <==> id in s.registered && s.Flag(id)
  {
    FilterIncreasing(s.registered, (id: nat) => s.Flag(id), s.nextId);
  }

  // Lists in order of creation with the same members are the same list.
  lemma {:induction false} SameMembersSameList(a: seq<nat>, b: seq<nat>, m: nat, n: nat)
    requires Increasing(a, m) && Increasing(b, n)
    requires forall id :: id in a <==> id in b
    ensures a == b
  {
    assert a != [] ==> a[0] in a;
    assert b != [] ==> b[0] in b;
    if a != [] {
      var (x, y) := (a[|a| - 1], b[|b| - 1]);
      assert x in b && y in a;
      assert x == y;
      var a', b' := a[..|a| - 1], b[..|b| - 1];
      forall id
        ensures id in a' <==> id in b'
      {
        if id in a' { assert id in a && id < x; }
        if id in b' { assert id in b && id < y; }
      }
      SameMembersSameList(a', b', x, y);
    }
  }

  lemma {:induction false} WeightsNeverChange(t: Thresholds, s: State, run: seq<Action>)
    requires Inv(t, s) && Legal(t, s, run)
    ensures forall id | id in s.weight :: id in Run(t, s, run).weight && Run(t, s, run).weight[id] == s.weight[id]
    decreases |run|
  {
    if run != [] {
      StepKeepsInv(t, s, run[0]);
      WeightsNeverChange(t, Do(t, s, run[0]), run[1..]);
    }
  }

  ghost predicate SameHealthyMembers(s: State, s': State) {
    forall id :: id in s.registered && s.Flag(id) <==> id in s'.registered && s'.Flag(id)
  }

  // A key is refused exactly when no backend is healthy; no pool weighs nothing.
  lemma RoutedIff(t: Thresholds, s: State, h: nat)
    requires Inv(t, s)
    ensures Routed(s, h).None? <==> HealthyList(s) == []
    ensures Routed(s, h).Some? ==>
              var b := Routed(s, h).value; b in HealthyList(s) && b in s.registered && s.Flag(b)
  {
    HealthyMembers(s);
    var ids := HealthyList(s);
    var ws := WeightsOf(s, ids);
    forall i | 0 <= i < |ws|
      ensures WeightOk(ws[i])
    {
      assert ids[i] in ids;
    }
    WeightedBands.SumBound(ws);
    if Arithmetic.Sum(ws) > 0 {
      assert ids[WeightedBands.HashPick(ws, h)] in ids;
    }
  }

  // What a hash value is routed to: lay the registered and healthy backends end to end
  // in order of registration, each as long as its weight; the hash modulo the total
  // falls into the backend's stretch.
  lemma RoutedBand(t: Thresholds, s: State, h: nat, ids: seq<nat>, ws: seq<nat>, k: nat)
    requires Inv(t, s)
    requires Increasing(ids, s.nextId)
    requires forall id :: id in ids <==> id in s.registered && id in s.flag && s.flag[id]
    requires |ws| == |ids| && forall i | 0 <= i < |ids| :: ids[i] in s.weight && ws[i] == s.weight[ids[i]]
    requires k < |ids|
    ensures var total := Arithmetic.Sum(ws);
            && total > 0
            && (Routed(s, h) == Some(ids[k]) <==>
                Arithmetic.Sum(ws[..k]) <= h % total < Arithmetic.Sum(ws[..k + 1]))
  {
    HealthyMembers(s);
    SameMembersSameList(ids, HealthyList(s), s.nextId, s.nextId);
    RoutedIff(t, s, h);
    assert WeightsOf(s, ids) == ws;
    WeightedBands.HashPickIff(ws, h, k);
  }

  // The same list of backends with the same weights routes every key the same way.
  lemma SameListSameRoute(s: State, s': State, h: nat)
    requires HealthyList(s) == HealthyList(s')
    requires forall id | id in HealthyList(s) :: s'.Weight(id) == s.Weight(id)
    ensures Routed(s', h) == Routed(s, h)
  {
    assert WeightsOf(s, HealthyList(s)) == WeightsOf(s', HealthyList(s));
  }

  lemma StableOverRun(t: Thresholds, s: State, run: seq<Action>, h: nat)
    requires Inv(t, s) && Legal(t, s, run) && SameHealthyMembers(s, Run(t, s, run))
    ensures Routed(Run(t, s, run), h) == Routed(s, h)
  {
    var s' := Run(t, s, run);
    RunKeepsInv(t, s, run);
    HealthyMembers(s);
    HealthyMembers(s');
    SameMembersSameList(HealthyList(s), HealthyList(s'), s.nextId, s'.nextId);
    WeightsNeverChange(t, s, run);
    SameListSameRoute(s, s', h);
  }

  // Affinity is stable under irrelevant churn: after any interleaving of
  // registrations, removals and probe rounds, evictions and re-admissions among them,
  // that ends with the same healthy members, every key is routed as before.
  lemma AffinityIsStable(t: Thresholds, weights: seq<nat>, past: seq<Action>, run: seq<Action>, h: nat)
    requires AllWeightsOk(weights) && Legal(t, Seeded(weights), past)
    requires Legal(t, Run(t, Seeded(weights), past), run)
    requires SameHealthyMembers(Run(t, Seeded(weights), past), Run(t, Run(t, Seeded(weights), past), run))
    ensures var s := Run(t, Seeded(weights), past);
            var s' := Run(t, s, run);
            Routed(s', h) == Routed(s, h)
  {
    RunKeepsInv(t, Seeded(weights), past);
    StableOverRun(t, Run(t, Seeded(weights), past), run, h);
  }
}
