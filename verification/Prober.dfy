// The health prober, one round at a time over a registry that stands still.
module Prober {
  import opened Domain
  import opened Hysteresis
  import opened Wrappers
  import R = Registry

  // A missing streak reads as zero.
  function StreakOf(streak: map<nat, int>, id: nat): int {
    if id in streak then streak[id] else 0
  }

  function IdList(bs: seq<Backend>): (ids: seq<nat>)
    ensures |ids| == |bs| && forall i | 0 <= i < |bs| :: ids[i] == bs[i].instanceID
  {
    seq(|bs|, i requires 0 <= i < |bs| => bs[i].instanceID)
  }

  lemma ListedIds(bs: seq<Backend>)
    ensures forall id :: id in IdList(bs) <==> exists x :: x in bs && x.instanceID == id
  {
    forall id
      ensures id in IdList(bs) <==> exists x :: x in bs && x.instanceID == id
    {
      if k :| 0 <= k < |bs| && IdList(bs)[k] == id {
        assert bs[k] in bs;
      }
      if x :| x in bs && x.instanceID == id {
        var k :| 0 <= k < |bs| && bs[k] == x;
        assert IdList(bs)[k] == id;
      }
    }
  }

  function Ids(list: seq<nat>): set<nat> {
    set id | id in list
  }

  // What a round makes of the streaks: one entry per probed backend, each one result
  // further than before.
  function RoundStreaks(t: Thresholds, streak: map<nat, int>, ids: set<nat>, probe: nat -> bool): map<nat, int> {
    map id | id in ids :: Next(t, StreakOf(streak, id), probe(id))
  }

  // Folding one more result in.
  lemma RoundStep(t: Thresholds, streak: map<nat, int>, list: seq<nat>, i: nat, probe: nat -> bool)
    requires i < |list| && list[i] !in list[..i]
    ensures var sofar := streak + RoundStreaks(t, streak, Ids(list[..i]), probe);
            && StreakOf(sofar, list[i]) == StreakOf(streak, list[i])
            && sofar[list[i] := Next(t, StreakOf(streak, list[i]), probe(list[i]))]
               == streak + RoundStreaks(t, streak, Ids(list[..i + 1]), probe)
  {
    assert list[..i + 1] == list[..i] + [list[i]];
  }

  // Dropping the streaks of backends outside the round first makes no difference to
  // the backends in it.
  lemma PrunedRound(t: Thresholds, streak: map<nat, int>, pruned: map<nat, int>, list: seq<nat>, probe: nat -> bool)
    requires pruned == map id | id in streak && id in Ids(list) :: streak[id]
    ensures pruned + RoundStreaks(t, pruned, Ids(list), probe) == RoundStreaks(t, streak, Ids(list), probe)
    ensures forall id | id in list :: StreakOf(pruned, id) == StreakOf(streak, id)
  {
  }

  // A backend's flag after a probe.
  function FlagAfter(t: Thresholds, s: int, p: Probe, flag: bool): bool {
    match Report(t, s, p)
    case Some(v) => v
    case None => flag
  }

  // A stored streak and a flag are those of this probe history; a backend without a
  // streak has not been probed since it was listed.
  ghost predicate Tracked(t: Thresholds, streak: map<nat, int>, id: nat, flag: bool, h: seq<Probe>) {
    && flag == Flag(t, h)
    && (if id in streak then streak[id] == Streak(t, h) else h == [])
  }

  lemma Advances(t: Thresholds, was: map<nat, int>, now: map<nat, int>, id: nat, flag: bool, h: seq<Probe>, p: Probe)
    requires Tracked(t, was, id, flag, h)
    requires id in now && now[id] == Next(t, StreakOf(was, id), p.ok)
    ensures Tracked(t, now, id, FlagAfter(t, StreakOf(was, id), p, flag), h + [p])
  {
    OneMore(t, h, p);
  }

  lemma RoundAdvances(t: Thresholds, was: map<nat, int>, now: map<nat, int>, list: seq<nat>, k: nat, flag: bool, flag': bool,
                      h: seq<Probe>, initial: bool, probe: nat -> bool)
    requires k < |list| && now == RoundStreaks(t, was, Ids(list), probe)
    requires Tracked(t, was, list[k], flag, h)
    requires flag' == FlagAfter(t, StreakOf(was, list[k]), Probe(probe(list[k]), initial), flag)
    ensures Tracked(t, now, list[k], flag', h + [Probe(probe(list[k]), initial)])
  {
    Advances(t, was, now, list[k], flag, h, Probe(probe(list[k]), initial));
  }

  class Prober {
    const reg: R.Registry
    const thresholds: Thresholds
    const maxConcurrent: nat  // zero means unbounded
    var streak: map<nat, int>

    // Validation has refused negative thresholds, and zero stands for the default.
    constructor (reg: R.Registry, configured: RawThresholds, maxConcurrent: nat)
      requires configured.up >= 0 && configured.down >= 0
      ensures this.reg == reg && this.maxConcurrent == maxConcurrent && streak == map[]
      ensures thresholds.up == if configured.up == 0 then 1 else configured.up
      ensures thresholds.down == if configured.down == 0 then 3 else configured.down
    {
      this.reg, this.maxConcurrent := reg, maxConcurrent;
      thresholds := configured.WithDefaults();
      streak := map[];
    }

    ghost predicate Valid()
      reads this, reg, reg.backends.data
    {
      reg.backends.Valid() && R.DistinctIds(reg.backends.Contents())
    }

    // The prober and the registry hold of this backend what its probe history says.
    ghost predicate Tracks(b: Backend, h: seq<Probe>)
      reads this, b
    {
      Tracked(thresholds, streak, b.instanceID, b.healthy, h)
    }

    // One result is one more probe in the history of its backend, and in no other's.
    method Record(b: Backend, ok: bool, initial: bool)
      requires Valid()
      modifies this`streak, (set x | x in reg.backends.Contents())`healthy
      ensures forall x, h | x in reg.backends.Contents() && old(Tracks(x, h)) ::
                Tracks(x, if x.instanceID == b.instanceID then h + [Probe(ok, initial)] else h)
      ensures streak == old(streak)[b.instanceID := Next(thresholds, StreakOf(old(streak), b.instanceID), ok)]
      ensures forall x | x in reg.backends.Contents() ::
                x.healthy == if x.instanceID == b.instanceID
                             then FlagAfter(thresholds, StreakOf(old(streak), x.instanceID), Probe(ok, initial), old(x.healthy))
                             else old(x.healthy)
    {
      ghost var backends := reg.backends.Contents();
      var s := StreakOf(streak, b.instanceID);
      if ok {
        if s < 0 {
          s := 0;
        }
        if s < thresholds.up {
          s := s + 1;
          if s == thresholds.up || initial {
            var _ := reg.SetHealthy(b.instanceID, true);
          }
        }
      } else {
        if s > 0 {
          s := 0;
        }
        if s > -thresholds.down {
          s := s - 1;
          if s == -thresholds.down {
            var _ := reg.SetHealthy(b.instanceID, false);
          }
        }
      }
      streak := streak[b.instanceID := s];
      forall x, h | x in backends && old(Tracks(x, h))
        ensures Tracks(x, if x.instanceID == b.instanceID then h + [Probe(ok, initial)] else h)
      {
        if x.instanceID == b.instanceID {
          Advances(thresholds, old(streak), streak, x.instanceID, old(x.healthy), h, Probe(ok, initial));
        }
      }
    }

    // Streaks of backends that have left the registry are dropped, in the arbitrary
    // order in which a map is walked.
    method Prune(live: set<nat>)
      modifies this`streak
      ensures streak == map id | id in old(streak) && id in live :: old(streak)[id]
    {
      var keys := streak.Keys;
      while keys != {}
        invariant keys <= streak.Keys <= old(streak).Keys
        invariant forall id | id in old(streak) :: id in streak <==> id in keys || id in live
        invariant forall id | id in streak :: streak[id] == old(streak)[id]
      {
        var id :| id in keys;
        keys := keys - {id};
        if id !in live {
          streak := streak - {id};
        }
      }
    }

    // The worker group: workers start in list order, never more than maxConcurrent
    // of them at a time, and finish in any order at all. The results are the same.
    method ProbeAll(list: seq<nat>, probe: nat -> bool) returns (results: array<bool>)
      ensures fresh(results) && results.Length == |list|
      ensures forall i | 0 <= i < |list| :: results[i] == probe(list[i])
    {
      results := new bool[|list|](_ => false);
      var started, running: set<nat> := 0, {};
      while started < |list| || running != {}
        invariant started <= |list| && forall i | i in running :: i < started
        invariant maxConcurrent > 0 ==> |running| <= maxConcurrent
        invariant forall i | 0 <= i < started && i !in running :: results[i] == probe(list[i])
        decreases |list| - started, running
      {
        var start: bool := *;
        if started < |list| && (maxConcurrent == 0 || |running| < maxConcurrent) && (start || running == {}) {
          running := running + {started};
          started := started + 1;
        } else {
          assert running != {};
          var i: nat :| i in running;
          results[i] := probe(list[i]);
          running := running - {i};
        }
      }
    }

    // The flags when the first `i` backends have theirs of `want`, and the rest still
    // have theirs of `was`.
    ghost predicate Flagged(bs: seq<Backend>, was: seq<bool>, want: seq<bool>, i: nat)
      requires |was| == |want| == |bs|
      reads bs
    {
      forall k | 0 <= k < |bs| :: bs[k].healthy == if k < i then want[k] else was[k]
    }

    // The flags a round leaves behind.
    ghost function Wanted(list: seq<nat>, was: seq<bool>, before: map<nat, int>, initial: bool, probe: nat -> bool): (want: seq<bool>)
      requires |was| == |list|
      ensures |want| == |list|
      ensures forall k | 0 <= k < |list| ::
                want[k] == FlagAfter(thresholds, StreakOf(before, list[k]), Probe(probe(list[k]), initial), was[k])
    {
      seq(|list|, k requires 0 <= k < |list| =>
        FlagAfter(thresholds, StreakOf(before, list[k]), Probe(probe(list[k]), initial), was[k]))
    }

    method RecordNext(backends: seq<Backend>, i: nat, ok: bool, initial: bool, ghost was: seq<bool>, ghost want: seq<bool>)
      requires Valid() && backends == reg.backends.Contents() && |was| == |want| == |backends| && i < |backends|
      requires want[i] == FlagAfter(thresholds, StreakOf(streak, backends[i].instanceID), Probe(ok, initial), was[i])
      requires Flagged(backends, was, want, i)
      modifies this`streak, (set x | x in reg.backends.Contents())`healthy
      ensures Flagged(backends, was, want, i + 1)
      ensures streak == var id := backends[i].instanceID;
                        old(streak)[id := Next(thresholds, StreakOf(old(streak), id), ok)]
    {
      Record(backends[i], ok, initial);
      assert forall k | 0 <= k < |backends| :: backends[k] in backends;
    }

    // RecordNext inside a round: the streaks are those of the round up to here.
    method RecordStep(backends: seq<Backend>, i: nat, ok: bool, initial: bool,
                      ghost was: seq<bool>, ghost want: seq<bool>, ghost before: map<nat, int>, ghost probe: nat -> bool)
      requires Valid() && backends == reg.backends.Contents() && |was| == |want| == |backends| && i < |backends|
      requires ok == probe(backends[i].instanceID)
      requires want[i] == FlagAfter(thresholds, StreakOf(before, backends[i].instanceID), Probe(ok, initial), was[i])
      requires Flagged(backends, was, want, i) && SoFar(IdList(backends), before, probe, i)
      modifies this`streak, (set x | x in reg.backends.Contents())`healthy
      ensures Flagged(backends, was, want, i + 1) && SoFar(IdList(backends), before, probe, i + 1)
    {
      RoundStep(thresholds, before, IdList(backends), i, probe);
      RecordNext(backends, i, ok, initial, was, want);
    }

    // The streaks when the first `i` results have been folded in.
    ghost predicate SoFar(list: seq<nat>, before: map<nat, int>, probe: nat -> bool, i: nat)
      requires i <= |list|
      reads this
    {
      streak == before + RoundStreaks(thresholds, before, Ids(list[..i]), probe)
    }

    // The results are folded in, in list order.
    method RecordAll(backends: seq<Backend>, results: seq<bool>, initial: bool, ghost probe: nat -> bool)
      requires Valid() && backends == reg.backends.Contents() && |results| == |backends|
      requires forall k | 0 <= k < |backends| :: results[k] == probe(backends[k].instanceID)
      modifies this`streak, (set x | x in reg.backends.Contents())`healthy
      ensures streak == old(streak) + RoundStreaks(thresholds, old(streak), Ids(IdList(backends)), probe)
      ensures Flags(backends) == Wanted(IdList(backends), old(Flags(backends)), old(streak), initial, probe)
    {
      ghost var list, was, before := IdList(backends), Flags(backends), streak;
      ghost var want := Wanted(list, was, before, initial, probe);
      for i := 0 to |backends|
        invariant Valid() && backends == reg.backends.Contents()
        invariant SoFar(list, before, probe, i) && Flagged(backends, was, want, i)
      {
        RecordStep(backends, i, results[i], initial, was, want, before, probe);
      }
      assert list[..|backends|] == list;
    }

    // One round over the listed backends. `probe` answers for the network.
    method ProbeRound(probe: nat -> bool, initial: bool)
      requires Valid()
      modifies this`streak, (set x | x in reg.backends.Contents())`healthy
      ensures forall x, h | x in reg.backends.Contents() && old(Tracks(x, h)) ::
                Tracks(x, h + [Probe(probe(x.instanceID), initial)])
      ensures forall id :: id in streak <==> exists x :: x in reg.backends.Contents() && x.instanceID == id
      ensures var list := IdList(reg.backends.Contents());
              && streak == RoundStreaks(thresholds, old(streak), Ids(list), probe)
              && Flags(reg.backends.Contents()) ==
                 Wanted(list, old(Flags(reg.backends.Contents())), old(streak), initial, probe)
    {
      var listed := reg.ListBackends();
      var backends := listed.Contents();
      ghost var want := Wanted(IdList(backends), Flags(backends), streak, initial, probe);
      ghost var before, was := streak, Flags(backends);
      Prune(Ids(IdList(backends)));
      PrunedRound(thresholds, before, streak, IdList(backends), probe);
      if |backends| == 0 {
        assert Flags(backends) == want;
        return;
      }
      var results := ProbeAll(IdList(backends), probe);
      RecordAll(backends, results[..], initial, probe);
      assert Flags(backends) == want;
      ListedIds(backends);
      forall x, h | x in backends && old(Tracks(x, h))
        ensures Tracks(x, h + [Probe(probe(x.instanceID), initial)])
      {
        var k :| 0 <= k < |backends| && backends[k] == x;
        RoundAdvances(thresholds, before, streak, IdList(backends), k, was[k], Flags(backends)[k], h, initial, probe);
      }
    }

    // Run at start-up, before any request is served.
    method ProbeOnce(probe: nat -> bool)
      requires Valid()
      modifies this`streak, (set x | x in reg.backends.Contents())`healthy
      ensures forall x, h | x in reg.backends.Contents() && old(Tracks(x, h)) ::
                Tracks(x, h + [Probe(probe(x.instanceID), true)])
      ensures forall id :: id in streak <==> exists x :: x in reg.backends.Contents() && x.instanceID == id
      ensures var list := IdList(reg.backends.Contents());
              && streak == RoundStreaks(thresholds, old(streak), Ids(list), probe)
              && Flags(reg.backends.Contents()) ==
                 Wanted(list, old(Flags(reg.backends.Contents())), old(streak), true, probe)
    {
      ProbeRound(probe, true);
    }
  }
}
