// The two-threshold hysteresis automaton of Prober.record, as a function of a
// backend's whole probe history.
module Hysteresis {
  import opened Arithmetic
  import opened Wrappers

  // HealthyThreshold and UnhealthyThreshold, after validation and defaults.
  datatype RawThresholds = Thresholds(up: int, down: int) {
    // Zero means unset.
    function WithDefaults(): (t: Thresholds)
      requires up >= 0 && down >= 0
      ensures up > 0 ==> t.up == up
      ensures down > 0 ==> t.down == down
    {
      Thresholds(if up == 0 then 1 else up, if down == 0 then 3 else down)
    }
  }

  type Thresholds = t: RawThresholds | t.up >= 1 && t.down >= 1 witness Thresholds(1, 3)

  // One probe of one backend: whether it answered, and whether it was part of the
  // initial round.
  datatype Probe = Probe(ok: bool, initial: bool)

  // The signed streak after one more result.
  function Next(t: Thresholds, s: int, ok: bool): int {
    if ok then
      var s := if s < 0 then 0 else s;
      if s < t.up then s + 1 else s
    else
      var s := if s > 0 then 0 else s;
      if s > -t.down then s - 1 else s
  }

  // What is reported to the registry at that moment, if anything.
  function Report(t: Thresholds, s: int, p: Probe): Option<bool> {
    if p.ok then
      var s := if s < 0 then 0 else s;
      if s < t.up && (s + 1 == t.up || p.initial) then Some(true) else None
    else
      var s := if s > 0 then 0 else s;
      if s > -t.down && s - 1 == -t.down then Some(false) else None
  }

  // The stored streak and the backend's health flag after a history, from a backend
  // that was never probed.
  function Streak(t: Thresholds, h: seq<Probe>): int {
    if h == [] then 0 else Next(t, Streak(t, h[..|h| - 1]), h[|h| - 1].ok)
  }

  function Flag(t: Thresholds, h: seq<Probe>): bool {
    if h == [] then false
    else
      match Report(t, Streak(t, h[..|h| - 1]), h[|h| - 1])
      case Some(v) => v
      case None => Flag(t, h[..|h| - 1])
  }

  // ---------------------------------------------------------------- the declarative reading

  // The last `k` results of the history all equal `ok`.
  ghost predicate LastAll(h: seq<Probe>, k: nat, ok: bool) {
    k <= |h| && forall i | |h| - k <= i < |h| :: h[i].ok == ok
  }

  // The length of the trailing run of equal results: the longest such suffix.
  ghost predicate TrailingRun(h: seq<Probe>, k: nat, ok: bool) {
    && LastAll(h, k, ok)
    && (k < |h| ==> h[|h| - 1 - k].ok != ok)
  }

  function Signed(k: nat, ok: bool): int {
    if ok then k else -(k as int)
  }

  function Clamp(lo: int, x: int, hi: int): int
    requires lo <= hi
  {
    if x < lo then lo else if x > hi then hi else x
  }

  // The clamped counter is the signed length of the trailing run, clamped.
  lemma {:induction false} StreakIsTrailingRun(t: Thresholds, h: seq<Probe>, k: nat, ok: bool)
    requires TrailingRun(h, k, ok) && (h != [] ==> k > 0)
    ensures Streak(t, h) == Clamp(-t.down, Signed(k, ok), t.up)
  {
    if h != [] {
      var init := h[..|h| - 1];
      if k > 1 {
        StreakIsTrailingRun(t, init, k - 1, ok);
      } else {
        var j := RunOf(init, !ok);
        StreakIsTrailingRun(t, init, j, !ok);
      }
    }
  }

  lemma RunOf(h: seq<Probe>, ok: bool) returns (k: nat)
    ensures TrailingRun(h, k, ok)
  {
    k := 0;
    while k < |h| && h[|h| - 1 - k].ok == ok
      invariant LastAll(h, k, ok)
    {
      k := k + 1;
    }
  }

  // The streak stands at a threshold exactly when the last that many results agree.
  lemma AtThresholdIff(t: Thresholds, h: seq<Probe>)
    ensures Streak(t, h) == t.up <==> LastAll(h, t.up, true)
    ensures Streak(t, h) == -t.down <==> LastAll(h, t.down, false)
    ensures -t.down <= Streak(t, h) <= t.up
  {
    var ok := h == [] || h[|h| - 1].ok;
    var k := RunOf(h, ok);
    StreakIsTrailingRun(t, h, k, ok);
    if k < |h| {
      assert h[|h| - 1 - k].ok != ok;
    }
    if h != [] {
      assert h[|h| - 1].ok == ok;
    }
  }

  // The probe at index i settles the backend's health: it ends a run that has reached
  // its threshold, or it is a success of the initial round.
  ghost predicate Decisive(t: Thresholds, h: seq<Probe>, i: nat)
    requires i < |h|
  {
    if h[i].ok then h[i].initial || LastAll(h[..i + 1], t.up, true)
    else LastAll(h[..i + 1], t.down, false)
  }

  ghost predicate LatestDecisive(t: Thresholds, h: seq<Probe>, i: int) {
    0 <= i < |h| && Decisive(t, h, i) && forall j | i < j < |h| :: !Decisive(t, h, j)
  }

  // `v` is the verdict of the latest decisive probe, or false before any.
  ghost predicate LatestVerdict(t: Thresholds, h: seq<Probe>, v: bool) {
    || (exists i :: LatestDecisive(t, h, i) && h[i].ok == v)
    || (!v && forall j | 0 <= j < |h| :: !Decisive(t, h, j))
  }

  lemma FlagIsLatestVerdict(t: Thresholds, h: seq<Probe>, v: bool)
    ensures Flag(t, h) == v <==> LatestVerdict(t, h, v)
  {
    FlagFollowsVerdict(t, h);
  }

  lemma {:induction false} FlagFollowsVerdict(t: Thresholds, h: seq<Probe>)
    ensures LatestVerdict(t, h, Flag(t, h))
    ensures Streak(t, h) == t.up ==> Flag(t, h)
    ensures Streak(t, h) == -t.down ==> !Flag(t, h)
  {
    if h != [] {
      var n := |h| - 1;
      var init := h[..n];
      FlagFollowsVerdict(t, init);
      AtThresholdIff(t, init);
      AtThresholdIff(t, h);
      assert h[..n + 1] == h;
      if Decisive(t, h, n) {
        assert LatestDecisive(t, h, n);
      } else {
        VerdictStands(t, h, Flag(t, init));
      }
    }
  }

  lemma VerdictStands(t: Thresholds, h: seq<Probe>, v: bool)
    requires h != [] && LatestVerdict(t, h[..|h| - 1], v) && !Decisive(t, h, |h| - 1)
    ensures LatestVerdict(t, h, v)
  {
    var init := h[..|h| - 1];
    forall i | 0 <= i < |init|
      ensures Decisive(t, h, i) == Decisive(t, init, i)
    {
      assert init[..i + 1] == h[..i + 1];
    }
    if i :| LatestDecisive(t, init, i) && init[i].ok == v {
      assert LatestDecisive(t, h, i);
    }
  }

  // The flag changes only on evidence: it falls when the last UnhealthyThreshold
  // probes all failed, and rises when the last HealthyThreshold all succeeded or on a
  // success of the initial round.
  lemma FlagChangesOnEvidence(t: Thresholds, h: seq<Probe>, p: Probe)
    ensures Flag(t, h) && !Flag(t, h + [p]) ==> LastAll(h + [p], t.down, false)
    ensures !Flag(t, h) && Flag(t, h + [p]) ==> LastAll(h + [p], t.up, true) || (p.initial && p.ok)
  {
    assert (h + [p])[..|h|] == h;
    AtThresholdIff(t, h + [p]);
    AtThresholdIff(t, h);
  }

  // ---------------------------------------------------------------- the flap budget

  function Reports(t: Thresholds, h: seq<Probe>, v: bool): nat {
    if h == [] then 0
    else
      var init := h[..|h| - 1];
      Reports(t, init, v) + if Report(t, Streak(t, init), h[|h| - 1]) == Some(v) then 1 else 0
  }

  // How often the flag itself changes to v.
  function Flips(t: Thresholds, h: seq<Probe>, v: bool): nat {
    if h == [] then 0
    else
      var init := h[..|h| - 1];
      Flips(t, init, v) + if Flag(t, init) != v && Flag(t, h) == v then 1 else 0
  }

  function InitialSuccesses(h: seq<Probe>): nat {
    if h == [] then 0
    else InitialSuccesses(h[..|h| - 1]) + if h[|h| - 1].initial && h[|h| - 1].ok then 1 else 0
  }

  // The three counts start at zero, and one more probe adds one where it reports,
  // flips the flag, or succeeds in an initial round.
  lemma CountsAreExact(t: Thresholds, h: seq<Probe>, p: Probe, v: bool)
    ensures Reports(t, [], v) == Flips(t, [], v) == InitialSuccesses([]) == 0
    ensures Reports(t, h + [p], v) - Reports(t, h, v) == if Report(t, Streak(t, h), p) == Some(v) then 1 else 0
    ensures Flips(t, h + [p], v) - Flips(t, h, v) == if Flag(t, h) != v && Flag(t, h + [p]) == v then 1 else 0
    ensures InitialSuccesses(h + [p]) - InitialSuccesses(h) == if p.initial && p.ok then 1 else 0
  {
    assert (h + [p])[..|h|] == h;
  }

  // Probes already spent on a run that has not reached its threshold.
  function Pending(t: Thresholds, s: int): nat {
    if 0 < s < t.up then s else if -t.down < s < 0 then -s else 0
  }

  function Cost(b: bool, price: nat): nat {
    if b then price else 0
  }

  // One probe pays for what it reports.
  lemma ProbePays(t: Thresholds, s: int, p: Probe)
    requires -t.down <= s <= t.up
    ensures Cost(Report(t, s, p) == Some(true), t.up) + Cost(Report(t, s, p) == Some(false), t.down)
            + Pending(t, Next(t, s, p.ok))
            <= Pending(t, s) + 1 + Cost(p.initial && p.ok, t.up)
  {
  }

  lemma MulCount(price: nat, n: nat, b: bool)
    ensures price * (n + if b then 1 else 0) == price * n + Cost(b, price)
  {
  }

  lemma {:induction false} BudgetWithPending(t: Thresholds, h: seq<Probe>)
    ensures t.up * Reports(t, h, true) + t.down * Reports(t, h, false) + Pending(t, Streak(t, h))
            <= |h| + t.up * InitialSuccesses(h)
  {
    if h != [] {
      var init, p := h[..|h| - 1], h[|h| - 1];
      var s := Streak(t, init);
      BudgetWithPending(t, init);
      AtThresholdIff(t, init);
      ProbePays(t, s, p);
      MulCount(t.up, Reports(t, init, true), Report(t, s, p) == Some(true));
      MulCount(t.down, Reports(t, init, false), Report(t, s, p) == Some(false));
      MulCount(t.up, InitialSuccesses(init), p.initial && p.ok);
    }
  }

  lemma {:induction false} FlipsAreReports(t: Thresholds, h: seq<Probe>, v: bool)
    ensures Flips(t, h, v) <= Reports(t, h, v)
  {
    if h != [] {
      FlipsAreReports(t, h[..|h| - 1], v);
    }
  }

  // Over any m probes of a newly seen backend, HealthyThreshold times the up reports
  // plus UnhealthyThreshold times the down reports stay within m, plus one more
  // HealthyThreshold for each success of an initial round. The same holds of the
  // changes of the flag.
  lemma FlapBudget(t: Thresholds, h: seq<Probe>)
    ensures t.up * Reports(t, h, true) + t.down * Reports(t, h, false) <= |h| + t.up * InitialSuccesses(h)
    ensures t.up * Flips(t, h, true) + t.down * Flips(t, h, false) <= |h| + t.up * InitialSuccesses(h)
  {
    BudgetWithPending(t, h);
    FlipsAreReports(t, h, true);
    FlipsAreReports(t, h, false);
    MulMonotone(t.up, Flips(t, h, true), Reports(t, h, true));
    MulMonotone(t.down, Flips(t, h, false), Reports(t, h, false));
  }

  // The budget cannot be tightened: a backend that alternates between just enough
  // successes and just enough failures flips all the time its probes allow.
  function Sawtooth(t: Thresholds, k: nat): seq<Probe> {
    if k == 0 then [] else Sawtooth(t, k - 1) + Same(t.up, true) + Same(t.down, false)
  }

  function Same(k: nat, ok: bool): (s: seq<Probe>)
    ensures |s| == k
  {
    if k == 0 then [] else Same(k - 1, ok) + [Probe(ok, false)]
  }

  lemma OneMore(t: Thresholds, h: seq<Probe>, p: Probe)
    ensures Streak(t, h + [p]) == Next(t, Streak(t, h), p.ok)
    ensures Flag(t, h + [p]) == match Report(t, Streak(t, h), p) case Some(v) => v case None => Flag(t, h)
    ensures forall v :: Flips(t, h + [p], v) == Flips(t, h, v) + if Flag(t, h) != v && Flag(t, h + [p]) == v then 1 else 0
  {
    assert (h + [p])[..|h|] == h;
  }

  lemma {:induction false} RunUp(t: Thresholds, h: seq<Probe>, k: nat)
    requires k <= t.up && Streak(t, h) <= 0 && !Flag(t, h)
    ensures var g := h + Same(k, true);
            && (k > 0 ==> Streak(t, g) == k) && Flag(t, g) == (k == t.up)
            && Flips(t, g, true) == Flips(t, h, true) + (if k == t.up then 1 else 0)
            && Flips(t, g, false) == Flips(t, h, false)
  {
    if k == 0 {
      assert h + [] == h;
    } else {
      RunUp(t, h, k - 1);
      OneMore(t, h + Same(k - 1, true), Probe(true, false));
      assert h + Same(k, true) == h + Same(k - 1, true) + [Probe(true, false)];
    }
  }

  lemma {:induction false} RunDown(t: Thresholds, h: seq<Probe>, k: nat)
    requires k <= t.down && Streak(t, h) >= 0 && Flag(t, h)
    ensures var g := h + Same(k, false);
            && (k > 0 ==> Streak(t, g) == Signed(k, false)) && Flag(t, g) == (k < t.down)
            && Flips(t, g, false) == Flips(t, h, false) + (if k == t.down then 1 else 0)
            && Flips(t, g, true) == Flips(t, h, true)
  {
    if k == 0 {
      assert h + [] == h;
    } else {
      RunDown(t, h, k - 1);
      OneMore(t, h + Same(k - 1, false), Probe(false, false));
      assert h + Same(k, false) == h + Same(k - 1, false) + [Probe(false, false)];
    }
  }

  lemma OneTooth(t: Thresholds, h: seq<Probe>, g: seq<Probe>)
    requires Streak(t, h) <= 0 && !Flag(t, h)
    requires g == h + Same(t.up, true) + Same(t.down, false)
    ensures Streak(t, g) <= 0 && !Flag(t, g)
    ensures Flips(t, g, true) == Flips(t, h, true) + 1 && Flips(t, g, false) == Flips(t, h, false) + 1
  {
    RunUp(t, h, t.up);
    RunDown(t, h + Same(t.up, true), t.down);
  }

  lemma {:induction false} SawtoothFlips(t: Thresholds, k: nat)
    ensures var h := Sawtooth(t, k);
            && Streak(t, h) <= 0 && !Flag(t, h) && Flips(t, h, true) == k && Flips(t, h, false) == k
  {
    if k > 0 {
      SawtoothFlips(t, k - 1);
      OneTooth(t, Sawtooth(t, k - 1), Sawtooth(t, k));
    }
  }

  lemma {:induction false} SawtoothLength(t: Thresholds, k: nat)
    ensures t.up * k + t.down * k == |Sawtooth(t, k)|
  {
    if k > 0 {
      SawtoothLength(t, k - 1);
      MulCount(t.up, k - 1, true);
      MulCount(t.down, k - 1, true);
    }
  }

  lemma BudgetIsTight(t: Thresholds, k: nat)
    ensures var h := Sawtooth(t, k);
            && Flips(t, h, true) == k
            && t.up * Flips(t, h, true) + t.down * Flips(t, h, false) == |h|
  {
    SawtoothFlips(t, k);
    SawtoothLength(t, k);
  }
}
