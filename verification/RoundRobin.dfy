// Round-robin selection: a wrapping 32-bit counter and a modular sweep that skips
// unhealthy backends.
module RoundRobin {
  import opened Arithmetic
  import opened Domain
  import opened Wrappers
  import R = Registry

  // The index that step `i` of a sweep from counter value `start` looks at. The sum
  // is a uint32 and wraps before it is reduced modulo the list length.
  function Visit(start: uint32, i: nat, n: nat): (k: nat)
    requires n > 0
    ensures k < n
  {
    (start + i) % TWO_32 % n
  }

  // The first healthy index seen from step `i` on.
  function Sweep(flags: seq<bool>, start: uint32, i: nat): (r: Option<nat>)
    requires i <= |flags|
    ensures r.Some? ==> r.value < |flags| && flags[r.value]
    decreases |flags| - i
  {
    if i == |flags| then None
    else
      var k := Visit(start, i, |flags|);
      if flags[k] then Some(k) else Sweep(flags, start, i + 1)
  }

  class RoundRobinSelector {
    const reg: R.Registry
    var current: uint32

    constructor (reg: R.Registry)
      ensures this.reg == reg && current == 0
    {
      this.reg := reg;
      current := 0;
    }

    // The list length is truncated to 32 bits, so at most that much of the list is
    // swept. With nothing to sweep the counter does not move.
    method GetServer() returns (r: Option<Backend>)
      requires reg.backends.Valid()
      modifies this`current
      ensures var swept := reg.backends.Contents()[..reg.backends.len % TWO_32];
              if swept == [] then r == None && current == old(current)
              else
                && current == (old(current) + 1) % TWO_32
                && match Sweep(Flags(swept), old(current), 0)
                   case Some(k) => r == Some(swept[k])
                   case None => r == None
    {
      var backends := reg.ListBackends();
      var n := backends.len % TWO_32;
      if n == 0 {
        return None;
      }
      var start := current;
      current := (current + 1) % TWO_32;
      ghost var swept := backends.Contents()[..n];
      ghost var flags := Flags(swept);
      for i := 0 to n
        invariant Sweep(flags, start, i) == Sweep(flags, start, 0)
      {
        var k := Visit(start, i, n);
        var b := backends.data[k];
        assert b == swept[k];
        if b.healthy {
          return Some(b);
        }
      }
      return None;
    }
  }

  // ---------------------------------------------------------------- completeness of one sweep

  ghost predicate VisitsAll(start: uint32, n: nat)
    requires n > 0
  {
    forall k | 0 <= k < n :: Reached(start, n, k)
  }

  ghost predicate Reached(start: uint32, n: nat, k: nat)
    requires n > 0
  {
    exists i | 0 <= i < n :: Visit(start, i, n) == k
  }

  // The counter does not wrap during the sweep, or wraps where the cycle does.
  predicate WrapsCleanly(start: uint32, n: nat)
    requires n > 0
  {
    start + n <= TWO_32 || TWO_32 % n == 0
  }

  // Then step i looks i places after the first.
  lemma VisitCleanly(start: uint32, i: nat, n: nat)
    requires n > 0 && i < n < TWO_32 && WrapsCleanly(start, n)
    ensures Visit(start, i, n) == (start + i) % n
  {
    if start + i >= TWO_32 {
      var rest := start + i - TWO_32;
      var q := TWO_32 / n;
      assert TWO_32 == q * n;
      assert rest == rest / n * n + rest % n;
      assert (rest / n + q) * n == rest / n * n + q * n;
      DivModUnique(start + i, rest / n + q, n, rest % n);
    }
  }

  // The distance forward from position `p` to the next position with index `k`.
  function Ahead(p: nat, k: nat, n: nat): (d: nat)
    requires k < n
    ensures d < n
  {
    if p % n <= k then k - p % n else k + n - p % n
  }

  lemma AheadIff(p: nat, k: nat, n: nat, d: nat)
    requires k < n && d < n
    ensures (p + d) % n == k <==> d == Ahead(p, k, n)
  {
    ModForward(p, d, n);
  }

  // The index a sweep misses when the counter wraps at the wrong place.
  function Missed(start: uint32, n: nat): (k: nat)
    requires n > 0 && !WrapsCleanly(start, n) && n < TWO_32
    ensures k < n
  {
    var q, m := TWO_32 % n, TWO_32 - start;
    if q >= m then n - 1 else n - m + q - 1
  }

  lemma MissedIsMissed(start: uint32, n: nat)
    requires 0 < n < TWO_32 && !WrapsCleanly(start, n)
    ensures !Reached(start, n, Missed(start, n))
  {
    var q, m := TWO_32 % n, TWO_32 - start;
    forall i | 0 <= i < n
      ensures Visit(start, i, n) != Missed(start, n)
    {
      if i < m {
        ModForward(start + i, m - i, n);
        assert start + i + (m - i) == TWO_32;
      } else {
        assert (start + i) % TWO_32 == i - m;
        DivModUnique(i - m, 0, n, i - m);
      }
    }
  }

  lemma CleanSweepReaches(start: uint32, n: nat, k: nat)
    requires k < n < TWO_32 && WrapsCleanly(start, n)
    ensures Reached(start, n, k)
  {
    var i := Ahead(start, k, n);
    AheadIff(start, k, n, i);
    VisitCleanly(start, i, n);
  }

  lemma CleanSweepOnce(start: uint32, n: nat, i: nat, j: nat)
    requires i < n < TWO_32 && j < n && WrapsCleanly(start, n)
    requires Visit(start, i, n) == Visit(start, j, n)
    ensures i == j
  {
    var k := Visit(start, i, n);
    VisitCleanly(start, i, n);
    VisitCleanly(start, j, n);
    AheadIff(start, k, n, i);
    AheadIff(start, k, n, j);
  }

  // A sweep looks at every backend exactly when the counter wraps cleanly, and then
  // at each of them once.
  lemma SweepCoversIff(start: uint32, n: nat)
    requires 0 < n < TWO_32
    ensures VisitsAll(start, n) <==> WrapsCleanly(start, n)
    ensures WrapsCleanly(start, n) ==>
              forall i, j | 0 <= i < j < n :: Visit(start, i, n) != Visit(start, j, n)
  {
    if WrapsCleanly(start, n) {
      forall k | 0 <= k < n
        ensures Reached(start, n, k)
      {
        CleanSweepReaches(start, n, k);
      }
      forall i, j | 0 <= i < j < n
        ensures Visit(start, i, n) != Visit(start, j, n)
      {
        if Visit(start, i, n) == Visit(start, j, n) {
          CleanSweepOnce(start, n, i, j);
        }
      }
    } else {
      MissedIsMissed(start, n);
    }
  }

  lemma {:induction false} SweepFindsFirst(flags: seq<bool>, start: uint32, i: nat)
    requires i <= |flags|
    ensures match Sweep(flags, start, i)
            case None => forall j | i <= j < |flags| :: !flags[Visit(start, j, |flags|)]
            case Some(k) =>
              exists j | i <= j < |flags| ::
                Visit(start, j, |flags|) == k && forall e | i <= e < j :: !flags[Visit(start, e, |flags|)]
    decreases |flags| - i
  {
    if i < |flags| {
      if flags[Visit(start, i, |flags|)] {
        assert Visit(start, i, |flags|) == Sweep(flags, start, i).value;
      } else {
        SweepFindsFirst(flags, start, i + 1);
      }
    }
  }

  lemma CleanSweepFinds(flags: seq<bool>, start: uint32, k: nat)
    requires k < |flags| < TWO_32 && flags[k] && WrapsCleanly(start, |flags|)
    ensures Sweep(flags, start, 0).Some?
  {
    CleanSweepReaches(start, |flags|, k);
    SweepFindsFirst(flags, start, 0);
  }

  // "No backends" is the right answer for every health assignment exactly when the
  // counter wraps cleanly; otherwise a healthy backend can be overlooked.
  lemma RefusesOnlyWhenNoneHealthyIff(start: uint32, n: nat)
    requires 0 < n < TWO_32
    ensures (forall flags: seq<bool> | |flags| == n && true in flags :: Sweep(flags, start, 0).Some?) <==>
            WrapsCleanly(start, n)
  {
    if WrapsCleanly(start, n) {
      forall flags: seq<bool> | |flags| == n && true in flags
        ensures Sweep(flags, start, 0).Some?
      {
        var k :| 0 <= k < n && flags[k];
        CleanSweepFinds(flags, start, k);
      }
    } else {
      var lone := seq(n, i => i == Missed(start, n));
      assert lone[Missed(start, n)];
      MissedIsMissed(start, n);
      SweepFindsFirst(lone, start, 0);
      if Sweep(lone, start, 0).Some? {
        assert Reached(start, n, Missed(start, n));
      }
    }
  }

  // Three backends and the last counter value: the sweep looks at 0, 0, 1.
  lemma WrapOverlooksThirdBackend()
    ensures Sweep([false, false, true], TWO_32 - 1, 0) == None
  {
    var flags := [false, false, true];
    assert Visit(TWO_32 - 1, 0, 3) == 0 && Visit(TWO_32 - 1, 1, 3) == 0 && Visit(TWO_32 - 1, 2, 3) == 1;
    SweepFindsFirst(flags, TWO_32 - 1, 0);
  }

  // ---------------------------------------------------------------- under interference

  // The sweep while the prober keeps changing flags: step i reads its flag from the
  // state of affairs at its own moment, flagsAt(i).
  function SweepDuring(flagsAt: nat -> seq<bool>, n: nat, start: uint32, i: nat): Option<nat>
    requires i <= n && forall j: nat :: |flagsAt(j)| == n
    decreases n - i
  {
    if i == n then None
    else
      var k := Visit(start, i, n);
      if flagsAt(i)[k] then Some(k) else SweepDuring(flagsAt, n, start, i + 1)
  }

  lemma {:induction false} SweepDuringFinds(flagsAt: nat -> seq<bool>, n: nat, start: uint32, i: nat)
    requires i <= n && forall j: nat :: |flagsAt(j)| == n
    ensures match SweepDuring(flagsAt, n, start, i)
            case None => forall j | i <= j < n :: !flagsAt(j)[Visit(start, j, n)]
            case Some(k) => exists j | i <= j < n :: Visit(start, j, n) == k && flagsAt(j)[k]
    ensures (forall j: nat :: flagsAt(j) == flagsAt(0)) ==> SweepDuring(flagsAt, n, start, i) == Sweep(flagsAt(0), start, i)
    decreases n - i
  {
    if i < n {
      if flagsAt(i)[Visit(start, i, n)] {
        assert Visit(start, i, n) == SweepDuring(flagsAt, n, start, i).value;
      } else {
        SweepDuringFinds(flagsAt, n, start, i + 1);
      }
    }
  }

  // Whatever the counter does, a backend that is returned was healthy at some moment
  // of the call, and a refusal has seen every backend it looked at unhealthy.
  lemma ReturnedWasHealthy(flagsAt: nat -> seq<bool>, n: nat, start: uint32)
    requires n > 0 && forall j: nat :: |flagsAt(j)| == n
    ensures match SweepDuring(flagsAt, n, start, 0)
            case Some(k) => k < n && exists j: nat :: j < n && flagsAt(j)[k]
            case None => forall j: nat | j < n :: !flagsAt(j)[Visit(start, j, n)]
  {
    SweepDuringFinds(flagsAt, n, start, 0);
  }

  // A call is never refused while some backend stays healthy throughout it, as long
  // as the counter wraps cleanly.
  lemma SteadyBackendIsEnough(flagsAt: nat -> seq<bool>, n: nat, start: uint32, steady: nat)
    requires steady < n < TWO_32 && WrapsCleanly(start, n)
    requires forall j: nat :: |flagsAt(j)| == n
    requires forall j: nat | j < n :: flagsAt(j)[steady]
    ensures SweepDuring(flagsAt, n, start, 0).Some?
  {
    SweepDuringFinds(flagsAt, n, start, 0);
    CleanSweepReaches(start, n, steady);
    var i :| 0 <= i < n && Visit(start, i, n) == steady;
    assert flagsAt(i)[Visit(start, i, n)];
  }

  // ---------------------------------------------------------------- shares

  // The length of the cyclic run of unhealthy backends just before index `k`,
  // counted from distance `d` on.
  function GapFrom(flags: seq<bool>, k: nat, d: nat): (g: nat)
    requires k < |flags| && d < |flags|
    ensures d <= g < |flags|
    decreases |flags| - d
  {
    if d == |flags| - 1 || flags[Before(k, d + 1, |flags|)] then d else GapFrom(flags, k, d + 1)
  }

  function Gap(flags: seq<bool>, k: nat): nat
    requires k < |flags|
  {
    GapFrom(flags, k, 0)
  }

  // The index `d` places before `k`.
  function Before(k: nat, d: nat, n: nat): (r: nat)
    requires k < n && d <= n
    ensures r < n
  {
    if d <= k then k - d else k + n - d
  }

  lemma {:induction false} GapIsRun(flags: seq<bool>, k: nat, d: nat)
    requires k < |flags| && d < |flags|
    ensures var g := GapFrom(flags, k, d);
            && (forall e | d < e <= g :: !flags[Before(k, e, |flags|)])
            && (g < |flags| - 1 ==> flags[Before(k, g + 1, |flags|)])
    decreases |flags| - d
  {
    if d < |flags| - 1 && !flags[Before(k, d + 1, |flags|)] {
      GapIsRun(flags, k, d + 1);
    }
  }

  lemma VisitBefore(p: uint32, k: nat, n: nat, e: nat)
    requires k < n < TWO_32 && WrapsCleanly(p, n) && e <= Ahead(p, k, n)
    ensures Visit(p, e, n) == Before(k, Ahead(p, k, n) - e, n)
  {
    VisitCleanly(p, e, n);
    ModForward(p, e, n);
  }

  // A call with counter value `p` goes to healthy backend `k` exactly when `p`
  // stands on `k` or in the unhealthy run just before it.
  lemma ChosenIff(flags: seq<bool>, p: uint32, k: nat)
    requires k < |flags| < TWO_32 && flags[k] && WrapsCleanly(p, |flags|)
    ensures Sweep(flags, p, 0) == Some(k) <==> Ahead(p, k, |flags|) <= Gap(flags, k)
  {
    var n, a, g := |flags|, Ahead(p, k, |flags|), Gap(flags, k);
    SweepFindsFirst(flags, p, 0);
    GapIsRun(flags, k, 0);
    forall e | 0 <= e <= a
      ensures Visit(p, e, n) == Before(k, a - e, n)
    {
      VisitBefore(p, k, n, e);
    }
    assert Visit(p, a, n) == k;
    var j :| 0 <= j < n && flags[Visit(p, j, n)] && Sweep(flags, p, 0) == Some(Visit(p, j, n))
             && forall e | 0 <= e < j :: !flags[Visit(p, e, n)];
    assert j <= a;
    if a <= g {
      assert forall e | 0 <= e < a :: !flags[Visit(p, e, n)];
    } else {
      assert flags[Before(k, g + 1, n)];
      assert Visit(p, a - (g + 1), n) == Before(k, g + 1, n);
      if Visit(p, j, n) == k { CleanSweepOnce(p, n, j, a); }
    }
  }

  // The call made when the counter has been advanced p times before.
  function CallAt(flags: seq<bool>, p: nat): (r: Option<nat>)
    ensures r.Some? ==> r.value < |flags| && flags[r.value]
  {
    Sweep(flags, p % TWO_32, 0)
  }

  // None of the calls p = c, ..., c+m-1 sweeps across the wrap of the counter, or the
  // wrap falls where the cycle ends.
  predicate CleanCalls(c: nat, m: nat, n: nat)
    requires n > 0
  {
    c + m + n <= TWO_32 + 1 || TWO_32 % n == 0
  }

  // ChosenIff for any number of earlier calls.
  lemma CallGoesToIff(flags: seq<bool>, p: nat, k: nat)
    requires k < |flags| < TWO_32 && flags[k] && CleanCalls(p, 1, |flags|)
    ensures CallAt(flags, p).Some?
    ensures CallAt(flags, p) == Some(k) <==> Ahead(p, k, |flags|) <= Gap(flags, k)
  {
    if p < TWO_32 {
      assert p % TWO_32 == p;
    } else {
      ModOfMultiple(p, TWO_32, |flags|);
    }
    CleanSweepFinds(flags, p % TWO_32, k);
    ChosenIff(flags, p % TWO_32, k);
  }

  // How many of the calls c, ..., c+m-1 go to index k.
  function Served(flags: seq<bool>, k: nat, c: nat, m: nat): nat {
    if m == 0 then 0
    else Served(flags, k, c, m - 1) + if CallAt(flags, c + m - 1) == Some(k) then 1 else 0
  }

  // How many of the first x positions of a turn that ends on k are k's.
  function Share(n: nat, g: nat, x: nat): nat
    requires g < n
  {
    if x <= n - 1 - g then 0 else x - (n - 1 - g)
  }

  // m calls seen as whole turns, each ending on k, and a rest.
  lemma {:induction false} ServedInTurns(flags: seq<bool>, k: nat, c: nat, m: nat) returns (turns: nat, rest: nat)
    requires k < |flags| < TWO_32 && flags[k]
    requires CleanCalls(c, m, |flags|)
    ensures rest < |flags|
    ensures var n, g := |flags|, Gap(flags, k);
            var lead := n - 1 - Ahead(c, k, n);
            && m + lead == turns * n + rest
            && Ahead(c + m, k, n) == n - 1 - rest
            && Served(flags, k, c, m) + Share(n, g, lead) == turns * (1 + g) + Share(n, g, rest)
    decreases m
  {
    var n, g := |flags|, Gap(flags, k);
    if m == 0 {
      turns, rest := 0, n - 1 - Ahead(c, k, n);
    } else {
      turns, rest := ServedInTurns(flags, k, c, m - 1);
      CallGoesToIff(flags, c + m - 1, k);
      ModForward(c + m - 1, 1, n);
      if rest + 1 < n {
        rest := rest + 1;
      } else {
        assert (turns + 1) * n == turns * n + n;
        assert (turns + 1) * (1 + g) == turns * (1 + g) + 1 + g;
        turns, rest := turns + 1, 0;
      }
    }
  }

  // Exact shares under failures: over any n calls in a row, healthy backend k
  // answers for itself and for the unhealthy run just before it.
  lemma ShareOfOneTurn(flags: seq<bool>, k: nat, c: nat)
    requires k < |flags| < TWO_32 && flags[k] && CleanCalls(c, |flags|, |flags|)
    ensures Served(flags, k, c, |flags|) == 1 + Gap(flags, k)
  {
    var n := |flags|;
    var turns, rest := ServedInTurns(flags, k, c, n);
    if turns != 1 {
      TurnsApart(turns, 1, rest, n - 1 - Ahead(c, k, n), n);
    }
  }

  lemma TurnsApart(t: nat, u: nat, r: nat, s: nat, n: nat)
    requires r < n && s < n && t * n + r == u * n + s
    ensures t == u && r == s
  {
    DivModUnique(t * n + r, t, n, r);
    DivModUnique(u * n + s, u, n, s);
  }

  // Over any m calls backend k answers between floor(m/n) and floor(m/n)+1 turns'
  // worth of them.
  lemma ShareOfManyCalls(flags: seq<bool>, k: nat, c: nat, m: nat)
    requires k < |flags| < TWO_32 && flags[k] && CleanCalls(c, m, |flags|)
    ensures var turns, share := m / |flags|, 1 + Gap(flags, k);
            turns * share <= Served(flags, k, c, m) <= turns * share + share
  {
    var turns, rest := ServedInTurns(flags, k, c, m);
    var q, r := DivMod(m, |flags|);
    ShareBounds(|flags|, Gap(flags, k), |flags| - 1 - Ahead(c, k, |flags|), q, r, turns, rest, Served(flags, k, c, m));
  }

  lemma ShareBounds(n: nat, g: nat, lead: nat, q: nat, r: nat, turns: nat, rest: nat, served: nat)
    requires g < n && lead < n && rest < n && r < n
    requires q * n + r + lead == turns * n + rest
    requires served + Share(n, g, lead) == turns * (1 + g) + Share(n, g, rest)
    ensures q * (1 + g) <= served <= q * (1 + g) + 1 + g
  {
    if r + lead < n {
      TurnsApart(turns, q, rest, r + lead, n);
    } else {
      NextTurn(q, n);
      NextTurn(q, 1 + g);
      TurnsApart(turns, q + 1, rest, r + lead - n, n);
    }
  }

  // With every backend up, no two of them are ever more than one call apart.
  lemma FairWhenAllHealthy(flags: seq<bool>, j: nat, k: nat, c: nat, m: nat)
    requires j < |flags| < TWO_32 && k < |flags| && CleanCalls(c, m, |flags|)
    requires forall i | 0 <= i < |flags| :: flags[i]
    ensures Served(flags, j, c, m) <= Served(flags, k, c, m) + 1
  {
    ShareOfManyCalls(flags, j, c, m);
    ShareOfManyCalls(flags, k, c, m);
    assert Gap(flags, j) == 0 && Gap(flags, k) == 0;
  }

  // Over any stretch of calls, no healthy backend answers two more than another.
  ghost predicate Fair(flags: seq<bool>)
    requires flags != []
  {
    forall j, k, c: nat, m: nat | 0 <= j < |flags| && 0 <= k < |flags| && flags[j] && flags[k] && CleanCalls(c, m, |flags|) ::
      Served(flags, k, c, m) <= Served(flags, j, c, m) + 1
  }

  // While p stands on k or in the unhealthy run before it, every call goes to k.
  lemma {:induction false} RunGoesTo(flags: seq<bool>, k: nat, j: nat, c: nat, m: nat)
    requires k < |flags| < TWO_32 && flags[k] && j != k && CleanCalls(c, m, |flags|)
    requires m <= Ahead(c, k, |flags|) + 1 && Ahead(c, k, |flags|) <= Gap(flags, k)
    ensures Served(flags, k, c, m) == m && Served(flags, j, c, m) == 0
    decreases m
  {
    if m > 0 {
      RunGoesTo(flags, k, j, c, m - 1);
      ModForward(c, m - 1, |flags|);
      CallGoesToIff(flags, c + m - 1, k);
    }
  }

  // A healthy backend with an unhealthy one just before it runs ahead of any other by
  // the length of that run, plus one.
  lemma GapIsUnfair(flags: seq<bool>, k: nat, j: nat)
    requires k < |flags| && j < |flags| && j != k && flags[j] && flags[k] && 3 * |flags| <= TWO_32
    requires Gap(flags, k) >= 1
    ensures !Fair(flags)
  {
    var n, g := |flags|, Gap(flags, k);
    var c := Before(k, g, n);
    DivModUnique(c, 0, n, c);
    assert Ahead(c, k, n) == g;
    RunGoesTo(flags, k, j, c, g + 1);
    assert Served(flags, k, c, g + 1) > Served(flags, j, c, g + 1) + 1;
  }

  // Next to an unhealthy backend there is a healthy one that answers for it.
  lemma SomeGap(flags: seq<bool>, up: nat, down: nat) returns (k: nat)
    requires up < |flags| && down < |flags| && flags[up] && !flags[down] && 3 * |flags| <= TWO_32
    ensures k < |flags| && flags[k] && Gap(flags, k) >= 1
  {
    CallGoesToIff(flags, down, up);
    k := CallAt(flags, down).value;
    CallGoesToIff(flags, down, k);
    DivModUnique(down, 0, |flags|, down);
  }

  // Round-robin is fair exactly when every backend is healthy or at most one is. One
  // backend down is enough to upset it as soon as two others are up.
  lemma FairIff(flags: seq<bool>)
    requires flags != [] && 3 * |flags| <= TWO_32
    ensures Fair(flags) <==>
            || (forall i | 0 <= i < |flags| :: flags[i])
            || (forall i, j | 0 <= i < j < |flags| :: !(flags[i] && flags[j]))
  {
    if forall i | 0 <= i < |flags| :: flags[i] {
      forall j, k, c: nat, m: nat | 0 <= j < |flags| && 0 <= k < |flags| && CleanCalls(c, m, |flags|)
        ensures Served(flags, k, c, m) <= Served(flags, j, c, m) + 1
      {
        FairWhenAllHealthy(flags, k, j, c, m);
      }
    } else if i, j :| 0 <= i < j < |flags| && flags[i] && flags[j] {
      var down :| 0 <= down < |flags| && !flags[down];
      var k := SomeGap(flags, i, down);
      GapIsUnfair(flags, k, if k == i then j else i);
    } else {
      forall j, k | 0 <= j < |flags| && 0 <= k < |flags| && flags[j] && flags[k]
        ensures j == k
      {
      }
    }
  }

  // How unfair it gets: with all but two neighbours down, one of the two answers every
  // call of a turn but one.
  lemma UnfairWhenNeighboursAreDown(n: nat, c: nat)
    requires 2 <= n < TWO_32 && CleanCalls(c, n, n)
    ensures var flags := seq(n, i => i == 0 || i == n - 1);
            && Served(flags, n - 1, c, n) == n - 1
            && Served(flags, 0, c, n) == 1
  {
    var flags := seq(n, i => i == 0 || i == n - 1);
    ShareOfOneTurn(flags, n - 1, c);
    ShareOfOneTurn(flags, 0, c);
    GapIsRun(flags, n - 1, 0);
    GapIsRun(flags, 0, 0);
    assert flags[Before(0, 1, n)];
    assert flags[Before(n - 1, n - 1, n)];
  }
}
