// Least-connections selection: the first backend whose connections per weight are
// lowest, compared by cross-multiplication in uint64.
module LeastConnections {
  import opened Arithmetic
  import opened Domain
  import opened Wrappers
  import R = Registry

  datatype Load = Load(conns: int32, weight: nat) {
    // What connection conservation and weight validation guarantee.
    predicate Sound() {
      conns >= 0 && WeightOk(weight)
    }

    function Ratio(): real
      requires weight > 0
    {
      conns as real / weight as real
    }
  }

  predicate AllSound(loads: seq<Load>) {
    forall i | 0 <= i < |loads| :: loads[i].Sound()
  }

  // The conversion uint64(int32): negative counts wrap to huge ones.
  function ToUint64(c: int32): uint64 {
    if c >= 0 then c else c + TWO_64
  }

  function Mul64(a: nat, b: nat): uint64 {
    a * b % TWO_64
  }

  // The comparator: negative, zero or positive.
  function Compare(a: Load, b: Load): int {
    var x, y := Mul64(ToUint64(a.conns), b.weight), Mul64(ToUint64(b.conns), a.weight);
    if x < y then -1 else if x > y then 1 else 0
  }

  // Where slices.MinFunc stops: the running minimum is replaced only by something
  // smaller.
  function MinIndex(loads: seq<Load>): (k: nat)
    requires loads != []
    ensures k < |loads|
  {
    var n := |loads| - 1;
    if n == 0 then 0
    else
      var m := MinIndex(loads[..n]);
      if Compare(loads[n], loads[m]) < 0 then n else m
  }

  function LoadOf(b: Backend): Load
    reads b
  {
    Load(b.activeConnectionsNo, b.weight)
  }

  function Loads(bs: seq<Backend>): (loads: seq<Load>)
    reads bs
    ensures |loads| == |bs| && forall i | 0 <= i < |bs| :: loads[i] == LoadOf(bs[i])
  {
    seq(|bs|, i requires 0 <= i < |bs| reads bs => LoadOf(bs[i]))
  }

  // What connection conservation and weight validation guarantee of a backend.
  ghost predicate SoundBackend(b: Backend)
    reads b
  {
    b.activeConnectionsNo >= 0 && WeightOk(b.weight)
  }

  // a has fewer connections per weight than b, or not more, cross-multiplied.
  ghost predicate LighterThan(a: Backend, b: Backend)
    reads a, b
  {
    a.activeConnectionsNo * b.weight < b.activeConnectionsNo * a.weight
  }

  ghost predicate NotHeavierThan(a: Backend, b: Backend)
    reads a, b
  {
    a.activeConnectionsNo * b.weight <= b.activeConnectionsNo * a.weight
  }

  // `b` stands at k: it has fewer connections per weight than every backend before k,
  // and no more than any other.
  ghost predicate LowestAt(bs: seq<Backend>, k: nat, b: Backend)
    reads bs, b
  {
    && k < |bs| && bs[k] == b
    && (forall x | x in bs[..k] :: LighterThan(b, x))
    && (forall x | x in bs :: NotHeavierThan(b, x))
  }

  lemma MinIndexIsLowest(bs: seq<Backend>, k: nat)
    requires bs != [] && k == MinIndex(Loads(bs))
    requires forall x | x in bs :: SoundBackend(x)
    ensures LowestAt(bs, k, bs[k])
  {
    var loads, b := Loads(bs), bs[k];
    assert forall i | 0 <= i < |bs| :: bs[i] in bs;
    MinIndexIff(loads, k);
    forall i | 0 <= i < |bs|
      ensures NotHeavierThan(b, bs[i]) && (i < k ==> LighterThan(b, bs[i]))
    {
      CrossMultiply(b.activeConnectionsNo, b.weight, bs[i].activeConnectionsNo, bs[i].weight);
      assert loads[k].Ratio() <= loads[i].Ratio();
    }
  }

  // slices.MinFunc under the comparator.
  method MinFunc(bs: seq<Backend>) returns (b: Backend)
    requires bs != []
    ensures b == bs[MinIndex(Loads(bs))]
    ensures (forall x | x in bs :: SoundBackend(x)) ==> exists k: nat :: LowestAt(bs, k, b)
  {
    ghost var loads := Loads(bs);
    b := bs[0];
    ghost var k := 0;
    for i := 1 to |bs|
      invariant k < i && b == bs[k] && k == MinIndex(loads[..i])
    {
      assert loads[..i + 1][..i] == loads[..i];
      if Compare(LoadOf(bs[i]), LoadOf(b)) < 0 {
        b, k := bs[i], i;
      }
    }
    assert loads[..|bs|] == loads;
    if forall x | x in bs :: SoundBackend(x) {
      MinIndexIsLowest(bs, k);
    }
  }

  class LeastConnectionsSelector {
    const reg: R.Registry

    constructor (reg: R.Registry)
      ensures this.reg == reg
    {
      this.reg := reg;
    }

    // With sound counts and weights, the first of the healthy backends, in
    // registration order, with the fewest connections per weight; else still what the
    // wrapping comparator makes of them.
    method GetServer() returns (r: Option<Backend>)
      requires reg.backends.Valid()
      ensures var healthy := HealthyOf(reg.backends.Contents());
              && (r.None? <==> healthy == [])
              && (r.Some? ==> r.value == healthy[MinIndex(Loads(healthy))])
              && (r.Some? && (forall x | x in healthy :: SoundBackend(x)) ==>
                    exists k: nat :: LowestAt(healthy, k, r.value))
    {
      var backends := reg.ListHealthyBackends();
      if |backends| == 0 {
        return None;
      }
      var b := MinFunc(backends);
      r := Some(b);
    }
  }

  // ---------------------------------------------------------------- the comparator

  // Whatever the counts, the comparator is the order of the exact cross products, each
  // reduced modulo 2^64.
  lemma CompareIsWrapped(a: Load, b: Load)
    requires a.weight < TWO_64 && b.weight < TWO_64
    ensures var x, y := a.conns * b.weight % TWO_64, b.conns * a.weight % TWO_64;
            && (Compare(a, b) < 0 <==> x < y)
            && (Compare(a, b) > 0 <==> x > y)
  {
    WrapsAsProduct(a.conns, b.weight);
    WrapsAsProduct(b.conns, a.weight);
  }

  lemma WrapsAsProduct(c: int32, w: nat)
    ensures Mul64(ToUint64(c), w) == c * w % TWO_64
  {
    if c < 0 {
      assert ToUint64(c) * w == c * w + w * TWO_64;
      WrapOff(c * w, w);
    }
  }

  lemma WrapOff(x: int, k: nat)
    ensures (x + k * TWO_64) % TWO_64 == x % TWO_64
  {
  }

  lemma ProductFits(c: nat, w: nat)
    requires c < TWO_31 && w <= MAX_WEIGHT
    ensures c * w < TWO_64
  {
    MulMonotone(c, w, MAX_WEIGHT);
  }

  lemma CrossMultiply(a: nat, v: nat, b: nat, w: nat)
    requires v > 0 && w > 0
    ensures a * w < b * v <==> a as real / v as real < b as real / w as real
    ensures a * w == b * v <==> a as real / v as real == b as real / w as real
  {
    var x, y := a as real / v as real, b as real / w as real;
    var vw := v as real * w as real;
    assert x * v as real == a as real && y * w as real == b as real;
    assert (a * w) as real == a as real * w as real == x * vw;
    assert (b * v) as real == b as real * v as real == y * vw;
    Scale(x, y, vw);
  }

  lemma Scale(x: real, y: real, s: real)
    requires s > 0.0
    ensures x * s < y * s <==> x < y
    ensures x * s == y * s <==> x == y
  {
  }

  // For sound loads the products never wrap and the comparator is the order of the
  // exact ratios.
  lemma CompareIsRatioOrder(a: Load, b: Load)
    requires a.Sound() && b.Sound()
    ensures Compare(a, b) < 0 <==> a.Ratio() < b.Ratio()
    ensures Compare(a, b) == 0 <==> a.Ratio() == b.Ratio()
    ensures Compare(a, b) == -Compare(b, a)
  {
    CrossMultiply(a.conns, a.weight, b.conns, b.weight);
    MulExact(a.conns, b.weight);
    MulExact(b.conns, a.weight);
  }

  lemma MulExact(c: int32, w: nat)
    requires c >= 0 && w <= MAX_WEIGHT
    ensures Mul64(ToUint64(c), w) == c * w
  {
    ProductFits(c, w);
  }

  lemma StrictWeakOrder(a: Load, b: Load, c: Load)
    requires a.Sound() && b.Sound() && c.Sound()
    ensures Compare(a, a) == 0
    ensures Compare(a, b) < 0 && Compare(b, c) < 0 ==> Compare(a, c) < 0
    ensures Compare(a, b) == 0 && Compare(b, c) == 0 ==> Compare(a, c) == 0
  {
    CompareIsRatioOrder(a, a);
    CompareIsRatioOrder(a, b);
    CompareIsRatioOrder(b, c);
    CompareIsRatioOrder(a, c);
  }

  // The selected backend is the first, in registration order, of those with the
  // lowest ratio over the whole list.
  lemma {:induction false} MinIndexIff(loads: seq<Load>, k: nat)
    requires AllSound(loads) && loads != [] && k < |loads|
    ensures MinIndex(loads) == k <==>
            && (forall i | 0 <= i < k :: loads[k].Ratio() < loads[i].Ratio())
            && (forall i | k <= i < |loads| :: loads[k].Ratio() <= loads[i].Ratio())
  {
    MinIndexIsFirst(loads);
  }

  lemma {:induction false} MinIndexIsFirst(loads: seq<Load>)
    requires AllSound(loads) && loads != []
    ensures var m := MinIndex(loads);
            && (forall i | 0 <= i < m :: loads[m].Ratio() < loads[i].Ratio())
            && (forall i | m <= i < |loads| :: loads[m].Ratio() <= loads[i].Ratio())
  {
    var n := |loads| - 1;
    if n > 0 {
      var init := loads[..n];
      MinIndexIsFirst(init);
      var m := MinIndex(init);
      assert forall i | 0 <= i < n :: init[i] == loads[i];
      CompareIsRatioOrder(loads[n], loads[m]);
    }
  }

  // Why the counts have to stay non-negative: any negative count makes a backend
  // look busier than every other, however loaded that one is.
  lemma NegativeCountLooksBusy(a: Load, b: Load)
    requires a.conns < 0 && WeightOk(a.weight) && b.Sound()
    ensures Compare(a, b) > 0
  {
    var owed, w := -(a.conns as int), b.weight;
    MulMonotone(owed, w, MAX_WEIGHT);
    NextTurn(w - 1, TWO_64);
    assert ToUint64(a.conns) * w == (w - 1) * TWO_64 + (TWO_64 - owed * w);
    if owed * w > 0 {
      DivModUnique(ToUint64(a.conns) * w, w - 1, TWO_64, TWO_64 - owed * w);
    }
    MulAtLeast(w, owed);
    MulExact(b.conns, a.weight);
    MulMonotone(b.conns, a.weight, MAX_WEIGHT);
  }

  // ---------------------------------------------------------------- greedy fairness

  function LoadsOf(counts: seq<nat>, ws: seq<nat>): (loads: seq<Load>)
    requires |counts| == |ws|
    requires AllWeightsOk(ws) && forall i | 0 <= i < |ws| :: counts[i] < TWO_31
    ensures |loads| == |ws| && forall i | 0 <= i < |ws| :: loads[i] == Load(counts[i], ws[i])
    ensures AllSound(loads)
  {
    seq(|ws|, i requires 0 <= i < |ws| => Load(counts[i], ws[i]))
  }

  // The connection counts of n backends after the given picks, each held open.
  function Held(n: nat, picks: seq<nat>): (counts: seq<nat>)
    requires forall t | 0 <= t < |picks| :: picks[t] < n
    ensures |counts| == n && forall i | 0 <= i < n :: counts[i] <= |picks|
  {
    if picks == [] then seq(n, i => 0)
    else
      var before, k := Held(n, picks[..|picks| - 1]), picks[|picks| - 1];
      before[k := before[k] + 1]
  }

  // A run of select-then-acquire: every pick is the selector's.
  ghost predicate GreedyRun(ws: seq<nat>, picks: seq<nat>) {
    && ws != [] && AllWeightsOk(ws) && |picks| < TWO_31
    && (forall t | 0 <= t < |picks| :: picks[t] < |ws|)
    && (forall t | 0 <= t < |picks| :: Selected(ws, picks[..t], picks[t]))
  }

  ghost predicate Selected(ws: seq<nat>, earlier: seq<nat>, k: nat)
    requires ws != [] && AllWeightsOk(ws) && |earlier| < TWO_31
    requires forall t | 0 <= t < |earlier| :: earlier[t] < |ws|
  {
    k == MinIndex(LoadsOf(Held(|ws|, earlier), ws))
  }

  // The selector's pick has the lowest ratio, cross-multiplied in the integers.
  ghost predicate Lowest(counts: seq<nat>, ws: seq<nat>, k: nat)
    requires k < |counts| == |ws|
  {
    forall j | 0 <= j < |ws| :: AtMost(counts[k], ws[k], counts[j], ws[j])
  }

  ghost predicate AtMost(ci: nat, wi: nat, cj: nat, wj: nat) {
    ci * wj <= cj * wi
  }

  lemma SelectorPicksLowest(counts: seq<nat>, ws: seq<nat>)
    requires ws != [] && |counts| == |ws| && AllWeightsOk(ws)
    requires forall i | 0 <= i < |ws| :: counts[i] < TWO_31
    ensures Lowest(counts, ws, MinIndex(LoadsOf(counts, ws)))
  {
    var loads := LoadsOf(counts, ws);
    var k := MinIndex(loads);
    MinIndexIsFirst(loads);
    forall j | 0 <= j < |ws|
      ensures AtMost(counts[k], ws[k], counts[j], ws[j])
    {
      assert loads[k].Ratio() <= loads[j].Ratio();
      CrossMultiply(counts[k], ws[k], counts[j], ws[j]);
    }
  }

  // Giving one connection back never leaves a backend more loaded than another.
  ghost predicate Balanced(counts: seq<nat>, ws: seq<nat>)
    requires |counts| == |ws|
  {
    forall i, j | 0 <= i < |ws| && 0 <= j < |ws| :: Fair(counts[i], ws[i], counts[j], ws[j])
  }

  ghost predicate Fair(ci: nat, wi: nat, cj: nat, wj: nat) {
    (ci - 1) * wj <= cj * wi
  }

  lemma {:induction false} GreedyIsBalanced(ws: seq<nat>, picks: seq<nat>)
    requires GreedyRun(ws, picks)
    ensures Balanced(Held(|ws|, picks), ws)
  {
    if picks != [] {
      var t := |picks| - 1;
      PrefixIsGreedy(ws, picks, t);
      GreedyIsBalanced(ws, picks[..t]);
      SelectorPicksLowest(Held(|ws|, picks[..t]), ws);
      AcquireKeepsBalance(Held(|ws|, picks[..t]), ws, picks[t]);
    }
  }

  lemma PrefixIsGreedy(ws: seq<nat>, picks: seq<nat>, t: nat)
    requires GreedyRun(ws, picks) && t <= |picks|
    ensures GreedyRun(ws, picks[..t])
  {
    assert forall u | 0 <= u < t :: picks[..t][..u] == picks[..u];
  }

  lemma AcquireKeepsBalance(before: seq<nat>, ws: seq<nat>, k: nat)
    requires k < |before| == |ws| && Balanced(before, ws) && Lowest(before, ws, k)
    ensures Balanced(before[k := before[k] + 1], ws)
  {
    var after := before[k := before[k] + 1];
    forall i, j | 0 <= i < |ws| && 0 <= j < |ws|
      ensures Fair(after[i], ws[i], after[j], ws[j])
    {
      assert Fair(before[i], ws[i], before[j], ws[j]);
      assert AtMost(before[k], ws[k], before[j], ws[j]);
      NextTurn(before[k], ws[i]);
    }
  }

  lemma {:induction false} SumUpdate(s: seq<nat>, k: nat)
    requires k < |s|
    ensures Sum(s[k := s[k] + 1]) == Sum(s) + 1
  {
    var n := |s| - 1;
    var t := s[k := s[k] + 1];
    if k == n {
      assert t[..n] == s[..n];
    } else {
      assert t[..n] == s[..n][k := s[k] + 1];
      SumUpdate(s[..n], k);
    }
  }

  // Held counts the picks of each backend.
  lemma {:induction false} HeldCounts(n: nat, picks: seq<nat>, i: nat)
    requires i < n && forall t | 0 <= t < |picks| :: picks[t] < n
    ensures Held(n, picks)[i] == multiset(picks)[i]
  {
    if picks != [] {
      HeldCounts(n, picks[..|picks| - 1], i);
      assert picks == picks[..|picks| - 1] + [picks[|picks| - 1]];
    }
  }

  lemma {:induction false} HeldSum(n: nat, picks: seq<nat>)
    requires forall t | 0 <= t < |picks| :: picks[t] < n
    ensures Sum(Held(n, picks)) == |picks|
  {
    if picks == [] {
      SumZero(n);
    } else {
      HeldSum(n, picks[..|picks| - 1]);
      SumUpdate(Held(n, picks[..|picks| - 1]), picks[|picks| - 1]);
    }
  }

  lemma {:induction false} SumZero(n: nat)
    ensures Sum(seq(n, i => 0)) == 0
  {
    if n > 0 {
      assert seq(n, i => 0)[..n - 1] == seq(n - 1, i => 0);
      SumZero(n - 1);
    }
  }

  function Own(j: nat, n: nat): int {
    if j < n then 1 else 0
  }

  // The pairwise bounds, each way, added up over all backends but j itself.
  lemma {:induction false} AddUp(counts: seq<nat>, ws: seq<nat>, j: nat, n: nat)
    requires |counts| == |ws| && j < |ws| && n <= |ws| && Balanced(counts, ws)
    ensures (Sum(counts[..n]) - n + Own(j, n)) * ws[j] <= counts[j] * Sum(ws[..n])
    ensures (counts[j] - 1) * Sum(ws[..n]) <= (Sum(counts[..n]) - Own(j, n)) * ws[j]
  {
    if n > 0 {
      var i := n - 1;
      AddUp(counts, ws, j, i);
      assert counts[..n][..i] == counts[..i] && ws[..n][..i] == ws[..i];
      assert Fair(counts[i], ws[i], counts[j], ws[j]);
      assert Fair(counts[j], ws[j], counts[i], ws[i]);
      var own := Own(j, n) - Own(j, i);
      AddScaled(Sum(counts[..i]) - i + Own(j, i), counts[i] as int - 1 + own, ws[j], counts[j], Sum(ws[..i]), ws[i]);
      AddScaled'(counts[j] as int - 1, Sum(ws[..i]), ws[i], Sum(counts[..i]) - Own(j, i), counts[i] as int - own, ws[j]);
    }
  }

  lemma AddScaled(p: int, q: int, w: int, r: int, u: int, v: int)
    requires p * w <= r * u && q * w <= r * v
    ensures (p + q) * w <= r * (u + v)
  {
    assert (p + q) * w == p * w + q * w && r * (u + v) == r * u + r * v;
  }

  lemma AddScaled'(r: int, u: int, v: int, p: int, q: int, w: int)
    requires r * u <= p * w && r * v <= q * w
    ensures r * (u + v) <= (p + q) * w
  {
    assert (p + q) * w == p * w + q * w && r * (u + v) == r * u + r * v;
  }

  // Of m connections over n backends of total weight `all`, a backend of weight w
  // holds c: at least its share of all but n-1 of them, and but for one at most its
  // share of m-1.
  ghost predicate Proportional(c: nat, w: nat, m: nat, all: nat, n: nat) {
    && (m - n + 1) * w <= c * all
    && (c - 1) * all <= (m - 1) * w
  }

  lemma BalancedIsProportional(counts: seq<nat>, ws: seq<nat>, m: nat, i: nat)
    requires i < |counts| == |ws| && Balanced(counts, ws) && Sum(counts) == m
    ensures Proportional(counts[i], ws[i], m, Sum(ws), |ws|)
  {
    AddUp(counts, ws, i, |ws|);
    assert counts[..|ws|] == counts && ws[..|ws|] == ws;
  }

  // Greedy least-connections is proportionally fair: after any number of requests,
  // each selected and then held open, every backend has its weight's share to within
  // one connection per backend.
  lemma GreedyIsProportional(ws: seq<nat>, picks: seq<nat>, i: nat)
    requires GreedyRun(ws, picks) && i < |ws|
    ensures Proportional(multiset(picks)[i], ws[i], |picks|, Sum(ws), |ws|)
  {
    HeldCounts(|ws|, picks, i);
    GreedyIsBalanced(ws, picks);
    HeldSum(|ws|, picks);
    BalancedIsProportional(Held(|ws|, picks), ws, |picks|, i);
  }
}
