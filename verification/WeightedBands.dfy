// Weighted random and hash selection: both lay the healthy backends end to end as
// bands of their weight and find the band a number falls in.
module WeightedBands {
  import opened Arithmetic
  import opened Domain
  import opened Lists
  import opened Wrappers
  import R = Registry

  // Backend k's band is [Sum(ws[..k]), Sum(ws[..k+1])).
  ghost predicate InBand(ws: seq<nat>, k: nat, pick: nat)
    requires k < |ws|
  {
    Sum(ws[..k]) <= pick < Sum(ws[..k + 1])
  }

  function Band(ws: seq<nat>, pick: nat): (k: nat)
    requires pick < Sum(ws)
    ensures k < |ws|
  {
    var n := |ws| - 1;
    if Sum(ws[..n]) <= pick then n else Band(ws[..n], pick)
  }

  lemma {:induction false} SumMonotone(ws: seq<nat>, j: nat, k: nat)
    requires j <= k <= |ws|
    ensures Sum(ws[..j]) <= Sum(ws[..k])
    decreases k
  {
    if j < k {
      SumMonotone(ws, j, k - 1);
      assert ws[..k][..k - 1] == ws[..k - 1];
    }
  }

  lemma SumStep(ws: seq<nat>, k: nat)
    requires k < |ws|
    ensures Sum(ws[..k + 1]) == Sum(ws[..k]) + ws[k]
  {
    assert ws[..k + 1][..k] == ws[..k];
  }

  // Every number below the total lies in one band and no other.
  lemma {:induction false} BandIff(ws: seq<nat>, pick: nat, k: nat)
    requires pick < Sum(ws) && k < |ws|
    ensures Band(ws, pick) == k <==> InBand(ws, k, pick)
  {
    BandContains(ws, pick);
    var b := Band(ws, pick);
    if k < b { SumMonotone(ws, k + 1, b); }
    if b < k { SumMonotone(ws, b + 1, k); }
  }

  lemma {:induction false} BandContains(ws: seq<nat>, pick: nat)
    requires pick < Sum(ws)
    ensures InBand(ws, Band(ws, pick), pick)
  {
    var n := |ws| - 1;
    assert ws[..n + 1] == ws;
    if pick < Sum(ws[..n]) {
      BandContains(ws[..n], pick);
      var k := Band(ws, pick);
      assert ws[..n][..k] == ws[..k] && ws[..n][..k + 1] == ws[..k + 1];
    }
  }

  lemma {:induction false} SumBound(ws: seq<nat>)
    requires AllWeightsOk(ws)
    ensures |ws| <= Sum(ws) <= |ws| * MAX_WEIGHT
  {
    if ws != [] {
      SumBound(ws[..|ws| - 1]);
    }
  }

  // ---------------------------------------------------------------- the selectors

  // The loop that adds the weights up in a uint64.
  method SumWeights(healthy: seq<Backend>) returns (total: uint64)
    requires |healthy| * MAX_WEIGHT < TWO_64 && R.WeightsOk(healthy)
    ensures total == Sum(Weights(healthy)) && total >= |healthy|
  {
    ghost var ws := Weights(healthy);
    total := 0;
    for i := 0 to |healthy|
      invariant total == Sum(ws[..i])
    {
      SumStep(ws, i);
      SumBound(ws[..i + 1]);
      total := (total + healthy[i].weight) % TWO_64;
    }
    assert ws[..|healthy|] == ws;
    SumBound(ws);
  }

  // The loop that walks the bands, subtracting in a uint64. The source's fallback
  // after the loop is never reached.
  method WalkBands(healthy: seq<Backend>, number: uint64) returns (b: Backend)
    requires number < Sum(Weights(healthy))
    ensures b == healthy[Band(Weights(healthy), number)]
    ensures exists k :: 0 <= k < |healthy| && b == healthy[k] && InBand(Weights(healthy), k, number)
  {
    ghost var ws := Weights(healthy);
    assert ws[..|ws|] == ws;
    var pick := number;
    for i := 0 to |healthy|
      invariant Sum(ws[..i]) <= number && pick == number - Sum(ws[..i])
    {
      SumStep(ws, i);
      if pick < healthy[i].weight {
        assert InBand(ws, i, number);
        BandIff(ws, number, i);
        return healthy[i];
      }
      pick := pick - healthy[i].weight;
    }
    assert false;
  }

  lemma HealthyBound(bs: seq<Backend>)
    ensures |HealthyOf(bs)| <= |bs|
    ensures R.WeightsOk(bs) ==> R.WeightsOk(HealthyOf(bs))
  {
    FilterShortens(bs, Among(Up(bs)));
    forall i | 0 <= i < |HealthyOf(bs)|
      ensures HealthyOf(bs)[i] in bs
    {
    }
  }

  class RandomSelector {
    const reg: R.Registry

    constructor (reg: R.Registry)
      ensures this.reg == reg
    {
      this.reg := reg;
    }

    // `draw` is rand.Uint64N: any number below its argument.
    method GetServer(draw: uint64 -> uint64) returns (r: Option<Backend>)
      requires reg.backends.Valid() && R.WeightsOk(reg.backends.Contents())
      requires reg.backends.len * MAX_WEIGHT < TWO_64
      requires forall n: uint64 | n > 0 :: draw(n) < n
      ensures var healthy := HealthyOf(reg.backends.Contents());
              if healthy == [] then r == None
              else
                var ws := Weights(healthy);
                && 0 < Sum(ws) < TWO_64
                && draw(Sum(ws)) < Sum(ws)
                && exists k :: 0 <= k < |healthy| && r == Some(healthy[k]) && InBand(ws, k, draw(Sum(ws)))
    {
      HealthyBound(reg.backends.Contents());
      var healthy := reg.ListHealthyBackends();
      if |healthy| == 0 {
        return None;
      }
      var total := SumWeights(healthy);
      var b := WalkBands(healthy, draw(total));
      r := Some(b);
    }
  }

  class HashSelector {
    const reg: R.Registry

    constructor (reg: R.Registry)
      ensures this.reg == reg
    {
      this.reg := reg;
    }

    // `hash` is FNV-1a: some fixed function from keys to 32-bit numbers.
    method GetServerForKey(hash: string -> uint32, key: string) returns (r: Option<Backend>)
      requires reg.backends.Valid() && R.WeightsOk(reg.backends.Contents())
      requires reg.backends.len * MAX_WEIGHT < TWO_64
      ensures var healthy := HealthyOf(reg.backends.Contents());
              if healthy == [] then r == None
              else
                var ws := Weights(healthy);
                && Sum(ws) > 0 && r == Some(healthy[HashPick(ws, hash(key))])
                && exists k :: 0 <= k < |healthy| && r == Some(healthy[k]) && InBand(ws, k, hash(key) % Sum(ws))
    {
      HealthyBound(reg.backends.Contents());
      var healthy := reg.ListHealthyBackends();
      if |healthy| == 0 {
        return None;
      }
      var total := SumWeights(healthy);
      var b := WalkBands(healthy, hash(key) % total);
      r := Some(b);
    }
  }

  // The index a hash value selects.
  function HashPick(ws: seq<nat>, h: nat): (k: nat)
    requires Sum(ws) > 0
    ensures k < |ws|
  {
    Band(ws, h % Sum(ws))
  }

  // The key's hash modulo the total weight falls into the selected backend's band.
  lemma HashPickIff(ws: seq<nat>, h: nat, k: nat)
    requires Sum(ws) > 0 && k < |ws|
    ensures HashPick(ws, h) == k <==> InBand(ws, k, h % Sum(ws))
  {
    BandIff(ws, h % Sum(ws), k);
  }

  // ---------------------------------------------------------------- exact shares

  // How many of the draws 0, ..., m-1 select backend k.
  function Landings(ws: seq<nat>, k: nat, m: nat): nat
    requires m <= Sum(ws)
  {
    if m == 0 then 0 else Landings(ws, k, m - 1) + if Band(ws, m - 1) == k then 1 else 0
  }

  // The part of band k below m.
  function Covered(ws: seq<nat>, k: nat, m: nat): nat
    requires k < |ws|
  {
    if m <= Sum(ws[..k]) then 0
    else if m <= Sum(ws[..k + 1]) then m - Sum(ws[..k])
    else ws[k]
  }

  lemma {:induction false} LandingsCover(ws: seq<nat>, k: nat, m: nat)
    requires k < |ws| && m <= Sum(ws)
    ensures Landings(ws, k, m) == Covered(ws, k, m) <= ws[k]
  {
    SumStep(ws, k);
    if m > 0 {
      LandingsCover(ws, k, m - 1);
      BandIff(ws, m - 1, k);
    }
  }

  // The draws below m that select backend k.
  ghost function Draws(ws: seq<nat>, k: nat, m: nat): set<nat>
    requires m <= Sum(ws)
  {
    set n: nat | n < m && Band(ws, n) == k
  }

  lemma {:induction false} LandingsCount(ws: seq<nat>, k: nat, m: nat)
    requires m <= Sum(ws)
    ensures Landings(ws, k, m) == |Draws(ws, k, m)|
  {
    if m > 0 {
      LandingsCount(ws, k, m - 1);
      assert Draws(ws, k, m) == Draws(ws, k, m - 1) + if Band(ws, m - 1) == k then {m - 1} else {};
    }
  }

  lemma LandingsOfAll(ws: seq<nat>, k: nat)
    requires k < |ws|
    ensures Landings(ws, k, Sum(ws)) == ws[k]
  {
    LandingsCover(ws, k, Sum(ws));
    SumStep(ws, k);
    SumMonotone(ws, k + 1, |ws|);
    assert ws[..|ws|] == ws;
  }

  // A weighted draw selects each backend for exactly its weight of the draws.
  lemma BandsAreExact(ws: seq<nat>, k: nat)
    requires k < |ws|
    ensures |Draws(ws, k, Sum(ws))| == ws[k]
  {
    LandingsCount(ws, k, Sum(ws));
    LandingsOfAll(ws, k);
  }

  // How many of the hash values 0, ..., m-1 select backend k.
  function HashLandings(ws: seq<nat>, k: nat, m: nat): nat
    requires Sum(ws) > 0
  {
    if m == 0 then 0 else HashLandings(ws, k, m - 1) + if HashPick(ws, m - 1) == k then 1 else 0
  }

  // The hash values below m that select backend k.
  ghost function Hashes(ws: seq<nat>, k: nat, m: nat): set<nat>
    requires Sum(ws) > 0
  {
    set h: nat | h < m && HashPick(ws, h) == k
  }

  lemma {:induction false} HashLandingsCount(ws: seq<nat>, k: nat, m: nat)
    requires Sum(ws) > 0
    ensures HashLandings(ws, k, m) == |Hashes(ws, k, m)|
  {
    if m > 0 {
      HashLandingsCount(ws, k, m - 1);
      assert Hashes(ws, k, m) == Hashes(ws, k, m - 1) + if HashPick(ws, m - 1) == k then {m - 1} else {};
    }
  }

  lemma {:induction false} HashLandingsInTurns(ws: seq<nat>, k: nat, q: nat, r: nat)
    requires k < |ws| && r <= Sum(ws) && Sum(ws) > 0
    ensures HashLandings(ws, k, q * Sum(ws) + r) == q * ws[k] + Landings(ws, k, r)
    decreases q, r
  {
    var t := Sum(ws);
    if r > 0 {
      HashLandingsInTurns(ws, k, q, r - 1);
      DivModUnique(q * t + r - 1, q, t, r - 1);
    } else if q > 0 {
      NextTurn(q - 1, t);
      NextTurn(q - 1, ws[k]);
      HashLandingsInTurns(ws, k, q - 1, t);
      LandingsOfAll(ws, k);
    }
  }

  // Over the first m hash values, all 2^32 of them or any other number, each backend
  // receives its weight times the number of whole totals that fit in m, and at most
  // its weight more.
  lemma HashSharesAreProportional(ws: seq<nat>, k: nat, m: nat)
    requires k < |ws| && Sum(ws) > 0
    ensures var t := Sum(ws);
            && HashLandings(ws, k, m) == |Hashes(ws, k, m)|
            && m / t * ws[k] <= |Hashes(ws, k, m)| <= (m + t - 1) / t * ws[k]
  {
    var t := Sum(ws);
    HashLandingsCount(ws, k, m);
    var q, r := DivMod(m, t);
    HashLandingsInTurns(ws, k, q, r);
    LandingsCover(ws, k, r);
    if r == 0 {
      DivModUnique(m + t - 1, q, t, t - 1);
    } else {
      NextTurn(q, t);
      NextTurn(q, ws[k]);
      DivModUnique(m + t - 1, q + 1, t, r - 1);
    }
  }
}
