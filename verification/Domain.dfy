// The shared backend entity and Go's fixed-width integers.
module Domain {
  import opened Lists

  const MAX_WEIGHT: nat := 1_000_000
  const TWO_31: int := 0x8000_0000
  const TWO_32: nat := 0x1_0000_0000
  const TWO_64: nat := 0x1_0000_0000_0000_0000

  type uint32 = x: nat | x < TWO_32
  type uint64 = x: nat | x < TWO_64
  type int32 = x: int | -TWO_31 <= x < TWO_31

  // uuid.New as a supply of names that never repeats one.
  class IdSupply {
    var next: nat

    constructor ()
      ensures next == 0
    {
      next := 0;
    }

    method Fresh() returns (id: nat)
      modifies this
      ensures id == old(next) && next == old(next) + 1
    {
      id := next;
      next := next + 1;
    }
  }

  // Identity, URL and weight never change; the health flag and the connection
  // count are shared and mutable.
  class Backend {
    const instanceID: nat
    const url: string
    const weight: uint64
    var healthy: bool
    var activeConnectionsNo: int32

    // NewBackend
    constructor (id: nat, url: string, weight: uint64)
      ensures instanceID == id && this.url == url && this.weight == weight
      ensures !healthy && activeConnectionsNo == 0
    {
      instanceID, this.url, this.weight := id, url, weight;
      healthy, activeConnectionsNo := false, 0;
    }

    method SetHealthy(v: bool)
      modifies this`healthy
      ensures healthy == v
    {
      healthy := v;
    }
  }

  // The backends of `bs` that are healthy, in the order of `bs`.
  function HealthyOf(bs: seq<Backend>): (healthy: seq<Backend>)
    reads bs
    ensures forall b | b in healthy :: b in bs && b.healthy
    ensures forall b | b in bs && b.healthy :: b in healthy
  {
    FilterMembers(bs, Among(Up(bs)));
    Filter(bs, Among(Up(bs)))
  }

  // `r` holds exactly the healthy backends of `bs`, in the order of `bs`.
  ghost predicate HealthyInOrder(bs: seq<Backend>, r: seq<Backend>)
    reads bs
  {
    exists at: seq<nat> :: InOrder(bs, r, at) && forall i {:trigger i in at} | 0 <= i < |bs| :: i in at <==> bs[i].healthy
  }

  lemma HealthyOfInOrder(bs: seq<Backend>)
    ensures HealthyInOrder(bs, HealthyOf(bs))
  {
    FilterInOrder(bs, Among(Up(bs)));
    var at := Positions(bs, Among(Up(bs)));
    assert InOrder(bs, HealthyOf(bs), at);
  }

  function Up(bs: seq<Backend>): set<Backend>
    reads bs
  {
    set b | b in bs && b.healthy
  }

  function Flags(bs: seq<Backend>): (flags: seq<bool>)
    reads bs
    ensures |flags| == |bs| && forall i | 0 <= i < |bs| :: flags[i] == bs[i].healthy
  {
    seq(|bs|, i requires 0 <= i < |bs| reads bs => bs[i].healthy)
  }

  function Weights(bs: seq<Backend>): (weights: seq<uint64>)
    ensures |weights| == |bs| && forall i | 0 <= i < |bs| :: weights[i] == bs[i].weight
  {
    seq(|bs|, i requires 0 <= i < |bs| => bs[i].weight)
  }

  // What configuration loading and the registration API let through.
  predicate WeightOk(w: nat) {
    1 <= w <= MAX_WEIGHT
  }

  predicate AllWeightsOk(ws: seq<nat>) {
    forall i | 0 <= i < |ws| :: WeightOk(ws[i])
  }
}
