// Connection accounting under concurrency: attempts of any number of requests begin
// and end in any order, while backends are registered, evicted and removed.
module Connections {
  import opened Domain
  import opened Lists
  import opened Proxy
  import LeastConnections

  // `conns` are the counters on the backends, which outlive their registration; an
  // attempt in flight holds its backend.
  datatype State = State(
    conns: map<nat, int32>,
    inFlight: map<nat, nat>,  // request to backend
    registered: seq<nat>,
    weight: map<nat, nat>,    // of every backend ever registered
    healthy: set<nat>)
  {
    function Weight(b: nat): nat { if b in weight then weight[b] else 0 }

    function Conns(b: nat): int32 { if b in conns then conns[b] else 0 }
  }

  datatype Step =
    | Begin(r: nat, b: nat)  // Add(1), on whatever backend was selected earlier
    | End(r: nat)            // the deferred Add(-1), served or not
    | Register(b: nat, w: nat)  // under a new name, with a validated weight
    | Deregister(b: nat)
    | SetHealthy(b: nat, v: bool)

  predicate Enabled(s: State, a: Step) {
    match a
    case Begin(r, _) => r !in s.inFlight
    case End(r) => r in s.inFlight
    case Register(b, w) => b !in s.weight && WeightOk(w)
    case Deregister(b) => b in s.registered
    case SetHealthy(_, _) => true
  }

  function Do(s: State, a: Step): State
    requires Enabled(s, a)
  {
    match a
    case Begin(r, b) =>
      s.(conns := s.conns[b := Add32(s.Conns(b), 1)], inFlight := s.inFlight[r := b])
    case End(r) =>
      var b := s.inFlight[r];
      s.(conns := s.conns[b := Add32(s.Conns(b), -1)], inFlight := s.inFlight - {r})
    case Register(b, w) =>
      s.(registered := s.registered + [b], weight := s.weight[b := w], healthy := s.healthy - {b})
    case Deregister(b) => s.(registered := Filter(s.registered, Other(b)))
    case SetHealthy(b, v) => s.(healthy := if v then s.healthy + {b} else s.healthy - {b})
  }

  function Other(b: nat): nat -> bool {
    (x: nat) => x != b
  }

  predicate Legal(s: State, run: seq<Step>)
    decreases |run|
  {
    run == [] || (Enabled(s, run[0]) && Legal(Do(s, run[0]), run[1..]))
  }

  function Run(s: State, run: seq<Step>): State
    requires Legal(s, run)
    decreases |run|
  {
    if run == [] then s else Run(Do(s, run[0]), run[1..])
  }

  const START := State(map[], map[], [], map[], {})

  // The requests with an attempt in flight to b.
  function Holding(s: State, b: nat): set<nat> {
    set r | r in s.inFlight && s.inFlight[r] == b
  }

  function ToInt32(n: int): int32 {
    (n + TWO_31) % TWO_32 - TWO_31
  }

  // Every counter is the number of attempts in flight, in 32 bits.
  ghost predicate Conserved(s: State) {
    forall b: nat :: s.Conns(b) == ToInt32(|Holding(s, b)|)
  }

  lemma AddToInt32(n: int, d: int)
    ensures Add32(ToInt32(n), d) == ToInt32(n + d)
  {
    var x := n + TWO_31;
    assert (x % TWO_32 + d) % TWO_32 == (x + d) % TWO_32;
  }

  lemma BeginConserves(s: State, r: nat, b: nat, x: nat)
    requires Conserved(s) && r !in s.inFlight
    ensures var s' := Do(s, Begin(r, b)); s'.Conns(x) == ToInt32(|Holding(s', x)|)
  {
    var s' := Do(s, Begin(r, b));
    if x == b {
      assert Holding(s', x) == Holding(s, x) + {r};
      AddToInt32(|Holding(s, x)|, 1);
    } else {
      assert Holding(s', x) == Holding(s, x);
    }
  }

  lemma EndConserves(s: State, r: nat, x: nat)
    requires Conserved(s) && r in s.inFlight
    ensures var s' := Do(s, End(r)); s'.Conns(x) == ToInt32(|Holding(s', x)|)
  {
    var s' := Do(s, End(r));
    if x == s.inFlight[r] {
      assert Holding(s', x) == Holding(s, x) - {r};
      AddToInt32(|Holding(s, x)|, -1);
    } else {
      assert Holding(s', x) == Holding(s, x);
    }
  }

  lemma StepConserves(s: State, a: Step)
    requires Conserved(s) && Enabled(s, a)
    ensures Conserved(Do(s, a))
  {
    forall x: nat
      ensures Do(s, a).Conns(x) == ToInt32(|Holding(Do(s, a), x)|)
    {
      match a {
        case Begin(r, b) => BeginConserves(s, r, b, x);
        case End(r) => EndConserves(s, r, x);
        case _ => assert Holding(Do(s, a), x) == Holding(s, x);
      }
    }
  }

  lemma {:induction false} RunConserves(s: State, run: seq<Step>)
    requires Conserved(s) && Legal(s, run)
    ensures Conserved(Run(s, run))
    decreases |run|
  {
    if run != [] {
      StepConserves(s, run[0]);
      RunConserves(Do(s, run[0]), run[1..]);
    }
  }

  // Conservation: in every interleaving each backend's counter is the number of
  // attempts in flight to it, registered or not; it is never negative, and zero at
  // rest. Only the width of the counter limits this, at 2^31 attempts to one backend.
  lemma ConnectionsAreConserved(run: seq<Step>, b: nat)
    requires Legal(START, run)
    ensures var s := Run(START, run);
            && s.Conns(b) == ToInt32(|Holding(s, b)|)
            && (|Holding(s, b)| < TWO_31 <==> s.Conns(b) == |Holding(s, b)|)
            && (s.inFlight == map[] ==> s.Conns(b) == 0)
  {
    forall x: nat
      ensures Holding(START, x) == {}
    {
    }
    assert Conserved(START);
    RunConserves(START, run);
  }

  // ---------------------------------------------------------------- what a state says of the run

  // Request r has begun an attempt at b and not ended it.
  ghost predicate InFlight(run: seq<Step>, r: nat, b: nat) {
    exists i | 0 <= i < |run| :: run[i] == Begin(r, b) && End(r) !in run[i + 1..]
  }

  lemma InFlightOneMore(a: Step, rest: seq<Step>, r: nat, b: nat)
    ensures InFlight([a] + rest, r, b) <==> (a == Begin(r, b) && End(r) !in rest) || InFlight(rest, r, b)
  {
    var run := [a] + rest;
    assert run[1..] == rest;
    if i :| 0 <= i < |rest| && rest[i] == Begin(r, b) && End(r) !in rest[i + 1..] {
      assert run[i + 1] == rest[i] && run[i + 2..] == rest[i + 1..];
    }
    if InFlight(run, r, b) {
      var i :| 0 <= i < |run| && run[i] == Begin(r, b) && End(r) !in run[i + 1..];
      if i > 0 { assert run[i] == rest[i - 1] && run[i + 1..] == rest[i - 1 + 1..]; }
    }
    if a == Begin(r, b) && End(r) !in rest { assert run[0] == a && run[0 + 1..] == rest; }
  }

  lemma {:induction false} RunHolds(s: State, run: seq<Step>, r: nat, b: nat)
    requires Legal(s, run)
    ensures r in Holding(Run(s, run), b) <==> (r in Holding(s, b) && End(r) !in run) || InFlight(run, r, b)
    decreases |run|
  {
    if run != [] {
      var s' := Do(s, run[0]);
      RunHolds(s', run[1..], r, b);
      InFlightOneMore(run[0], run[1..], r, b);
      assert run == [run[0]] + run[1..];
      assert r in Holding(s', b) <==> run[0] == Begin(r, b) || (r in Holding(s, b) && run[0] != End(r));
    }
  }

  // What the counter counts are the attempts begun and not ended.
  lemma HoldingIff(run: seq<Step>, r: nat, b: nat)
    requires Legal(START, run)
    ensures r in Holding(Run(START, run), b) <==> InFlight(run, r, b)
  {
    RunHolds(START, run, r, b);
  }

  // The names registered by a run, in order.
  function Registrations(run: seq<Step>): seq<nat> {
    if run == [] then []
    else (if run[0].Register? then [run[0].b] else []) + Registrations(run[1..])
  }

  function NotRemoved(run: seq<Step>): nat -> bool {
    (b: nat) => Deregister(b) !in run
  }

  lemma {:induction false} NamesAreNew(s: State, run: seq<Step>, b: nat)
    requires Legal(s, run) && b in s.weight
    ensures b !in Registrations(run)
    decreases |run|
  {
    if run != [] {
      NamesAreNew(Do(s, run[0]), run[1..], b);
    }
  }

  lemma RemovedFirst(before: seq<nat>, coming: seq<nat>, x: nat, rest: seq<Step>)
    requires x !in coming
    ensures Filter(Filter(before, Other(x)) + coming, NotRemoved(rest)) ==
            Filter(before + coming, NotRemoved([Deregister(x)] + rest))
  {
    var run := [Deregister(x)] + rest;
    FilterConcat(Filter(before, Other(x)), coming, NotRemoved(rest));
    FilterConcat(before, coming, NotRemoved(run));
    FilterTwice(before, Other(x), NotRemoved(rest), NotRemoved(run));
    FilterSame(coming, NotRemoved(rest), NotRemoved(run));
  }

  lemma NothingRemoved(before: seq<nat>, coming: seq<nat>, a: Step, rest: seq<Step>)
    requires !a.Deregister?
    ensures Filter(before + coming, NotRemoved([a] + rest)) == Filter(before + coming, NotRemoved(rest))
  {
    FilterSame(before + coming, NotRemoved(rest), NotRemoved([a] + rest));
  }

  ghost predicate KnownNames(s: State) {
    forall b | b in s.registered :: b in s.weight
  }

  lemma StepKeepsNames(s: State, a: Step)
    requires KnownNames(s) && Enabled(s, a)
    ensures KnownNames(Do(s, a))
  {
    if a.Deregister? { FilterMembers(s.registered, Other(a.b)); }
  }

  lemma RegistersFirst(s: State, a: Step, rest: seq<Step>)
    requires Enabled(s, a) && (a.Deregister? ==> a.b !in Registrations(rest))
    ensures Filter(Do(s, a).registered + Registrations(rest), NotRemoved(rest)) ==
            Filter(s.registered + Registrations([a] + rest), NotRemoved([a] + rest))
  {
    var run := [a] + rest;
    assert run[1..] == rest;
    match a {
      case Deregister(x) =>
        RemovedFirst(s.registered, Registrations(rest), x, rest);
        assert Registrations(run) == Registrations(rest);
      case Register(b, w) =>
        NothingRemoved(s.registered, Registrations(run), a, rest);
        assert s.registered + [b] + Registrations(rest) == s.registered + ([b] + Registrations(rest));
      case _ =>
        NothingRemoved(s.registered, Registrations(run), a, rest);
        assert Registrations(run) == Registrations(rest);
    }
  }

  lemma {:induction false} RunRegisters(s: State, run: seq<Step>)
    requires Legal(s, run) && KnownNames(s)
    ensures Run(s, run).registered == Filter(s.registered + Registrations(run), NotRemoved(run))
    decreases |run|
  {
    if run == [] {
      FilterAll(s.registered, NotRemoved(run));
      assert s.registered + [] == s.registered;
    } else {
      var a, rest := run[0], run[1..];
      assert run == [a] + rest;
      StepKeepsNames(s, a);
      RunRegisters(Do(s, a), rest);
      if a.Deregister? { NamesAreNew(Do(s, a), rest, a.b); }
      RegistersFirst(s, a, rest);
    }
  }

  lemma {:induction false} RunWeighs(s: State, run: seq<Step>, b: nat, w: nat)
    requires Legal(s, run)
    ensures b in Run(s, run).weight && Run(s, run).weight[b] == w <==>
            (b in s.weight && s.weight[b] == w) || Register(b, w) in run
    decreases |run|
  {
    if run != [] {
      RunWeighs(Do(s, run[0]), run[1..], b, w);
      assert run == [run[0]] + run[1..];
      if run[0].Register? && run[0].b == b { NotTwice(Do(s, run[0]), run[1..], b, w); }
      if b in s.weight { NotTwice(s, run, b, w); }
    }
  }

  lemma {:induction false} NotTwice(s: State, run: seq<Step>, b: nat, w: nat)
    requires Legal(s, run) && b in s.weight
    ensures Register(b, w) !in run
    decreases |run|
  {
    if run != [] {
      NotTwice(Do(s, run[0]), run[1..], b, w);
      assert run == [run[0]] + run[1..];
    }
  }

  // b's flag was set and neither cleared nor b created since.
  ghost predicate LastSet(run: seq<Step>, b: nat) {
    exists i | 0 <= i < |run| :: run[i] == SetHealthy(b, true) && !Cleared(run[i + 1..], b)
  }

  ghost predicate Cleared(run: seq<Step>, b: nat) {
    exists a | a in run :: a == SetHealthy(b, false) || (a.Register? && a.b == b)
  }

  lemma LastSetOneMore(a: Step, rest: seq<Step>, b: nat)
    ensures LastSet([a] + rest, b) <==> (a == SetHealthy(b, true) && !Cleared(rest, b)) || LastSet(rest, b)
  {
    var run := [a] + rest;
    assert run[1..] == rest;
    if i :| 0 <= i < |rest| && rest[i] == SetHealthy(b, true) && !Cleared(rest[i + 1..], b) {
      assert run[i + 1] == rest[i] && run[i + 2..] == rest[i + 1..];
    }
    if LastSet(run, b) {
      var i :| 0 <= i < |run| && run[i] == SetHealthy(b, true) && !Cleared(run[i + 1..], b);
      if i > 0 { assert run[i] == rest[i - 1] && run[i + 1..] == rest[i - 1 + 1..]; }
    }
    if a == SetHealthy(b, true) && !Cleared(rest, b) { assert run[0] == a && run[0 + 1..] == rest; }
  }

  lemma {:induction false} RunSets(s: State, run: seq<Step>, b: nat)
    requires Legal(s, run)
    ensures b in Run(s, run).healthy <==> (b in s.healthy && !Cleared(run, b)) || LastSet(run, b)
    decreases |run|
  {
    if run != [] {
      RunSets(Do(s, run[0]), run[1..], b);
      LastSetOneMore(run[0], run[1..], b);
      assert run == [run[0]] + run[1..];
      assert Cleared(run, b) <==>
             run[0] == SetHealthy(b, false) || (run[0].Register? && run[0].b == b) || Cleared(run[1..], b);
    }
  }

  // Listed are the backends registered and not removed, in order of registration, each
  // with the weight it was registered with and the flag it was last given.
  lemma ListedIff(run: seq<Step>, b: nat, w: nat)
    requires Legal(START, run)
    ensures var s := Run(START, run);
            && s.registered == Filter(Registrations(run), NotRemoved(run))
            && (b in s.weight && s.weight[b] == w <==> Register(b, w) in run)
            && (b in s.healthy <==> LastSet(run, b))
  {
    RunRegisters(START, run);
    assert [] + Registrations(run) == Registrations(run);
    RunWeighs(START, run, b, w);
    RunSets(START, run, b);
  }

  // ---------------------------------------------------------------- what least-connections makes of them

  // ListHealthyBackends.
  function Pool(s: State): seq<nat> {
    Filter(s.registered, Among(s.healthy))
  }

  function LoadsIn(s: State): (loads: seq<LeastConnections.Load>)
    ensures |loads| == |Pool(s)|
    ensures forall i | 0 <= i < |loads| :: loads[i] == LeastConnections.Load(s.Conns(Pool(s)[i]), s.Weight(Pool(s)[i]))
  {
    seq(|Pool(s)|, i requires 0 <= i < |Pool(s)| =>
      LeastConnections.Load(s.Conns(Pool(s)[i]), s.Weight(Pool(s)[i])))
  }

  ghost predicate Weighed(s: State) {
    forall b | b in s.registered :: WeightOk(s.Weight(b))
  }

  lemma StepKeepsWeights(s: State, a: Step)
    requires Weighed(s) && Enabled(s, a)
    ensures Weighed(Do(s, a))
  {
    if a.Deregister? {
      FilterMembers(s.registered, Other(a.b));
      assert forall b | b in Do(s, a).registered :: b in s.registered;
    }
  }

  lemma {:induction false} RunKeepsWeights(s: State, run: seq<Step>)
    requires Weighed(s) && Legal(s, run)
    ensures Weighed(Run(s, run))
    decreases |run|
  {
    if run != [] {
      StepKeepsWeights(s, run[0]);
      RunKeepsWeights(Do(s, run[0]), run[1..]);
    }
  }

  // a has fewer attempts in flight per weight than b, or not more, cross-multiplied.
  ghost predicate LighterIn(s: State, a: nat, b: nat)
    requires a in s.weight && b in s.weight
  {
    |Holding(s, a)| * s.weight[b] < |Holding(s, b)| * s.weight[a]
  }

  ghost predicate NotHeavierIn(s: State, a: nat, b: nat)
    requires a in s.weight && b in s.weight
  {
    |Holding(s, a)| * s.weight[b] <= |Holding(s, b)| * s.weight[a]
  }

  lemma PoolIsListed(run: seq<Step>)
    requires Legal(START, run)
    ensures var s := Run(START, run);
            && (forall b: nat :: b in Pool(s) <==> b in s.registered && b in s.healthy)
            && (forall b | b in s.registered :: b in s.weight && WeightOk(s.weight[b]))
  {
    var s := Run(START, run);
    FilterMembers(s.registered, Among(s.healthy));
    RunKeepsWeights(START, run);
    assert forall b | b in s.registered :: WeightOk(s.Weight(b));
  }

  // So the selector's arithmetic is sound in every reachable state, and what it picks
  // is the first of the registered and healthy backends, in order of registration, with
  // the fewest attempts in flight per weight.
  lemma SelectionIsLeastLoaded(run: seq<Step>, k: nat)
    requires Legal(START, run) && k < |Pool(Run(START, run))|
    requires forall b | b in Pool(Run(START, run)) :: |Holding(Run(START, run), b)| < TWO_31
    ensures var s := Run(START, run);
            var pool := Pool(s);
            && (exists at :: InOrder(s.registered, pool, at))
            && (forall b: nat :: b in pool <==> b in s.registered && b in s.healthy)
            && (forall b | b in pool :: b in s.weight)
            && (LeastConnections.MinIndex(LoadsIn(s)) == k <==>
                  && (forall i | 0 <= i < k :: LighterIn(s, pool[k], pool[i]))
                  && (forall i | k <= i < |pool| :: NotHeavierIn(s, pool[k], pool[i])))
  {
    var s := Run(START, run);
    var pool, loads := Pool(s), LoadsIn(s);
    FilterInOrder(s.registered, Among(s.healthy));
    PoolIsListed(run);
    forall i | 0 <= i < |pool|
      ensures loads[i].Sound() && loads[i].conns == |Holding(s, pool[i])| && loads[i].weight == s.weight[pool[i]]
    {
      assert pool[i] in pool;
      ConnectionsAreConserved(run, pool[i]);
    }
    forall i | 0 <= i < |pool|
      ensures LighterIn(s, pool[k], pool[i]) <==> loads[k].Ratio() < loads[i].Ratio()
      ensures NotHeavierIn(s, pool[k], pool[i]) <==> loads[k].Ratio() <= loads[i].Ratio()
    {
      LeastConnections.CrossMultiply(loads[k].conns, loads[k].weight, loads[i].conns, loads[i].weight);
    }
    LeastConnections.MinIndexIff(loads, k);
  }
}
