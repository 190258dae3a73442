// Probe rounds interleaved with registrations and removals. The registry's list
// changes in one atomic store; the prober's round is broken into its separate loads
// and stores, and any other step may come between two of them.
module Churn {
  import opened Domain
  import opened Hysteresis
  import opened Lists
  import opened Wrappers

  // Where the prober is with the backend it is recording: about to look at its
  // result; holding the backend it found in the list, about to store the flag; or
  // done with the registry, about to store the streak.
  datatype Stage = Fresh | Found(v: bool) | Settled

  datatype Phase =
    | Idle
    | Probing(snapshot: seq<nat>, initial: bool)
    | Recording(snapshot: seq<nat>, initial: bool, results: seq<bool>, k: nat, stage: Stage)

  // Backends are named in order of creation. `flag` and `history` live on the
  // backend, registered or not; `history` only records what the prober has seen.
  datatype State = State(
    registered: seq<nat>,
    nextId: nat,
    weight: map<nat, nat>,
    flag: map<nat, bool>,
    streak: map<nat, int>,
    history: map<nat, seq<Probe>>,
    phase: Phase)
  {
    function Flag(id: nat): bool { id in flag && flag[id] }

    function Weight(id: nat): nat { if id in weight then weight[id] else 0 }

    function Streak(id: nat): int { if id in streak then streak[id] else 0 }

    function History(id: nat): seq<Probe> { if id in history then history[id] else [] }

    // The backend being recorded and its result.
    function Current(): nat
      requires phase.Recording? && phase.k < |phase.snapshot|
    {
      phase.snapshot[phase.k]
    }

    function Result(): Probe
      requires phase.Recording? && phase.k < |phase.results|
    {
      Probe(phase.results[phase.k], phase.initial)
    }
  }

  datatype Action =
    | Register(weight: nat)
    | Deregister(id: nat)
    | StartRound(initial: bool)
    | Gather(results: seq<bool>)
    | LoadList
    | StoreFlag
    | StoreStreak

  predicate InRecord(s: State) {
    s.phase.Recording? && s.phase.k < |s.phase.snapshot| == |s.phase.results|
  }

  function Reported(t: Thresholds, s: State): Option<bool>
    requires InRecord(s)
  {
    Report(t, s.Streak(s.Current()), s.Result())
  }

  predicate Enabled(t: Thresholds, s: State, a: Action) {
    match a
    case Register(w) => WeightOk(w)  // checked by the registration API
    case Deregister(id) => id in s.registered
    case StartRound(_) => s.phase.Idle?
    case Gather(results) => s.phase.Probing? && |results| == |s.phase.snapshot|
    case LoadList => InRecord(s) && s.phase.stage.Fresh? && Reported(t, s).Some?
    case StoreFlag => InRecord(s) && s.phase.stage.Found?
    case StoreStreak => InRecord(s) && (s.phase.stage.Settled? || (s.phase.stage.Fresh? && Reported(t, s).None?))
  }

  function Without(s: seq<nat>, id: nat): seq<nat> {
    Filter(s, (x: nat) => x != id)
  }

  function Do(t: Thresholds, s: State, a: Action): State
    requires Enabled(t, s, a)
  {
    match a
    case Register(w) =>
      s.(registered := s.registered + [s.nextId], nextId := s.nextId + 1, weight := s.weight[s.nextId := w])
    case Deregister(id) =>
      s.(registered := Without(s.registered, id))
    case StartRound(initial) =>
      // Load the list, drop the streaks of everything not in it, probe unless empty.
      s.(streak := map id | id in s.streak && id in s.registered :: s.streak[id],
         phase := if s.registered == [] then Idle else Probing(s.registered, initial))
    case Gather(results) =>
      s.(phase := Recording(s.phase.snapshot, s.phase.initial, results, 0, Fresh))
    case LoadList =>
      var found := s.Current() in s.registered;
      s.(phase := s.phase.(stage := if found then Found(Reported(t, s).value) else Settled))
    case StoreFlag =>
      s.(flag := s.flag[s.Current() := s.phase.stage.v], phase := s.phase.(stage := Settled))
    case StoreStreak =>
      var id := s.Current();
      s.(streak := s.streak[id := Next(t, s.Streak(id), s.Result().ok)],
         history := s.history[id := s.History(id) + [s.Result()]],
         phase := if s.phase.k + 1 == |s.phase.snapshot| then Idle else s.phase.(k := s.phase.k + 1, stage := Fresh))
  }

  predicate Legal(t: Thresholds, s: State, run: seq<Action>)
    decreases |run|
  {
    run == [] || (Enabled(t, s, run[0]) && Legal(t, Do(t, s, run[0]), run[1..]))
  }

  function Run(t: Thresholds, s: State, run: seq<Action>): State
    requires Legal(t, s, run)
    decreases |run|
  {
    if run == [] then s else Run(t, Do(t, s, run[0]), run[1..])
  }

  // The seed backends, none probed yet.
  function Seeded(weights: seq<nat>): State {
    State(seq(|weights|, i => i), |weights|, map i | 0 <= i < |weights| :: weights[i], map[], map[], map[], Idle)
  }

  // ---------------------------------------------------------------- the invariant

  ghost predicate Increasing(s: seq<nat>, below: nat) {
    && (forall i, j | 0 <= i < j < |s| :: s[i] < s[j])
    && (forall i | 0 <= i < |s| :: s[i] < below)
  }

  ghost predicate Wellformed(s: State) {
    && Increasing(s.registered, s.nextId)
    && (forall id | id in s.weight :: id < s.nextId && WeightOk(s.weight[id]))
    && (forall id | id in s.registered :: id in s.weight)
    && (forall id | id in s.flag || id in s.streak || id in s.history :: id < s.nextId)
    && match s.phase
       case Idle => true
       case Probing(snapshot, _) =>
         && snapshot != [] && Increasing(snapshot, s.nextId)
         && forall id | id in s.streak :: id in snapshot
       case Recording(snapshot, _, results, k, stage) =>
         && k < |snapshot| == |results| && Increasing(snapshot, s.nextId)
         && (forall id | id in s.streak :: id in snapshot)
         && (forall i | 0 <= i < k :: snapshot[i] in s.streak)
  }

  // The flag of this backend already takes the result being recorded into account.
  predicate Ahead(s: State, id: nat) {
    InRecord(s) && s.phase.stage.Settled? && id == s.Current()
  }

  function Seen(s: State, id: nat): seq<Probe> {
    if Ahead(s, id) then s.History(id) + [s.Result()] else s.History(id)
  }

  // A registered backend's streak and flag are what its history makes them.
  ghost predicate Faithful(t: Thresholds, s: State, id: nat) {
    && s.Streak(id) == Streak(t, s.History(id))
    && s.Flag(id) == Flag(t, Seen(s, id))
  }

  ghost predicate Inv(t: Thresholds, s: State) {
    && Wellformed(s)
    && (forall id | id in s.registered :: Faithful(t, s, id))
    && (InRecord(s) && s.phase.stage.Found? ==> Reported(t, s) == Some(s.phase.stage.v))
  }

  lemma FilterIncreasing(s: seq<nat>, keep: nat -> bool, below: nat)
    requires Increasing(s, below)
    ensures Increasing(Filter(s, keep), below)
    ensures forall x: nat :: x in Filter(s, keep) <==> x in s && keep(x)
  {
    FilterKeepsOrder(s, keep, (x: nat, y: nat) => x < y);
    FilterMembers(s, keep);
    var kept: seq<nat> := Filter(s, keep);
    forall i | 0 <= i < |kept|
      ensures kept[i] < below
    {
      assert kept[i] in s;
    }
  }

  lemma WithoutMembers(s: seq<nat>, id: nat, below: nat)
    requires Increasing(s, below)
    ensures Increasing(Without(s, id), below)
    ensures forall x: nat :: x in Without(s, id) <==> x in s && x != id
  {
    FilterIncreasing(s, (x: nat) => x != id, below);
  }

  lemma StepKeepsForm(t: Thresholds, s: State, a: Action)
    requires Inv(t, s) && Enabled(t, s, a)
    ensures Wellformed(Do(t, s, a))
  {
    if a.Deregister? {
      WithoutMembers(s.registered, a.id, s.nextId);
    } else if a.StoreStreak? {
      StoreStreakKeepsForm(t, s);
    }
  }

  lemma StoreStreakKeepsForm(t: Thresholds, s: State)
    requires Wellformed(s) && Enabled(t, s, StoreStreak)
    ensures Wellformed(Do(t, s, StoreStreak))
  {
  }

  lemma StoreFlagKeepsFaith(t: Thresholds, s: State, id: nat)
    requires Inv(t, s) && Enabled(t, s, StoreFlag) && id in s.registered
    ensures Faithful(t, Do(t, s, StoreFlag), id)
  {
    assert Faithful(t, s, id);
    if id == s.Current() {
      OneMore(t, s.History(id), s.Result());
    }
  }

  lemma StoreStreakKeepsFaith(t: Thresholds, s: State, id: nat)
    requires Inv(t, s) && Enabled(t, s, StoreStreak) && id in s.registered
    ensures Faithful(t, Do(t, s, StoreStreak), id)
  {
    var s' := Do(t, s, StoreStreak);
    assert Faithful(t, s, id);
    assert !Ahead(s', id);
    if id == s.Current() {
      OneMore(t, s.History(id), s.Result());
      assert s'.History(id) == s.History(id) + [s.Result()];
    }
  }

  ghost predicate SameView(s: State, s': State, id: nat) {
    && s'.Streak(id) == s.Streak(id) && s'.Flag(id) == s.Flag(id)
    && s'.History(id) == s.History(id) && Seen(s', id) == Seen(s, id)
  }

  // No other step touches what a backend's state is made of.
  lemma OtherStepsAreQuiet(t: Thresholds, s: State, a: Action, id: nat)
    requires Wellformed(s) && Enabled(t, s, a) && id in Do(t, s, a).registered
    requires a != StoreFlag && a != StoreStreak
    ensures if id in s.registered then SameView(s, Do(t, s, a), id)
            else Do(t, s, a).Streak(id) == 0 && !Do(t, s, a).Flag(id) && Seen(Do(t, s, a), id) == []
  {
    if a.Deregister? {
      WithoutMembers(s.registered, a.id, s.nextId);
    }
  }

  // One step on one backend that is registered afterwards.
  lemma StepKeepsFaith(t: Thresholds, s: State, a: Action, id: nat)
    requires Inv(t, s) && Enabled(t, s, a) && id in Do(t, s, a).registered
    ensures Faithful(t, Do(t, s, a), id)
  {
    if a == StoreFlag {
      StoreFlagKeepsFaith(t, s, id);
    } else if a == StoreStreak {
      StoreStreakKeepsFaith(t, s, id);
    } else {
      OtherStepsAreQuiet(t, s, a, id);
      assert id in s.registered ==> Faithful(t, s, id);
    }
  }

  lemma StepKeepsInv(t: Thresholds, s: State, a: Action)
    requires Inv(t, s) && Enabled(t, s, a)
    ensures Inv(t, Do(t, s, a))
  {
    StepKeepsForm(t, s, a);
    forall id | id in Do(t, s, a).registered
      ensures Faithful(t, Do(t, s, a), id)
    {
      StepKeepsFaith(t, s, a, id);
    }
  }

  lemma {:induction false} RunKeepsInv(t: Thresholds, s: State, run: seq<Action>)
    requires Inv(t, s) && Legal(t, s, run)
    ensures Inv(t, Run(t, s, run))
    decreases |run|
  {
    if run != [] {
      StepKeepsInv(t, s, run[0]);
      RunKeepsInv(t, Do(t, s, run[0]), run[1..]);
    }
  }

  // Hysteresis holds under churn. After any interleaving, a registered backend's
  // stored streak is that of its whole history, and so is its flag, which may only be
  // ahead by the one result being recorded. At a threshold the flag says so.
  lemma HysteresisUnderChurn(t: Thresholds, weights: seq<nat>, run: seq<Action>, id: nat)
    requires AllWeightsOk(weights) && Legal(t, Seeded(weights), run)
    ensures var s := Run(t, Seeded(weights), run);
            id in s.registered ==>
              && s.Streak(id) == Streak(t, s.History(id))
              && LatestVerdict(t, Seen(s, id), s.Flag(id))
              && (!Ahead(s, id) && s.Streak(id) == t.up ==> s.Flag(id))
              && (!Ahead(s, id) && s.Streak(id) == -t.down ==> !s.Flag(id))
  {
    var s := Run(t, Seeded(weights), run);
    RunKeepsInv(t, Seeded(weights), run);
    if id in s.registered {
      assert Faithful(t, s, id);
      FlagIsLatestVerdict(t, Seen(s, id), s.Flag(id));
      FlagFollowsVerdict(t, Seen(s, id));
    }
  }

  // A registered backend's flag falls only when its last UnhealthyThreshold probes
  // all failed, and rises only when its last HealthyThreshold all succeeded or on a
  // success of the initial round; no step but the prober's store moves it.
  lemma FlagMovesOnEvidence(t: Thresholds, weights: seq<nat>, run: seq<Action>, a: Action, id: nat)
    requires AllWeightsOk(weights) && Legal(t, Seeded(weights), run)
    requires Enabled(t, Run(t, Seeded(weights), run), a)
    ensures var s := Run(t, Seeded(weights), run);
            var s' := Do(t, s, a);
            id in s.registered && id in s'.registered && s.Flag(id) != s'.Flag(id) ==>
              && a == StoreFlag && id == s.Current()
              && if s'.Flag(id) then LastAll(Seen(s', id), t.up, true) || s.Result() == Probe(true, true)
                 else LastAll(Seen(s', id), t.down, false)
  {
    var s := Run(t, Seeded(weights), run);
    RunKeepsInv(t, Seeded(weights), run);
    if id in s.registered && id in Do(t, s, a).registered && s.Flag(id) != Do(t, s, a).Flag(id) {
      StepMovesFlagOnEvidence(t, s, a, id);
    }
  }

  lemma StepMovesFlagOnEvidence(t: Thresholds, s: State, a: Action, id: nat)
    requires Inv(t, s) && Enabled(t, s, a) && id in s.registered && id in Do(t, s, a).registered
    requires s.Flag(id) != Do(t, s, a).Flag(id)
    ensures a == StoreFlag && id == s.Current()
    ensures if Do(t, s, a).Flag(id) then LastAll(Seen(Do(t, s, a), id), t.up, true) || s.Result() == Probe(true, true)
            else LastAll(Seen(Do(t, s, a), id), t.down, false)
  {
    if a == StoreFlag {
      assert Faithful(t, s, id);
      StoreFlagKeepsFaith(t, s, id);
      FlagChangesOnEvidence(t, s.History(id), s.Result());
    } else if a == StoreStreak {
      assert false;
    } else {
      OtherStepsAreQuiet(t, s, a, id);
      assert false;
    }
  }

  // After a round the streaks are exactly those of the backends it listed.
  lemma RoundLeavesItsStreaks(t: Thresholds, weights: seq<nat>, run: seq<Action>)
    requires AllWeightsOk(weights) && Legal(t, Seeded(weights), run)
    requires Enabled(t, Run(t, Seeded(weights), run), StoreStreak)
    ensures var s := Run(t, Seeded(weights), run);
            var s' := Do(t, s, StoreStreak);
            s'.phase.Idle? ==> forall id :: id in s'.streak <==> id in s.phase.snapshot
  {
    RunKeepsInv(t, Seeded(weights), run);
  }

  // ---------------------------------------------------------------- what a run amounts to

  // The weights of the backends registered by a run, in order.
  function NewWeights(run: seq<Action>): seq<nat> {
    if run == [] then []
    else (if run[0].Register? then [run[0].weight] else []) + NewWeights(run[1..])
  }

  lemma StepRegisters(t: Thresholds, s: State, a: Action, id: nat)
    requires Wellformed(s) && Enabled(t, s, a)
    ensures var s' := Do(t, s, a);
            && s'.nextId == s.nextId + (if a.Register? then 1 else 0)
            && (id in s'.registered <==> (id in s.registered || (a.Register? && id == s.nextId)) && a != Deregister(id))
            && s'.weight == if a.Register? then s.weight[s.nextId := a.weight] else s.weight
  {
    if a.Deregister? { WithoutMembers(s.registered, a.id, s.nextId); }
  }

  lemma {:induction false} RunRegisters(t: Thresholds, s: State, run: seq<Action>, id: nat)
    requires Inv(t, s) && Legal(t, s, run)
    ensures id in Run(t, s, run).registered <==>
            (id in s.registered || s.nextId <= id < s.nextId + |NewWeights(run)|) && Deregister(id) !in run
    decreases |run|
  {
    if run != [] {
      StepKeepsInv(t, s, run[0]);
      StepRegisters(t, s, run[0], id);
      RunRegisters(t, Do(t, s, run[0]), run[1..], id);
      assert run == [run[0]] + run[1..];
    }
  }

  lemma StepWeighs(t: Thresholds, s: State, a: Action)
    requires Enabled(t, s, a)
    ensures var s' := Do(t, s, a);
            if a.Register? then s'.nextId == s.nextId + 1 && s'.weight == s.weight[s.nextId := a.weight]
            else s'.nextId == s.nextId && s'.weight == s.weight
  {
  }

  lemma {:induction false} RunKeepsWeight(t: Thresholds, s: State, run: seq<Action>, id: nat)
    requires Legal(t, s, run) && id < s.nextId && id in s.weight
    ensures id in Run(t, s, run).weight && Run(t, s, run).weight[id] == s.weight[id]
    decreases |run|
  {
    if run != [] {
      StepWeighs(t, s, run[0]);
      RunKeepsWeight(t, Do(t, s, run[0]), run[1..], id);
    }
  }

  lemma {:induction false} RunWeighs(t: Thresholds, s: State, run: seq<Action>, i: nat)
    requires Legal(t, s, run) && i < |NewWeights(run)|
    ensures s.nextId + i in Run(t, s, run).weight && Run(t, s, run).weight[s.nextId + i] == NewWeights(run)[i]
    decreases |run|
  {
    var s' := Do(t, s, run[0]);
    StepWeighs(t, s, run[0]);
    if !run[0].Register? {
      RunWeighs(t, s', run[1..], i);
    } else if i > 0 {
      RunWeighs(t, s', run[1..], i - 1);
    } else {
      RunKeepsWeight(t, s', run[1..], s.nextId);
    }
  }

  // Registered is what was there at the start or has been registered since, and was
  // not deregistered, in order of creation; each with the weight it came with.
  lemma RegisteredIff(t: Thresholds, weights: seq<nat>, run: seq<Action>, id: nat)
    requires AllWeightsOk(weights) && Legal(t, Seeded(weights), run)
    ensures var s := Run(t, Seeded(weights), run);
            var all := weights + NewWeights(run);
            && (forall i, j | 0 <= i < j < |s.registered| :: s.registered[i] < s.registered[j])
            && (id in s.registered <==> id < |all| && Deregister(id) !in run)
            && (id < |all| ==> id in s.weight && s.weight[id] == all[id])
  {
    var start := Seeded(weights);
    assert id < |weights| ==> start.registered[id] == id;
    RunKeepsInv(t, start, run);
    RunRegisters(t, start, run, id);
    if id < |weights| {
      RunKeepsWeight(t, start, run, id);
    } else if id < |weights| + |NewWeights(run)| {
      RunWeighs(t, start, run, id - |weights|);
    }
  }

  // One whole round: it starts in s, and other steps come in between.
  ghost predicate Round(t: Thresholds, s: State, initial: bool, before: seq<Action>, results: seq<bool>, after: seq<Action>) {
    && Enabled(t, s, StartRound(initial)) && s.registered != []
    && var started := Do(t, s, StartRound(initial));
       && Legal(t, started, before) && NoRound(before)
       && var answered := Run(t, started, before);
          && Enabled(t, answered, Gather(results))
          && Legal(t, Do(t, answered, Gather(results)), after) && NoRound(after)
          && Run(t, Do(t, answered, Gather(results)), after).phase.Idle?
  }

  ghost predicate NoRound(run: seq<Action>) {
    forall i | 0 <= i < |run| :: !run[i].StartRound? && !run[i].Gather?
  }

  function AfterRound(t: Thresholds, s: State, initial: bool, before: seq<Action>, results: seq<bool>, after: seq<Action>): State
    requires Round(t, s, initial, before, results, after)
  {
    Run(t, Do(t, Run(t, Do(t, s, StartRound(initial)), before), Gather(results)), after)
  }

  // The first k of the listed backends have one probe more than in s.
  ghost predicate ProbedUpTo(t: Thresholds, s: State, s': State, listed: seq<nat>, initial: bool, results: seq<bool>, k: nat)
    requires |results| == |listed|
  {
    && (forall i | 0 <= i < |listed| && i < k ::
          && s'.History(listed[i]) == s.History(listed[i]) + [Probe(results[i], initial)]
          && s'.Streak(listed[i]) == Next(t, s.Streak(listed[i]), results[i]))
    && (forall i | k <= i < |listed| ::
          s'.History(listed[i]) == s.History(listed[i]) && s'.Streak(listed[i]) == s.Streak(listed[i]))
    && (forall id: nat | id !in listed :: s'.History(id) == s.History(id))
  }

  ghost predicate InRound(t: Thresholds, s: State, s': State, listed: seq<nat>, initial: bool, results: seq<bool>)
    requires |results| == |listed|
  {
    match s'.phase
    case Idle => ProbedUpTo(t, s, s', listed, initial, results, |listed|)
    case Probing(_, _) => false
    case Recording(snapshot, initial', results', k, _) =>
      snapshot == listed && initial' == initial && results' == results && k < |listed| && ProbedUpTo(t, s, s', listed, initial, results, k)
  }

  lemma StepStaysInRound(t: Thresholds, s: State, s': State, listed: seq<nat>, initial: bool, results: seq<bool>, a: Action)
    requires |results| == |listed| && Increasing(listed, s'.nextId)
    requires InRound(t, s, s', listed, initial, results) && Enabled(t, s', a) && !a.StartRound? && !a.Gather?
    ensures InRound(t, s, Do(t, s', a), listed, initial, results)
  {
    if a.StoreStreak? {
      StoreStreakStaysInRound(t, s, s', listed, initial, results);
    } else {
      QuietStep(t, s', a);
      QuietStaysInRound(t, s, s', Do(t, s', a), listed, initial, results);
    }
  }

  // Streaks and histories are as they were, and at most the stage has moved.
  ghost predicate Quiet(s: State, s': State) {
    && s'.history == s.history && s'.streak == s.streak
    && (s'.phase == s.phase ||
        (s.phase.Recording? && s'.phase.Recording? && s'.phase == s.phase.(stage := s'.phase.stage)))
  }

  lemma QuietStep(t: Thresholds, s: State, a: Action)
    requires Enabled(t, s, a) && !a.StartRound? && !a.Gather? && !a.StoreStreak?
    ensures Quiet(s, Do(t, s, a))
  {
  }

  lemma QuietStaysInRound(t: Thresholds, s: State, s': State, s'': State, listed: seq<nat>, initial: bool, results: seq<bool>)
    requires |results| == |listed| && InRound(t, s, s', listed, initial, results) && Quiet(s', s'')
    ensures InRound(t, s, s'', listed, initial, results)
  {
    assert forall id: nat :: s''.History(id) == s'.History(id) && s''.Streak(id) == s'.Streak(id);
  }

  lemma StoreStreakStaysInRound(t: Thresholds, s: State, s': State, listed: seq<nat>, initial: bool, results: seq<bool>)
    requires |results| == |listed| && Increasing(listed, s'.nextId)
    requires InRound(t, s, s', listed, initial, results) && Enabled(t, s', StoreStreak)
    ensures InRound(t, s, Do(t, s', StoreStreak), listed, initial, results)
  {
    var k, s'' := s'.phase.k, Do(t, s', StoreStreak);
    forall id: nat | id != listed[k]
      ensures s''.History(id) == s'.History(id) && s''.Streak(id) == s'.Streak(id)
    {
    }
    assert ProbedUpTo(t, s, s'', listed, initial, results, k + 1);
  }

  lemma {:induction false} RunStaysInRound(t: Thresholds, s: State, s': State, listed: seq<nat>, initial: bool, results: seq<bool>, run: seq<Action>)
    requires |results| == |listed| && Increasing(listed, s'.nextId)
    requires InRound(t, s, s', listed, initial, results) && Legal(t, s', run) && NoRound(run)
    ensures InRound(t, s, Run(t, s', run), listed, initial, results)
    decreases |run|
  {
    if run != [] {
      StepStaysInRound(t, s, s', listed, initial, results, run[0]);
      RunStaysInRound(t, s, Do(t, s', run[0]), listed, initial, results, run[1..]);
    }
  }

  lemma {:induction false} ProbingLasts(t: Thresholds, s: State, run: seq<Action>)
    requires s.phase.Probing? && Legal(t, s, run) && NoRound(run)
    ensures var s' := Run(t, s, run);
            s'.phase == s.phase && s'.history == s.history && s'.streak == s.streak && s'.nextId >= s.nextId
    decreases |run|
  {
    if run != [] {
      ProbingLasts(t, Do(t, s, run[0]), run[1..]);
    }
  }

  // The backends of `listed` have one probe more than in s, with these results, and no
  // other has.
  ghost predicate AllProbed(t: Thresholds, s: State, end: State, listed: seq<nat>, initial: bool, results: seq<bool>) {
    && |results| == |listed|
    && (forall i | 0 <= i < |listed| ::
          && end.History(listed[i]) == s.History(listed[i]) + [Probe(results[i], initial)]
          && end.Streak(listed[i]) == Next(t, s.Streak(listed[i]), results[i]))
    && (forall id: nat | id !in listed :: end.History(id) == s.History(id))
  }

  lemma RoundProbes(
      t: Thresholds, s: State, initial: bool, before: seq<Action>, results: seq<bool>, after: seq<Action>)
    requires Increasing(s.registered, s.nextId) && Round(t, s, initial, before, results, after)
    ensures AllProbed(t, s, AfterRound(t, s, initial, before, results, after), s.registered, initial, results)
  {
    var started := Do(t, s, StartRound(initial));
    ProbingLasts(t, started, before);
    var gathered := Do(t, Run(t, started, before), Gather(results));
    RunStaysInRound(t, s, gathered, s.registered, initial, results, after);
  }

  // A round adds result i to the history and the streak of the i-th backend of the
  // list as it was when the round started, whatever comes in between, and nothing to
  // the history of any other.
  lemma RoundRecords(
      t: Thresholds, weights: seq<nat>, past: seq<Action>,
      initial: bool, before: seq<Action>, results: seq<bool>, after: seq<Action>)
    requires AllWeightsOk(weights) && Legal(t, Seeded(weights), past)
    requires Round(t, Run(t, Seeded(weights), past), initial, before, results, after)
    ensures var s := Run(t, Seeded(weights), past);
            AllProbed(t, s, AfterRound(t, s, initial, before, results, after), s.registered, initial, results)
  {
    RunKeepsInv(t, Seeded(weights), past);
    RoundProbes(t, Run(t, Seeded(weights), past), initial, before, results, after);
  }

  // The prober has found this backend in the list and is about to store its flag.
  predicate StoreDue(s: State, id: nat) {
    InRecord(s) && s.phase.stage.Found? && s.Current() == id
  }

  // A backend that has left the registry keeps its flag from then on, unless the prober
  // had found it before and is about to store.
  lemma {:induction false} RemovedKeepsFlag(t: Thresholds, s: State, run: seq<Action>, id: nat)
    requires Legal(t, s, run)
    requires id < s.nextId && id !in s.registered && !StoreDue(s, id)
    ensures Run(t, s, run).Flag(id) == s.Flag(id) && id !in Run(t, s, run).registered
    decreases |run|
  {
    if run != [] {
      StepKeepsRemoved(t, s, run[0], id);
      RemovedKeepsFlag(t, Do(t, s, run[0]), run[1..], id);
    }
  }

  lemma StepKeepsRemoved(t: Thresholds, s: State, a: Action, id: nat)
    requires Enabled(t, s, a) && id < s.nextId && id !in s.registered && !StoreDue(s, id)
    ensures var s' := Do(t, s, a);
            id < s'.nextId && id !in s'.registered && !StoreDue(s', id) && s'.Flag(id) == s.Flag(id)
  {
    if a.Deregister? { FilterMembers(s.registered, (x: nat) => x != a.id); }
  }

  // ---------------------------------------------------------------- progress

  function RecordStep(t: Thresholds, s: State): Action
    requires InRecord(s)
  {
    match s.phase.stage
    case Fresh => if Reported(t, s).Some? then LoadList else StoreStreak
    case Found(_) => StoreFlag
    case Settled => StoreStreak
  }

  function StepsLeft(stage: Stage): nat {
    match stage
    case Fresh => 2
    case Found(_) => 1
    case Settled => 0
  }

  // A round that has its results can always be finished by the prober alone.
  lemma {:induction false} RoundFinishes(t: Thresholds, s: State) returns (run: seq<Action>)
    requires InRecord(s)
    ensures Legal(t, s, run) && NoRound(run) && Run(t, s, run).phase.Idle?
    decreases |s.phase.snapshot| - s.phase.k, StepsLeft(s.phase.stage)
  {
    var a := RecordStep(t, s);
    var s', rest := Do(t, s, a), [];
    if !s'.phase.Idle? {
      rest := RoundFinishes(t, s');
    }
    run := [a] + rest;
    assert run[1..] == rest;
  }
}
