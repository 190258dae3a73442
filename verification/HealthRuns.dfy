// Health flags under concurrency: the flag stores of SetHealthy and the scans of
// ListHealthyBackends, which reads one flag after another, interleaved with each other
// and with every step of the registry.
module HealthRuns {
  import opened Arithmetic
  import opened Domain
  import opened Lists
  import opened Wrappers
  import LC = LeastConnections
  import RR = RegistryRuns
  import WB = WeightedBands

  // What the list and the flags were at one moment.
  datatype Moment = Moment(list: seq<RR.Entry>, healthy: set<nat>)

  datatype Job =
    | Idle
    // SetHealthy: looking for the backend in the list it loaded at moment `since`; or
    // about to store its flag.
    | Seeking(id: nat, v: bool, x: RR.Slice, since: nat, i: nat)
    | Storing(id: nat, v: bool, since: nat)
    // ListHealthyBackends: the list it loaded and when, at which moments it has read
    // the flags so far, and the result so far.
    | Scanning(x: RR.Slice, since: nat, seen: seq<nat>, found: seq<RR.Entry>)
  {
    predicate Done() { Scanning? && |seen| == x.len }
  }

  // `healthy` are the backends whose flag is set, registered or not. `moments` records
  // the state after every step, so the last of them is now.
  datatype State = State(reg: RR.State, healthy: set<nat>, jobs: map<nat, Job>, moments: seq<Moment>) {
    function Job(t: nat): Job { if t in jobs then jobs[t] else Idle }

    predicate Flag(id: nat) { id in healthy }
  }

  // The current list.
  function Contents(reg: RR.State): seq<RR.Entry> {
    if RR.InHeap(reg, reg.list) && RR.NoNil(reg.Cells(reg.list)) then RR.Unwrap(reg.Cells(reg.list)) else []
  }

  datatype Step =
    | Reg(a: RR.Step)          // a step of the registry; weights have been validated
    | SetLoad(id: nat, v: bool)
    | SetSeek
    | SetStore
    | ScanLoad
    | ScanNext
    | ScanReturn

  predicate Enabled(s: State, t: nat, a: Step) {
    match a
    case Reg(b) => RR.Enabled(s.reg, t, b) && (b.Invoke? && b.op.Add? ==> WeightOk(b.op.weight))
    case SetLoad(_, _) => s.Job(t).Idle?
    case SetSeek => s.Job(t).Seeking?
    case SetStore => s.Job(t).Storing?
    case ScanLoad => s.Job(t).Idle?
    case ScanNext => s.Job(t).Scanning? && !s.Job(t).Done()
    case ScanReturn => s.Job(t).Done()
  }

  predicate Readable(s: State, x: RR.Slice, i: nat) {
    RR.InHeap(s.reg, x) && i <= x.len && (i < x.len ==> s.reg.heap[x.at][i].Some?)
  }

  predicate InBounds(s: State, t: nat) {
    && RR.InBounds(s.reg, t)
    && match s.Job(t)
       case Seeking(_, _, x, _, i) => Readable(s, x, i)
       case Scanning(x, _, seen, _) => Readable(s, x, |seen|)
       case _ => true
  }

  function At(s: State, t: nat, job: Job): State {
    s.(jobs := s.jobs[t := job])
  }

  function Do(s: State, t: nat, a: Step): State
    requires Enabled(s, t, a) && InBounds(s, t)
  {
    var s' := Act(s, t, a);
    s'.(moments := s.moments + [Moment(Contents(s'.reg), s'.healthy)])
  }

  function Act(s: State, t: nat, a: Step): State
    requires Enabled(s, t, a) && InBounds(s, t)
  {
    match a
    case Reg(b) =>
      // A backend is created unhealthy.
      var created := if b.Clone? && s.reg.Pc(t).op.Add? then {s.reg.nextId} else {};
      s.(reg := RR.Do(s.reg, t, b), healthy := s.healthy - created)
    case SetLoad(id, v) =>
      At(s, t, Seeking(id, v, s.reg.list, |s.moments|, 0)).(reg := RR.Do(s.reg, t, RR.Read))
    case SetSeek =>
      var Seeking(id, v, x, since, i) := s.Job(t);
      if i == x.len then At(s, t, Idle)
      else if s.reg.heap[x.at][i].value.id == id then At(s, t, Storing(id, v, since))
      else At(s, t, Seeking(id, v, x, since, i + 1))
    case SetStore =>
      var Storing(id, v, _) := s.Job(t);
      At(s, t, Idle).(healthy := if v then s.healthy + {id} else s.healthy - {id})
    case ScanLoad =>
      At(s, t, Scanning(s.reg.list, |s.moments|, [], [])).(reg := RR.Do(s.reg, t, RR.Read))
    case ScanNext =>
      var Scanning(x, since, seen, found) := s.Job(t);
      var b := s.reg.heap[x.at][|seen|].value;
      At(s, t, Scanning(x, since, seen + [|s.moments|], if s.Flag(b.id) then found + [b] else found))
    case ScanReturn => At(s, t, Idle)
  }

  type Scheduled = (nat, Step)

  predicate Legal(s: State, run: seq<Scheduled>)
    decreases |run|
  {
    run == [] ||
    (Enabled(s, run[0].0, run[0].1) && InBounds(s, run[0].0) && Legal(Do(s, run[0].0, run[0].1), run[1..]))
  }

  function Run(s: State, run: seq<Scheduled>): State
    requires Legal(s, run)
    decreases |run|
  {
    if run == [] then s else Run(Do(s, run[0].0, run[0].1), run[1..])
  }

  // NewRegistry on the configured backends, whatever their flags.
  function Seeded(seed: seq<RR.Entry>, nextId: nat, healthy: set<nat>): State {
    State(RR.Seeded(seed, nextId), healthy, map[], [Moment(seed, healthy)])
  }

  // ---------------------------------------------------------------- the registry inside

  // What a run does to the registry alone: both loads are reads.
  function RegistrySteps(run: seq<Scheduled>): seq<RR.Scheduled> {
    if run == [] then []
    else
      var (t, a) := run[0];
      (match a
       case Reg(b) => [(t, b)]
       case SetLoad(_, _) => [(t, RR.Read)]
       case ScanLoad => [(t, RR.Read)]
       case _ => [])
      + RegistrySteps(run[1..])
  }

  lemma RegistryOneStep(reg: RR.State, t: nat, b: RR.Step, rest: seq<RR.Scheduled>)
    requires RR.Enabled(reg, t, b) && RR.InBounds(reg, t) && RR.Legal(RR.Do(reg, t, b), rest)
    ensures RR.Legal(reg, [(t, b)] + rest)
    ensures RR.Run(reg, [(t, b)] + rest) == RR.Run(RR.Do(reg, t, b), rest)
  {
    assert ([(t, b)] + rest)[1..] == rest;
  }

  // Every run here is a run of the registry alone, with some more readers.
  lemma {:induction false} RunsTheRegistry(s: State, run: seq<Scheduled>)
    requires Legal(s, run)
    ensures RR.Legal(s.reg, RegistrySteps(run))
    ensures RR.Run(s.reg, RegistrySteps(run)) == Run(s, run).reg
    decreases |run|
  {
    if run != [] {
      var (t, a) := run[0];
      RunsTheRegistry(Do(s, t, a), run[1..]);
      match a {
        case Reg(b) => RegistryOneStep(s.reg, t, b, RegistrySteps(run[1..]));
        case SetLoad(_, _) => RegistryOneStep(s.reg, t, RR.Read, RegistrySteps(run[1..]));
        case ScanLoad => RegistryOneStep(s.reg, t, RR.Read, RegistrySteps(run[1..]));
        case _ => assert [] + RegistrySteps(run[1..]) == RegistrySteps(run[1..]);
      }
    }
  }

  // ---------------------------------------------------------------- the invariant

  ghost predicate AllWeighed(list: seq<RR.Entry>) {
    forall i | 0 <= i < |list| :: WeightOk(list[i].weight)
  }

  ghost predicate PcWeighed(pc: RR.Pc) {
    match pc
    case Waiting(op) => op.Add? ==> WeightOk(op.weight)
    case Locked(op) => op.Add? ==> WeightOk(op.weight)
    case Checked(op, _) => op.Add? ==> WeightOk(op.weight)
    case Appending(e, _) => WeightOk(e.weight)
    case Built(what, _) => what.Added? ==> WeightOk(what.e.weight)
    case _ => true
  }

  ghost predicate Weighed(reg: RR.State) {
    && (forall t: nat :: PcWeighed(reg.Pc(t)))
    && forall i | 0 <= i < |reg.history| && reg.history[i].Added? :: WeightOk(reg.history[i].e.weight)
  }

  // What a scan of `list` finds when it reads the flag of entry i at moment seen[i].
  function Sample(moments: seq<Moment>, list: seq<RR.Entry>, seen: seq<nat>): seq<RR.Entry>
    requires |seen| <= |list| && forall i | 0 <= i < |seen| :: seen[i] < |moments|
  {
    if seen == [] then []
    else
      var i := |seen| - 1;
      Sample(moments, list, seen[..i]) + if list[i].id in moments[seen[i]].healthy then [list[i]] else []
  }

  ghost predicate Snapshot(s: State, x: RR.Slice, list: seq<RR.Entry>) {
    x in s.reg.handedOut && RR.InHeap(s.reg, x) && s.reg.Cells(x) == RR.Wrap(list)
  }

  ghost predicate JobOk(s: State, job: Job) {
    match job
    case Idle => true
    case Seeking(id, _, x, since, i) =>
      && since < |s.moments| && i <= x.len
      && Snapshot(s, x, s.moments[since].list)
      && !RR.HasId(s.moments[since].list[..i], id)
    case Storing(id, _, since) => since < |s.moments| && RR.HasId(s.moments[since].list, id)
    case Scanning(x, since, seen, found) =>
      && since < |s.moments| && |seen| <= x.len
      && Snapshot(s, x, s.moments[since].list)
      && (forall i | 0 <= i < |seen| :: since <= seen[i] < |s.moments|)
      && found == Sample(s.moments, s.moments[since].list, seen)
  }

  ghost predicate Inv(seed: seq<RR.Entry>, s: State) {
    && RR.Inv(seed, s.reg) && Weighed(s.reg)
    && (forall m | 0 <= m < |s.moments| :: AllWeighed(s.moments[m].list))
    && (forall t: nat :: JobOk(s, s.Job(t)))
  }

  // No index is out of range and no nil followed, here as in the registry.
  lemma NeverOutOfBounds(seed: seq<RR.Entry>, s: State, t: nat)
    requires Inv(seed, s)
    ensures InBounds(s, t)
  {
    RR.NeverOutOfBounds(seed, s.reg, t, RR.Read);
    assert JobOk(s, s.Job(t));
  }

  lemma {:induction false} SampleStays(before: seq<Moment>, after: seq<Moment>, list: seq<RR.Entry>, seen: seq<nat>)
    requires before <= after && |seen| <= |list| && forall i | 0 <= i < |seen| :: seen[i] < |before|
    ensures Sample(after, list, seen) == Sample(before, list, seen)
  {
    if seen != [] {
      SampleStays(before, after, list, seen[..|seen| - 1]);
    }
  }

  // What other goroutines may do to a job: hand out more slices and let time pass.
  ghost predicate Passes(s: State, s': State) {
    && s.moments <= s'.moments
    && forall x | x in s.reg.handedOut && RR.InHeap(s.reg, x) ::
         x in s'.reg.handedOut && RR.InHeap(s'.reg, x) && s'.reg.Cells(x) == s.reg.Cells(x)
  }

  lemma JobSurvives(s: State, s': State, job: Job)
    requires JobOk(s, job) && Passes(s, s')
    ensures JobOk(s', job)
  {
    match job
    case Scanning(x, since, seen, _) =>
      SampleStays(s.moments, s'.moments, s.moments[since].list, seen);
    case _ =>
  }

  // What the step does to the registry.
  function RegistryStep(a: Step): Option<RR.Step> {
    match a
    case Reg(b) => Some(b)
    case SetLoad(_, _) => Some(RR.Read)
    case ScanLoad => Some(RR.Read)
    case _ => None
  }

  lemma StepPasses(seed: seq<RR.Entry>, s: State, t: nat, a: Step)
    requires RR.Inv(seed, s.reg) && Enabled(s, t, a) && InBounds(s, t)
    ensures Passes(s, Do(s, t, a)) && RR.Inv(seed, Do(s, t, a).reg)
  {
    var s' := Do(s, t, a);
    match RegistryStep(a)
    case Some(b) =>
      RR.StepKeepsInv(seed, s.reg, t, b);
      forall x | x in s.reg.handedOut && RR.InHeap(s.reg, x)
        ensures x in s'.reg.handedOut && RR.InHeap(s'.reg, x) && s'.reg.Cells(x) == s.reg.Cells(x)
      {
        RR.StepDisturbsNoReader(seed, s.reg, t, b, x);
      }
    case None =>
  }

  lemma RegistryStepIsWeighed(reg: RR.State, t: nat, b: RR.Step)
    requires Weighed(reg) && RR.Enabled(reg, t, b) && RR.InBounds(reg, t)
    requires b.Invoke? && b.op.Add? ==> WeightOk(b.op.weight)
    ensures Weighed(RR.Do(reg, t, b))
  {
    var reg' := RR.Do(reg, t, b);
    assert PcWeighed(reg.Pc(t));
    assert PcWeighed(reg'.Pc(t));
    forall u: nat
      ensures PcWeighed(reg'.Pc(u))
    {
      assert PcWeighed(reg.Pc(u));
      assert u != t ==> reg'.Pc(u) == reg.Pc(u);
    }
  }

  lemma {:induction false} ReplayWeighs(seed: seq<RR.Entry>, history: seq<RR.Event>)
    requires AllWeighed(seed)
    requires forall i | 0 <= i < |history| && history[i].Added? :: WeightOk(history[i].e.weight)
    ensures AllWeighed(RR.Replay(seed, history))
  {
    if history != [] {
      var init, last := history[..|history| - 1], history[|history| - 1];
      ReplayWeighs(seed, init);
      var before := RR.Replay(seed, init);
      if last.Removed? {
        FilterMembers(before, (e: RR.Entry) => e.id != last.id);
        forall i | 0 <= i < |RR.Without(before, last.id)|
          ensures WeightOk(RR.Without(before, last.id)[i].weight)
        {
          assert RR.Without(before, last.id)[i] in before;
        }
      }
    }
  }

  lemma ContentsIsReplay(seed: seq<RR.Entry>, reg: RR.State)
    requires RR.Inv(seed, reg)
    ensures Contents(reg) == RR.Replay(seed, reg.history)
    ensures RR.InHeap(reg, reg.list) && reg.Cells(reg.list) == RR.Wrap(Contents(reg))
  {
    RR.UnwrapWrap(RR.Replay(seed, reg.history));
  }

  lemma LoadedIsCurrent(seed: seq<RR.Entry>, s: State, t: nat, a: Step)
    requires Inv(seed, s) && Enabled(s, t, a) && InBounds(s, t) && (a.SetLoad? || a.ScanLoad?)
    ensures Snapshot(Do(s, t, a), s.reg.list, Contents(s.reg))
    ensures Contents(Do(s, t, a).reg) == Contents(s.reg)
  {
    ContentsIsReplay(seed, s.reg);
  }

  lemma ScanNextKeepsJob(s: State, t: nat)
    requires Enabled(s, t, ScanNext) && InBounds(s, t) && JobOk(s, s.Job(t))
    ensures JobOk(Do(s, t, ScanNext), Do(s, t, ScanNext).Job(t))
  {
    var s' := Do(s, t, ScanNext);
    var Scanning(x, since, seen, found) := s.Job(t);
    var list, seen' := s.moments[since].list, seen + [|s.moments|];
    SampleStays(s.moments, s'.moments, list, seen);
    assert seen'[..|seen|] == seen;
    assert s.reg.heap[x.at][|seen|] == s.reg.Cells(x)[|seen|] == Some(list[|seen|]);
  }

  lemma SetSeekKeepsJob(s: State, t: nat)
    requires Enabled(s, t, SetSeek) && InBounds(s, t) && JobOk(s, s.Job(t))
    ensures JobOk(Do(s, t, SetSeek), Do(s, t, SetSeek).Job(t))
  {
    var Seeking(id, _, x, since, i) := s.Job(t);
    var list := s.moments[since].list;
    if i < x.len {
      assert s.reg.heap[x.at][i] == s.reg.Cells(x)[i] == Some(list[i]);
      assert forall k | 0 <= k < i :: list[..i + 1][k] == list[..i][k];
    }
  }

  lemma OwnJobOk(seed: seq<RR.Entry>, s: State, t: nat, a: Step)
    requires Inv(seed, s) && Enabled(s, t, a) && InBounds(s, t)
    ensures JobOk(Do(s, t, a), Do(s, t, a).Job(t))
  {
    assert JobOk(s, s.Job(t));
    StepPasses(seed, s, t, a);
    JobSurvives(s, Do(s, t, a), s.Job(t));
    match a {
      case SetLoad(_, _) => LoadedIsCurrent(seed, s, t, a);
      case ScanLoad => LoadedIsCurrent(seed, s, t, a);
      case ScanNext => ScanNextKeepsJob(s, t);
      case SetSeek => SetSeekKeepsJob(s, t);
      case _ =>
    }
  }

  lemma JobsStayOk(seed: seq<RR.Entry>, s: State, t: nat, a: Step)
    requires Inv(seed, s) && Enabled(s, t, a) && InBounds(s, t)
    ensures forall u: nat :: JobOk(Do(s, t, a), Do(s, t, a).Job(u))
  {
    StepPasses(seed, s, t, a);
    forall u: nat
      ensures JobOk(Do(s, t, a), Do(s, t, a).Job(u))
    {
      if u == t {
        OwnJobOk(seed, s, t, a);
      } else {
        assert JobOk(s, s.Job(u));
        JobSurvives(s, Do(s, t, a), s.Job(u));
      }
    }
  }

  lemma StepKeepsWeights(seed: seq<RR.Entry>, s: State, t: nat, a: Step)
    requires AllWeighed(seed) && Weighed(s.reg) && Enabled(s, t, a) && InBounds(s, t)
    requires RR.Inv(seed, Do(s, t, a).reg)
    ensures Weighed(Do(s, t, a).reg) && AllWeighed(Contents(Do(s, t, a).reg))
  {
    if RegistryStep(a).Some? { RegistryStepIsWeighed(s.reg, t, RegistryStep(a).value); }
    ContentsIsReplay(seed, Do(s, t, a).reg);
    ReplayWeighs(seed, Do(s, t, a).reg.history);
  }

  lemma StepKeepsInv(seed: seq<RR.Entry>, s: State, t: nat, a: Step)
    requires AllWeighed(seed) && Inv(seed, s) && Enabled(s, t, a)
    ensures InBounds(s, t) && Inv(seed, Do(s, t, a))
  {
    NeverOutOfBounds(seed, s, t);
    StepPasses(seed, s, t, a);
    StepKeepsWeights(seed, s, t, a);
    JobsStayOk(seed, s, t, a);
  }

  lemma {:induction false} RunKeepsInv(seed: seq<RR.Entry>, s: State, run: seq<Scheduled>)
    requires AllWeighed(seed) && Inv(seed, s) && Legal(s, run)
    ensures Inv(seed, Run(s, run))
    decreases |run|
  {
    if run != [] {
      StepKeepsInv(seed, s, run[0].0, run[0].1);
      RunKeepsInv(seed, Do(s, run[0].0, run[0].1), run[1..]);
    }
  }

  lemma SeededInv(seed: seq<RR.Entry>, nextId: nat, healthy: set<nat>)
    requires RR.Seed(seed, nextId) && AllWeighed(seed)
    ensures Inv(seed, Seeded(seed, nextId, healthy))
  {
    RR.SeededInv(seed, nextId);
  }

  // ---------------------------------------------------------------- newcomers

  // A backend on its way into the list has a name that no list has had so far, and its
  // flag is not set.
  ghost predicate NewcomersOk(s: State) {
    && (forall m | 0 <= m < |s.moments| :: RR.IdsBelow(s.moments[m].list, s.reg.nextId))
    && forall t: nat, e | RR.Pending(s.reg.Pc(t), e) :: Unknown(s, e.id)
  }

  ghost predicate Unknown(s: State, id: nat) {
    && !s.Flag(id)
    && forall m | 0 <= m < |s.moments| :: !RR.HasId(s.moments[m].list, id)
  }

  lemma PendingIsUnlisted(seed: seq<RR.Entry>, reg: RR.State, t: nat, e: RR.Entry)
    requires RR.Inv(seed, reg) && RR.Pending(reg.Pc(t), e)
    ensures !RR.HasId(Contents(reg), e.id)
  {
    ContentsIsReplay(seed, reg);
    RR.HolderIsWriter(seed, reg, t);
    assert forall i | 0 <= i < |Contents(reg)| :: Contents(reg)[i] in Contents(reg);
  }

  // Where a newcomer gets its name, and that its flag is cleared then.
  lemma NamesAreGivenUnset(s: State, t: nat, a: Step)
    requires Enabled(s, t, a) && InBounds(s, t)
    ensures var s' := Do(s, t, a);
            && s.reg.nextId <= s'.reg.nextId
            && (s'.reg.nextId > s.reg.nextId ==> !s'.Flag(s.reg.nextId))
            && (forall e | RR.Pending(s'.reg.Pc(t), e) ::
                  RR.Pending(s.reg.Pc(t), e) || e.id == s.reg.nextId < s'.reg.nextId)
            && (forall u: nat | u != t :: s'.reg.Pc(u) == s.reg.Pc(u))
            && (forall id | s'.Flag(id) && !s.Flag(id) :: s.Job(t).Storing? && id == s.Job(t).id)
  {
    if RegistryStep(a).Some? { RR.StepBrings(s.reg, t, RegistryStep(a).value); }
  }

  lemma NewcomerStaysUnknown(seed: seq<RR.Entry>, s: State, t: nat, a: Step, u: nat, e: RR.Entry)
    requires NewcomersOk(s) && Enabled(s, t, a) && InBounds(s, t) && JobOk(s, s.Job(t))
    requires RR.Inv(seed, Do(s, t, a).reg) && RR.Pending(Do(s, t, a).reg.Pc(u), e)
    ensures Unknown(Do(s, t, a), e.id)
  {
    NamesAreGivenUnset(s, t, a);
    PendingIsUnlisted(seed, Do(s, t, a).reg, u, e);
    assert RR.Pending(s.reg.Pc(u), e) ==> Unknown(s, e.id);
  }

  lemma StepKeepsNewcomers(seed: seq<RR.Entry>, s: State, t: nat, a: Step)
    requires NewcomersOk(s) && Enabled(s, t, a) && InBounds(s, t) && JobOk(s, s.Job(t))
    requires RR.Inv(seed, Do(s, t, a).reg)
    ensures NewcomersOk(Do(s, t, a))
  {
    NamesAreGivenUnset(s, t, a);
    ContentsIsReplay(seed, Do(s, t, a).reg);
    forall u: nat, e | RR.Pending(Do(s, t, a).reg.Pc(u), e)
      ensures Unknown(Do(s, t, a), e.id)
    {
      NewcomerStaysUnknown(seed, s, t, a, u, e);
    }
  }

  lemma {:induction false} RunKeepsNewcomers(seed: seq<RR.Entry>, s: State, run: seq<Scheduled>)
    requires AllWeighed(seed) && Inv(seed, s) && NewcomersOk(s) && Legal(s, run)
    ensures NewcomersOk(Run(s, run))
    decreases |run|
  {
    if run != [] {
      var (t, a) := run[0];
      StepKeepsInv(seed, s, t, a);
      assert JobOk(s, s.Job(t));
      StepKeepsNewcomers(seed, s, t, a);
      RunKeepsNewcomers(seed, Do(s, t, a), run[1..]);
    }
  }

  // ---------------------------------------------------------------- reachable states

  ghost predicate Reached(seed: seq<RR.Entry>, s: State) {
    exists nextId, healthy, run ::
      && RR.Seed(seed, nextId) && AllWeighed(seed)
      && Legal(Seeded(seed, nextId, healthy), run) && Run(Seeded(seed, nextId, healthy), run) == s
  }

  lemma ReachedOk(seed: seq<RR.Entry>, s: State)
    requires Reached(seed, s)
    ensures AllWeighed(seed) && Inv(seed, s) && NewcomersOk(s)
  {
    var nextId, healthy, run :|
      && RR.Seed(seed, nextId) && AllWeighed(seed)
      && Legal(Seeded(seed, nextId, healthy), run) && Run(Seeded(seed, nextId, healthy), run) == s;
    SeededInv(seed, nextId, healthy);
    RunKeepsInv(seed, Seeded(seed, nextId, healthy), run);
    RunKeepsNewcomers(seed, Seeded(seed, nextId, healthy), run);
  }

  // The moments are the states the run goes through, one for each step: the one after
  // `first` says what the list and the flags are then.
  lemma MomentsAreStates(s: State, first: seq<Scheduled>, rest: seq<Scheduled>)
    requires Legal(s, first + rest) && first != []
    ensures Legal(s, first)
    ensures var now, end := Run(s, first), Run(s, first + rest);
            && |end.moments| == |s.moments| + |first| + |rest|
            && end.moments[|s.moments| + |first| - 1] == Moment(Contents(now.reg), now.healthy)
  {
    RunSplits(s, first, rest);
    MomentsGrow(s, first);
    var now := Run(s, first);
    var end := Run(now, rest);
    MomentsGrow(now, rest);
    LastMomentIsNow(s, first);
    assert end == Run(s, first + rest) && |now.moments| == |s.moments| + |first|;
    assert end.moments[|now.moments| - 1] == now.moments[|now.moments| - 1];
  }

  lemma {:induction false} RunSplits(s: State, first: seq<Scheduled>, rest: seq<Scheduled>)
    requires Legal(s, first + rest)
    ensures Legal(s, first) && Legal(Run(s, first), rest)
    ensures Run(s, first + rest) == Run(Run(s, first), rest)
    decreases |first|
  {
    if first == [] {
      assert first + rest == rest;
    } else {
      assert (first + rest)[1..] == first[1..] + rest;
      RunSplits(Do(s, first[0].0, first[0].1), first[1..], rest);
    }
  }

  lemma {:induction false} LastMomentIsNow(s: State, run: seq<Scheduled>)
    requires Legal(s, run) && run != []
    ensures var now := Run(s, run);
            now.moments != [] && now.moments[|now.moments| - 1] == Moment(Contents(now.reg), now.healthy)
    decreases |run|
  {
    if |run| > 1 {
      LastMomentIsNow(Do(s, run[0].0, run[0].1), run[1..]);
    }
  }

  lemma {:induction false} MomentsGrow(s: State, run: seq<Scheduled>)
    requires Legal(s, run)
    ensures |Run(s, run).moments| == |s.moments| + |run| && s.moments <= Run(s, run).moments
    decreases |run|
  {
    if run != [] {
      MomentsGrow(Do(s, run[0].0, run[0].1), run[1..]);
    }
  }

  lemma JobAfterStep(seed: seq<RR.Entry>, s: State, t: nat, a: Step, rest: seq<Scheduled>)
    requires Reached(seed, s) && Enabled(s, t, a) && InBounds(s, t) && Legal(Do(s, t, a), rest)
    ensures var end := Run(Do(s, t, a), rest); InBounds(end, t) && JobOk(end, end.Job(t))
  {
    ReachedOk(seed, s);
    StepKeepsInv(seed, s, t, a);
    JobAfterRun(seed, Do(s, t, a), t, rest);
  }

  lemma JobAfterRun(seed: seq<RR.Entry>, s: State, t: nat, run: seq<Scheduled>)
    requires AllWeighed(seed) && Inv(seed, s) && Legal(s, run)
    ensures InBounds(Run(s, run), t) && JobOk(Run(s, run), Run(s, run).Job(t))
  {
    RunKeepsInv(seed, s, run);
    NeverOutOfBounds(seed, Run(s, run), t);
  }

  lemma LoadedMoment(s: State, t: nat, a: Step, rest: seq<Scheduled>)
    requires Enabled(s, t, a) && InBounds(s, t) && Legal(Do(s, t, a), rest) && (a.SetLoad? || a.ScanLoad?)
    ensures var end := Run(Do(s, t, a), rest);
            |s.moments| < |end.moments| && end.moments[|s.moments|].list == Contents(s.reg)
  {
    var loaded := Do(s, t, a);
    MomentsGrow(loaded, rest);
    assert Run(loaded, rest).moments[|s.moments|] == loaded.moments[|s.moments|];
  }

  // What a moment says of the list is what stands in its cells.
  lemma ContentsAreCells(seed: seq<RR.Entry>, s: State)
    requires Reached(seed, s)
    ensures RR.InHeap(s.reg, s.reg.list) && |Contents(s.reg)| == s.reg.list.len
    ensures forall i | 0 <= i < s.reg.list.len :: s.reg.heap[s.reg.list.at][i] == Some(Contents(s.reg)[i])
  {
    ReachedOk(seed, s);
    ContentsIsReplay(seed, s.reg);
    assert forall i | 0 <= i < s.reg.list.len :: s.reg.heap[s.reg.list.at][i] == s.reg.Cells(s.reg.list)[i];
  }

  // When a backend first appears in the list it is unhealthy.
  lemma UnhealthyWhenListed(seed: seq<RR.Entry>, s: State, t: nat, a: Step, id: nat)
    requires Reached(seed, s) && Enabled(s, t, a) && InBounds(s, t)
    requires !RR.HasId(Contents(s.reg), id) && RR.HasId(Contents(Do(s, t, a).reg), id)
    ensures !Do(s, t, a).Flag(id)
  {
    ReachedOk(seed, s);
    var s' := Do(s, t, a);
    StepPasses(seed, s, t, a);
    ContentsIsReplay(seed, s.reg);
    ContentsIsReplay(seed, s'.reg);
    NamesAreGivenUnset(s, t, a);
    ListedWasPending(seed, s.reg, s'.reg, t, RegistryStep(a), id);
    assert JobOk(s, s.Job(t));
  }

  lemma RemovalAddsNone(list: seq<RR.Entry>, removed: nat, id: nat)
    ensures RR.HasId(RR.Without(list, removed), id) ==> RR.HasId(list, id)
  {
    FilterMembers(list, (x: RR.Entry) => x.id != removed);
    if i :| 0 <= i < |RR.Without(list, removed)| && RR.Without(list, removed)[i].id == id {
      assert RR.Without(list, removed)[i] in list;
    }
  }

  lemma ListedWasPending(seed: seq<RR.Entry>, reg: RR.State, reg': RR.State, t: nat, b: Option<RR.Step>, id: nat)
    requires match b
             case Some(b) => RR.Enabled(reg, t, b) && RR.InBounds(reg, t) && reg' == RR.Do(reg, t, b)
             case None => reg' == reg
    requires !RR.HasId(RR.Replay(seed, reg.history), id) && RR.HasId(RR.Replay(seed, reg'.history), id)
    ensures exists e :: RR.Pending(reg.Pc(t), e) && e.id == id
  {
    if b.Some? {
      RR.StepBrings(reg, t, b.value);
      var cur := RR.Replay(seed, reg.history);
      var e := reg'.history[|reg.history|];
      assert reg'.history == reg.history + [e];
      RR.ReplayOne(seed, reg.history, e);
      if e.Removed? {
        RemovalAddsNone(cur, e.id, id);
      }
    }
  }

  // ---------------------------------------------------------------- the registry among all this

  // With flags stored and scans running, the registry is still linearizable.
  lemma Linearizable(seed: seq<RR.Entry>, nextId: nat, healthy: set<nat>, run: seq<Scheduled>)
    requires RR.Seed(seed, nextId) && Legal(Seeded(seed, nextId, healthy), run)
    ensures var s := Run(Seeded(seed, nextId, healthy), run).reg;
            && RR.SequentialHistory(seed, s.history)
            && RR.InHeap(s, s.list) && s.Cells(s.list) == RR.Wrap(RR.Replay(seed, s.history))
            && RR.DistinctIds(RR.Replay(seed, s.history))
            && (RR.DistinctUrls(seed) ==> RR.DistinctUrls(RR.Replay(seed, s.history)))
  {
    RunsTheRegistry(Seeded(seed, nextId, healthy), run);
    RR.Linearizable(seed, nextId, RegistrySteps(run));
  }

  // A list once loaded, to be returned, scanned or searched, never changes.
  lemma SnapshotsNeverChange(
      seed: seq<RR.Entry>, nextId: nat, healthy: set<nat>, past: seq<Scheduled>, run: seq<Scheduled>, x: RR.Slice)
    requires RR.Seed(seed, nextId) && Legal(Seeded(seed, nextId, healthy), past)
    requires Legal(Run(Seeded(seed, nextId, healthy), past), run)
    requires x in Run(Seeded(seed, nextId, healthy), past).reg.handedOut
    ensures var s := Run(Seeded(seed, nextId, healthy), past);
            var s' := Run(s, run);
            x.at < |s.reg.heap| && x.at < |s'.reg.heap| && s'.reg.heap[x.at] == s.reg.heap[x.at]
  {
    RunsTheRegistry(Seeded(seed, nextId, healthy), past);
    RunsTheRegistry(Run(Seeded(seed, nextId, healthy), past), run);
    RR.SnapshotsNeverChange(seed, nextId, RegistrySteps(past), RegistrySteps(run), x);
  }

  // No step that is due indexes out of range or follows a nil.
  lemma NoPanic(seed: seq<RR.Entry>, nextId: nat, healthy: set<nat>, run: seq<Scheduled>, t: nat)
    requires RR.Seed(seed, nextId) && AllWeighed(seed) && Legal(Seeded(seed, nextId, healthy), run)
    ensures InBounds(Run(Seeded(seed, nextId, healthy), run), t)
  {
    SeededInv(seed, nextId, healthy);
    RunKeepsInv(seed, Seeded(seed, nextId, healthy), run);
    NeverOutOfBounds(seed, Run(Seeded(seed, nextId, healthy), run), t);
  }

  // ---------------------------------------------------------------- what SetHealthy does

  lemma CreatedIsUnlisted(seed: seq<RR.Entry>, reg: RR.State)
    requires RR.Inv(seed, reg)
    ensures !RR.HasId(Contents(reg), reg.nextId)
  {
    ContentsIsReplay(seed, reg);
  }

  // Once listed, a backend's flag moves only when a SetHealthy call stores it.
  lemma FlagsMoveBySetHealthy(seed: seq<RR.Entry>, s: State, t: nat, a: Step, id: nat)
    requires Reached(seed, s) && Enabled(s, t, a) && InBounds(s, t)
    requires RR.HasId(Contents(s.reg), id) && Do(s, t, a).Flag(id) != s.Flag(id)
    ensures a.SetStore? && id == s.Job(t).id
  {
    ReachedOk(seed, s);
    CreatedIsUnlisted(seed, s.reg);
  }

  // t's SetHealthy call for `id` and `v`, which loaded its list at moment `since`, is
  // still going on.
  ghost predicate Setting(s: State, t: nat, id: nat, v: bool, since: nat) {
    match s.Job(t)
    case Seeking(id', v', _, since', _) => id' == id && v' == v && since' == since
    case Storing(id', v', since') => id' == id && v' == v && since' == since
    case _ => true
  }

  lemma {:induction false} RunKeepsSetting(s: State, run: seq<Scheduled>, t: nat, id: nat, v: bool, since: nat)
    requires Legal(s, run) && Setting(s, t, id, v, since)
    requires forall i | 0 <= i < |run| :: run[i].0 == t ==> !run[i].1.SetLoad?
    ensures Setting(Run(s, run), t, id, v, since)
    decreases |run|
  {
    if run != [] {
      RunKeepsSetting(Do(s, run[0].0, run[0].1), run[1..], t, id, v, since);
    }
  }

  // The steps between the load of t's SetHealthy call, in state s, and a later state.
  ghost predicate SetCall(s: State, t: nat, id: nat, v: bool, rest: seq<Scheduled>) {
    && Enabled(s, t, SetLoad(id, v)) && InBounds(s, t)
    && Legal(Do(s, t, SetLoad(id, v)), rest)
    && forall i | 0 <= i < |rest| :: rest[i].0 == t ==> !rest[i].1.SetLoad?
  }

  // SetHealthy(id, v) stores v in the flag of that backend and leaves all others, if
  // the list it loaded has the backend; else it gives up. So it finds the backend
  // exactly when the list, at that moment of the call, has it.
  lemma SetHealthyCall(seed: seq<RR.Entry>, s: State, t: nat, id: nat, v: bool, rest: seq<Scheduled>)
    requires Reached(seed, s) && SetCall(s, t, id, v, rest)
    ensures var end := Run(Do(s, t, SetLoad(id, v)), rest);
            && InBounds(end, t)
            && (Enabled(end, t, SetStore) ==>
                  && RR.HasId(Contents(s.reg), id)
                  && forall x: nat :: Do(end, t, SetStore).Flag(x) == if x == id then v else end.Flag(x))
            && (Enabled(end, t, SetSeek) && Do(end, t, SetSeek).Job(t).Idle? ==> !RR.HasId(Contents(s.reg), id))
  {
    var loaded := Do(s, t, SetLoad(id, v));
    var end := Run(loaded, rest);
    SetCallKeepsJob(seed, s, t, id, v, rest);
    SetHealthyFinds(end, t);
  }

  lemma SetCallKeepsJob(seed: seq<RR.Entry>, s: State, t: nat, id: nat, v: bool, rest: seq<Scheduled>)
    requires Reached(seed, s) && SetCall(s, t, id, v, rest)
    ensures var end := Run(Do(s, t, SetLoad(id, v)), rest);
            && InBounds(end, t) && JobOk(end, end.Job(t)) && Setting(end, t, id, v, |s.moments|)
            && |s.moments| < |end.moments| && end.moments[|s.moments|].list == Contents(s.reg)
  {
    JobAfterStep(seed, s, t, SetLoad(id, v), rest);
    LoadedMoment(s, t, SetLoad(id, v), rest);
    RunKeepsSetting(Do(s, t, SetLoad(id, v)), rest, t, id, v, |s.moments|);
  }

  lemma SetHealthyFinds(s: State, t: nat)
    requires InBounds(s, t) && JobOk(s, s.Job(t))
    ensures Enabled(s, t, SetSeek) && Do(s, t, SetSeek).Job(t).Idle? ==>
              s.Job(t).since < |s.moments| && !RR.HasId(s.moments[s.Job(t).since].list, s.Job(t).id)
  {
    if s.Job(t).Seeking? {
      var list := s.moments[s.Job(t).since].list;
      assert |list| == |s.reg.Cells(s.Job(t).x)|;
      assert list[..|list|] == list;
    }
  }

  // ---------------------------------------------------------------- what a scan returns

  ghost predicate Subsequence(found: seq<RR.Entry>, list: seq<RR.Entry>) {
    exists at: seq<nat> :: InOrder(list, found, at)
  }

  // From moment `since` up to now.
  ghost predicate WasHealthy(s: State, since: nat, id: nat) {
    exists m | since <= m < |s.moments| :: id in s.moments[m].healthy
  }

  ghost predicate StayedHealthy(s: State, since: nat, id: nat) {
    forall m | since <= m < |s.moments| :: id in s.moments[m].healthy
  }

  // The positions at which a scan finds the flag set.
  function SetPositions(moments: seq<Moment>, list: seq<RR.Entry>, seen: seq<nat>): (at: seq<nat>)
    requires |seen| <= |list| && forall i | 0 <= i < |seen| :: seen[i] < |moments|
    ensures forall i: nat :: i in at <==> i < |seen| && list[i].id in moments[seen[i]].healthy
  {
    if seen == [] then []
    else
      var i := |seen| - 1;
      SetPositions(moments, list, seen[..i]) + if list[i].id in moments[seen[i]].healthy then [i] else []
  }

  lemma {:induction false} SampleInOrder(moments: seq<Moment>, list: seq<RR.Entry>, seen: seq<nat>)
    requires |seen| <= |list| && forall i | 0 <= i < |seen| :: seen[i] < |moments|
    ensures InOrder(list, Sample(moments, list, seen), SetPositions(moments, list, seen))
  {
    if seen != [] {
      var i := |seen| - 1;
      SampleInOrder(moments, list, seen[..i]);
      var at := SetPositions(moments, list, seen[..i]);
      forall j | 0 <= j < |at|
        ensures at[j] < i
      {
        assert at[j] in at;
      }
    }
  }

  // t's ListHealthyBackends call, from the load in state s to its end.
  ghost predicate ScanCall(s: State, t: nat, rest: seq<Scheduled>) {
    && Enabled(s, t, ScanLoad) && InBounds(s, t)
    && Legal(Do(s, t, ScanLoad), rest)
    && (forall i | 0 <= i < |rest| :: rest[i].0 == t ==> !rest[i].1.ScanLoad?)
    && Run(Do(s, t, ScanLoad), rest).Job(t).Done()
  }

  function AfterScan(s: State, t: nat, rest: seq<Scheduled>): State
    requires ScanCall(s, t, rest)
  {
    Run(Do(s, t, ScanLoad), rest)
  }

  lemma {:induction false} RunKeepsSince(s: State, run: seq<Scheduled>, t: nat, since: nat)
    requires Legal(s, run) && (s.Job(t).Scanning? ==> s.Job(t).since == since)
    requires forall i | 0 <= i < |run| :: run[i].0 == t ==> !run[i].1.ScanLoad?
    ensures Run(s, run).Job(t).Scanning? ==> Run(s, run).Job(t).since == since
    decreases |run|
  {
    if run != [] {
      RunKeepsSince(Do(s, run[0].0, run[0].1), run[1..], t, since);
    }
  }

  // What ListHealthyBackends returns while lists and flags keep changing. It is a
  // subsequence, in registration order, of the list that was current when the call
  // loaded it; each of its members was healthy at some moment of the call; and each
  // backend of that list that stayed healthy throughout the call is among them.
  lemma HealthyScan(seed: seq<RR.Entry>, s: State, t: nat, rest: seq<Scheduled>)
    requires Reached(seed, s) && ScanCall(s, t, rest)
    ensures var end, list := AfterScan(s, t, rest), Contents(s.reg);
            var found := end.Job(t).found;
            && Subsequence(found, list)
            && (forall b | b in found :: WasHealthy(end, |s.moments|, b.id))
            && (forall b | b in list && StayedHealthy(end, |s.moments|, b.id) :: b in found)
            && AllWeighed(list)
  {
    var end := AfterScan(s, t, rest);
    JobAfterStep(seed, s, t, ScanLoad, rest);
    LoadedMoment(s, t, ScanLoad, rest);
    RunKeepsSince(Do(s, t, ScanLoad), rest, t, |s.moments|);
    ScanResult(end, end.Job(t));
    ContentsAreWeighed(seed, s);
  }

  lemma ContentsAreWeighed(seed: seq<RR.Entry>, s: State)
    requires Reached(seed, s)
    ensures AllWeighed(Contents(s.reg))
  {
    ReachedOk(seed, s);
    ContentsIsReplay(seed, s.reg);
    ReplayWeighs(seed, s.reg.history);
  }

  lemma ScanResult(s: State, job: Job)
    requires JobOk(s, job) && job.Done()
    ensures var Scanning(_, since, _, found) := job;
            && Subsequence(found, s.moments[since].list)
            && (forall b | b in found :: WasHealthy(s, since, b.id))
            && (forall b | b in s.moments[since].list && StayedHealthy(s, since, b.id) :: b in found)
  {
    var Scanning(x, since, seen, found) := job;
    var list := s.moments[since].list;
    assert |list| == |s.reg.Cells(x)| == |seen|;
    SampleInOrder(s.moments, list, seen);
    var at := SetPositions(s.moments, list, seen);
    forall b | b in found
      ensures WasHealthy(s, since, b.id)
    {
      var j :| 0 <= j < |found| && found[j] == b;
      assert at[j] in at;
      assert b.id in s.moments[seen[at[j]]].healthy;
    }
    forall b | b in list && StayedHealthy(s, since, b.id)
      ensures b in found
    {
      var i :| 0 <= i < |list| && list[i] == b;
      assert b.id in s.moments[seen[i]].healthy && i in at;
      var j :| 0 <= j < |at| && at[j] == i;
      assert found[j] == b;
    }
  }

  // When no flag moves during the scan, it is the healthy part of the list.
  lemma {:induction false} QuietScan(moments: seq<Moment>, list: seq<RR.Entry>, seen: seq<nat>, up: set<nat>)
    requires |seen| <= |list| && forall i | 0 <= i < |seen| :: seen[i] < |moments| && moments[seen[i]].healthy == up
    ensures Sample(moments, list, seen) == Filter(list[..|seen|], (b: RR.Entry) => b.id in up)
  {
    if seen != [] {
      var i := |seen| - 1;
      QuietScan(moments, list, seen[..i], up);
      assert list[..i + 1][..i] == list[..i];
    }
  }

  // ---------------------------------------------------------------- what the selectors make of it

  function WeightsIn(list: seq<RR.Entry>): (ws: seq<nat>)
    ensures |ws| == |list| && forall i | 0 <= i < |list| :: ws[i] == list[i].weight
  {
    seq(|list|, i requires 0 <= i < |list| => list[i].weight)
  }

  // The random selector, with any number below the total weight drawn.
  function Drawn(found: seq<RR.Entry>, draw: nat -> nat): Option<RR.Entry>
    requires found != [] ==> draw(Sum(WeightsIn(found))) < Sum(WeightsIn(found))
  {
    if found == [] then None
    else
      var ws := WeightsIn(found);
      Some(found[WB.Band(ws, draw(Sum(ws)))])
  }

  // The hash selector.
  function Hashed(found: seq<RR.Entry>, h: nat): Option<RR.Entry>
    requires found != [] ==> Sum(WeightsIn(found)) > 0
  {
    if found == [] then None else Some(found[WB.HashPick(WeightsIn(found), h)])
  }

  // The least-connections selector. The counters move while the minimum is sought, so
  // backend i looks less loaded than the running minimum m, or not, at the moment the
  // two are compared.
  function LeastLoaded(found: seq<RR.Entry>, less: (nat, nat) -> bool): Option<RR.Entry> {
    if found == [] then None else Some(found[RunningMin(|found|, less)])
  }

  function RunningMin(n: nat, less: (nat, nat) -> bool): (k: nat)
    requires n > 0
    ensures k < n && forall i | k < i < n :: !less(i, k)
  {
    if n == 1 then 0
    else
      var m := RunningMin(n - 1, less);
      if less(n - 1, m) then n - 1 else m
  }

  // Nothing between m and n looks less loaded than m.
  ghost predicate HoldsUntil(less: (nat, nat) -> bool, m: nat, n: nat) {
    m < n && forall x: nat | m < x < n :: !less(x, m)
  }

  // How the running minimum moves: from the first backend, and from each to the next
  // that looks less loaded than it.
  ghost predicate RunsDown(n: nat, less: (nat, nat) -> bool, chain: seq<nat>) {
    && chain != [] && chain[0] == 0
    && (forall j | 0 < j < |chain| :: less(chain[j], chain[j - 1]) && HoldsUntil(less, chain[j - 1], chain[j]))
    && HoldsUntil(less, chain[|chain| - 1], n)
  }

  lemma {:induction false} MinimumRunsDown(n: nat, less: (nat, nat) -> bool) returns (chain: seq<nat>)
    requires n > 0
    ensures RunsDown(n, less, chain) && chain[|chain| - 1] == RunningMin(n, less)
  {
    if n == 1 {
      chain := [0];
    } else {
      chain := MinimumRunsDown(n - 1, less);
      if less(n - 1, RunningMin(n - 1, less)) {
        chain := chain + [n - 1];
      }
    }
  }

  // The selected entry is where the running minimum ends.
  ghost predicate EndsDown(found: seq<RR.Entry>, less: (nat, nat) -> bool, r: Option<RR.Entry>) {
    exists chain :: RunsDown(|found|, less, chain) && chain[|chain| - 1] < |found| && r == Some(found[chain[|chain| - 1]])
  }

  lemma LeastLoadedEndsDown(found: seq<RR.Entry>, less: (nat, nat) -> bool)
    requires found != []
    ensures EndsDown(found, less, LeastLoaded(found, less))
  {
    var chain := MinimumRunsDown(|found|, less);
  }

  // With counters that stand still this is the selector's own minimum.
  lemma {:induction false} RunningMinIsMinIndex(loads: seq<LC.Load>, less: (nat, nat) -> bool)
    requires loads != []
    requires forall i, m | 0 <= i < |loads| && 0 <= m < |loads| :: less(i, m) <==> LC.Compare(loads[i], loads[m]) < 0
    ensures RunningMin(|loads|, less) == LC.MinIndex(loads)
  {
    if |loads| > 1 {
      RunningMinIsMinIndex(loads[..|loads| - 1], less);
    }
  }

  // The answer r of a call that loaded `list` at moment `since`.
  ghost predicate GoodAnswer(s: State, since: nat, list: seq<RR.Entry>, r: Option<RR.Entry>) {
    && (r.Some? ==> r.value in list && WasHealthy(s, since, r.value.id))
    && ((exists b | b in list :: StayedHealthy(s, since, b.id)) ==> r.Some?)
  }

  // Entry r stands in `found` where the number `pick` falls into its band.
  ghost predicate InBandOf(found: seq<RR.Entry>, pick: nat, r: Option<RR.Entry>) {
    exists k :: 0 <= k < |found| && r == Some(found[k]) && WB.InBand(WeightsIn(found), k, pick)
  }

  lemma PickIsInBand(found: seq<RR.Entry>, pick: nat)
    requires pick < Sum(WeightsIn(found))
    ensures InBandOf(found, pick, Some(found[WB.Band(WeightsIn(found), pick)]))
  {
    WB.BandIff(WeightsIn(found), pick, WB.Band(WeightsIn(found), pick));
  }

  // Whatever happens meanwhile, these selectors return a backend that was listed and,
  // at some moment of the call, healthy; and they do not refuse while one backend of
  // the list they loaded stays healthy throughout. Among the backends they have found,
  // the two weighted ones take the one whose band the draw or the hash falls into, and
  // least-connections the one at which the running minimum ends.
  lemma SelectorsDuringChange(
      seed: seq<RR.Entry>, s: State, t: nat, rest: seq<Scheduled>, draw: nat -> nat, h: nat, less: (nat, nat) -> bool)
    requires Reached(seed, s) && ScanCall(s, t, rest)
    requires forall n: nat | n > 0 :: draw(n) < n
    ensures var end, list := AfterScan(s, t, rest), Contents(s.reg);
            var found := end.Job(t).found;
            var total := Sum(WeightsIn(found));
            && (found != [] ==> total > 0)
            && GoodAnswer(end, |s.moments|, list, Drawn(found, draw))
            && GoodAnswer(end, |s.moments|, list, Hashed(found, h))
            && GoodAnswer(end, |s.moments|, list, LeastLoaded(found, less))
            && (found != [] ==>
                  && InBandOf(found, draw(total), Drawn(found, draw))
                  && InBandOf(found, h % total, Hashed(found, h))
                  && EndsDown(found, less, LeastLoaded(found, less)))
  {
    HealthyScan(seed, s, t, rest);
    var end, list := AfterScan(s, t, rest), Contents(s.reg);
    var found := end.Job(t).found;
    FoundIsListed(found, list);
    WB.SumBound(WeightsIn(found));
    if found != [] {
      PickIsInBand(found, draw(Sum(WeightsIn(found))));
      PickIsInBand(found, h % Sum(WeightsIn(found)));
      LeastLoadedEndsDown(found, less);
    }
  }

  lemma FoundIsListed(found: seq<RR.Entry>, list: seq<RR.Entry>)
    requires Subsequence(found, list) && AllWeighed(list)
    ensures AllWeighed(found) && forall b | b in found :: b in list
  {
    var at :| InOrder(list, found, at);
    forall j | 0 <= j < |found|
      ensures found[j] in list && WeightOk(found[j].weight)
    {
      assert found[j] == list[at[j]];
    }
  }

  // ---------------------------------------------------------------- progress

  lemma {:induction false} ScanGoesOn(seed: seq<RR.Entry>, s: State, t: nat) returns (run: seq<Scheduled>)
    requires AllWeighed(seed) && Inv(seed, s) && s.Job(t).Scanning?
    ensures Legal(s, run) && Run(s, run).Job(t).Done()
    ensures forall i | 0 <= i < |run| :: run[i] == (t, ScanNext)
    decreases s.Job(t).x.len - |s.Job(t).seen|
  {
    assert JobOk(s, s.Job(t));
    run := [];
    if !s.Job(t).Done() {
      StepKeepsInv(seed, s, t, ScanNext);
      var rest := ScanGoesOn(seed, Do(s, t, ScanNext), t);
      run := [(t, ScanNext)] + rest;
      assert run[1..] == rest;
    }
  }

  // A healthy-list call can always be made and finished without anyone else's help.
  lemma ScanFinishes(seed: seq<RR.Entry>, s: State, t: nat) returns (rest: seq<Scheduled>)
    requires Reached(seed, s) && s.Job(t).Idle?
    ensures ScanCall(s, t, rest)
  {
    ReachedOk(seed, s);
    StepKeepsInv(seed, s, t, ScanLoad);
    rest := ScanGoesOn(seed, Do(s, t, ScanLoad), t);
  }
}
