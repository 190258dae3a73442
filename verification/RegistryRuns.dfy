// The registry under concurrency: writers and lock-free readers interleaved between
// every lock, load, in-place write, store and unlock. Backing arrays live in a heap
// that any holder of a slice could write to, and nothing but the code keeps a writer
// off an array that a reader holds.
module RegistryRuns {
  import opened Lists
  import opened Wrappers

  datatype Entry = Entry(id: nat, url: string, weight: nat)

  // An array cell holds a backend or nil.
  type Cell = Option<Entry>

  datatype Slice = Slice(at: nat, len: nat)

  datatype Op = Add(url: string, weight: nat) | Remove(id: nat)

  // What happened, at the moment it took effect.
  datatype Event =
    | Added(e: Entry)
    | AddRefused(url: string)
    | Removed(id: nat)
    | RemoveRefused(id: nat)
    | Listed(contents: seq<Entry>)

  // Where a writer stands.
  datatype Pc =
    | Outside
    | Waiting(op: Op)                                // called, about to lock
    | Locked(op: Op)                                 // about to load the list and check it
    | Checked(op: Op, cur: Slice)                    // may go ahead, having looked at `cur`; about to clone
    | Appending(e: Entry, buf: Slice)                // clone made, backend created
    | Deleting(id: nat, buf: Slice, i: nat, j: nat)  // the loop of DeleteFunc
    | Clearing(id: nat, buf: Slice, i: nat, k: nat)  // clear(s[i:])
    | Built(what: Event, buf: Slice)                 // about to store
    | Finished(what: Event)                          // about to unlock and return

  // A call, how much had happened when it was made, and which event it became.
  datatype Call = Call(op: Op, since: nat, at: Option<nat>)

  datatype State = State(
    heap: seq<seq<Cell>>,
    list: Slice,                // the atomic pointer
    holder: Option<nat>,        // the mutex
    pcs: map<nat, Pc>,
    nextId: nat,
    handedOut: set<Slice>,      // every slice a reader was ever given
    history: seq<Event>,
    calls: map<nat, Call>)      // each goroutine's latest call
  {
    function Pc(t: nat): Pc { if t in pcs then pcs[t] else Outside }

    function Cells(s: Slice): seq<Cell>
      requires s.at < |heap| && s.len <= |heap[s.at]|
    {
      heap[s.at][..s.len]
    }
  }

  predicate InHeap(s: State, x: Slice) {
    x.at < |s.heap| && x.len <= |s.heap[x.at]|
  }

  function Wrap(entries: seq<Entry>): (cells: seq<Cell>)
    ensures |cells| == |entries| && forall i | 0 <= i < |entries| :: cells[i] == Some(entries[i])
  {
    seq(|entries|, i requires 0 <= i < |entries| => Some(entries[i]))
  }

  predicate NoNil(cells: seq<Cell>) {
    forall i | 0 <= i < |cells| :: cells[i].Some?
  }

  // The entries behind the pointers; following a nil is a panic.
  function Unwrap(cells: seq<Cell>): (entries: seq<Entry>)
    requires NoNil(cells)
    ensures |entries| == |cells| && forall i | 0 <= i < |cells| :: entries[i] == cells[i].value
  {
    seq(|cells|, i requires 0 <= i < |cells| && NoNil(cells) => cells[i].value)
  }

  function Nils(k: nat): seq<Cell> {
    seq(k, i => None)
  }

  predicate HasId(list: seq<Entry>, id: nat) {
    exists i | 0 <= i < |list| :: list[i].id == id
  }

  predicate HasUrl(list: seq<Entry>, url: string) {
    exists i | 0 <= i < |list| :: list[i].url == url
  }

  function Without(list: seq<Entry>, id: nat): seq<Entry> {
    Filter(list, (e: Entry) => e.id != id)
  }

  // ---------------------------------------------------------------- the sequential registry

  // What one event makes of the list, and when a registry used by one caller at a
  // time would let it happen.
  function Apply(list: seq<Entry>, e: Event): seq<Entry> {
    match e
    case Added(x) => list + [x]
    case Removed(id) => Without(list, id)
    case _ => list
  }

  predicate Sequential(list: seq<Entry>, e: Event) {
    match e
    case Added(x) => forall y | y in list :: y.url != x.url && y.id != x.id
    case AddRefused(url) => exists y | y in list :: y.url == url
    case Removed(id) => exists y | y in list :: y.id == id
    case RemoveRefused(id) => forall y | y in list :: y.id != id
    case Listed(contents) => contents == list
  }

  function Replay(seed: seq<Entry>, history: seq<Event>): seq<Entry> {
    if history == [] then seed
    else Apply(Replay(seed, history[..|history| - 1]), history[|history| - 1])
  }

  predicate SequentialHistory(seed: seq<Entry>, history: seq<Event>) {
    history == [] ||
    var init := history[..|history| - 1];
    SequentialHistory(seed, init) && Sequential(Replay(seed, init), history[|history| - 1])
  }

  // ---------------------------------------------------------------- the steps

  datatype Step =
    | Invoke(op: Op)
    | Lock
    | Check
    | Clone(spare: nat)      // with the allocator's spare capacity
    | Append(spare: nat)
    | Delete
    | Clear
    | Store
    | Unlock
    | Read                   // any goroutine, at any time

  predicate Enabled(s: State, t: nat, a: Step) {
    match a
    case Invoke(_) => s.Pc(t).Outside?
    case Lock => s.Pc(t).Waiting? && s.holder.None?
    case Check => s.Pc(t).Locked?
    case Clone(_) => s.Pc(t).Checked?
    case Append(_) => s.Pc(t).Appending?
    case Delete => s.Pc(t).Deleting?
    case Clear => s.Pc(t).Clearing?
    case Store => s.Pc(t).Built?
    case Unlock => s.Pc(t).Finished?
    case Read => true
  }

  // No slice the code uses leaves the heap and no pointer it follows is nil: the steps
  // only run while that is so.
  predicate InBounds(s: State, t: nat) {
    && InHeap(s, s.list) && NoNil(s.Cells(s.list))
    && match s.Pc(t)
       case Checked(_, cur) => InHeap(s, cur)
       case Appending(_, buf) => InHeap(s, buf)
       case Deleting(_, buf, i, j) => 
         && InHeap(s, buf) && i <= j <= buf.len && i < buf.len
         && (j < buf.len ==> s.heap[buf.at][j].Some?)
       case Clearing(_, buf, i, k) => InHeap(s, buf) && i <= k <= buf.len
       case Built(_, buf) => InHeap(s, buf)
       case _ => true
  }

  function At(s: State, t: nat, pc: Pc): State {
    s.(pcs := s.pcs[t := pc])
  }

  // The call of t takes effect as `e`.
  function Happens(s: State, t: nat, e: Event): State {
    s.(pcs := s.pcs[t := Finished(e)],
       history := s.history + [e],
       calls := if t in s.calls then s.calls[t := s.calls[t].(at := Some(|s.history|))] else s.calls)
  }

  function WriteCell(s: State, at: nat, i: nat, c: Cell): State
    requires at < |s.heap| && i < |s.heap[at]|
  {
    s.(heap := s.heap[at := s.heap[at][i := c]])
  }

  function Do(s: State, t: nat, a: Step): State
    requires Enabled(s, t, a) && InBounds(s, t)
  {
    match a
    case Invoke(op) => At(s, t, Waiting(op)).(calls := s.calls[t := Call(op, |s.history|, None)])
    case Lock => At(s, t, Locked(s.Pc(t).op)).(holder := Some(t))
    case Check => DoCheck(s, t)
    case Clone(spare) => DoClone(s, t, spare)
    case Append(spare) => DoAppend(s, t, spare)
    case Delete => DoDelete(s, t)
    case Clear => DoClear(s, t)
    case Store =>
      var Built(what, buf) := s.Pc(t);
      Happens(s, t, what).(list := buf)
    case Unlock => At(s, t, Outside).(holder := None)
    case Read =>
      s.(handedOut := s.handedOut + {s.list}, history := s.history + [Listed(Unwrap(s.Cells(s.list)))])
  }

  function DoCheck(s: State, t: nat): State
    requires s.Pc(t).Locked? && InBounds(s, t)
  {
    var cur := Unwrap(s.Cells(s.list));
    match s.Pc(t).op
    case Add(url, _) =>
      if HasUrl(cur, url) then Happens(s, t, AddRefused(url))
      else At(s, t, Checked(s.Pc(t).op, s.list))
    case Remove(id) =>
      if HasId(cur, id) then At(s, t, Checked(s.Pc(t).op, s.list))
      else Happens(s, t, RemoveRefused(id))
  }

  // slices.Clone: an Add creates its backend and copies the list it has checked, a
  // Remove loads the list again and starts its sweep at the first match.
  function DoClone(s: State, t: nat, spare: nat): State
    requires s.Pc(t).Checked? && InBounds(s, t)
  {
    var from := if s.Pc(t).op.Add? then s.Pc(t).cur else s.list;
    var buf := Slice(|s.heap|, from.len);
    var s' := s.(heap := s.heap + [s.Cells(from) + Nils(spare)]);
    match s.Pc(t).op
    case Add(url, w) => At(s', t, Appending(Entry(s.nextId, url, w), buf)).(nextId := s.nextId + 1)
    case Remove(id) =>
      var i := IndexOf(Unwrap(s.Cells(s.list)), id);
      if i < buf.len then At(s', t, Deleting(id, buf, i, i + 1)) else At(s', t, Built(Removed(id), buf))
  }

  // slices.IndexFunc, the length when there is none.
  function IndexOf(list: seq<Entry>, id: nat): (i: nat)
    ensures i <= |list| && (i < |list| <==> HasId(list, id))
    ensures forall k | 0 <= k < i :: list[k].id != id
    ensures i < |list| ==> list[i].id == id
  {
    if list == [] then 0
    else if list[0].id == id then 0
    else
      assert forall k | 0 <= k < |list| - 1 :: list[1..][k] == list[k + 1];
      1 + IndexOf(list[1..], id)
  }

  // append: in place while there is capacity, else into a bigger array.
  function DoAppend(s: State, t: nat, spare: nat): State
    requires s.Pc(t).Appending? && InHeap(s, s.Pc(t).buf)
  {
    var Appending(e, buf) := s.Pc(t);
    if buf.len < |s.heap[buf.at]| then
      At(WriteCell(s, buf.at, buf.len, Some(e)), t, Built(Added(e), Slice(buf.at, buf.len + 1)))
    else
      At(s.(heap := s.heap + [s.Cells(buf) + [Some(e)] + Nils(spare)]), t,
         Built(Added(e), Slice(|s.heap|, buf.len + 1)))
  }

  // One iteration of the loop of DeleteFunc, which moves survivors left in place.
  function DoDelete(s: State, t: nat): State
    requires s.Pc(t).Deleting? && InBounds(s, t)
  {
    var Deleting(id, buf, i, j) := s.Pc(t);
    if j == buf.len then At(s, t, Clearing(id, buf, i, i))
    else
      var v := s.heap[buf.at][j];
      if v.value.id != id then At(WriteCell(s, buf.at, i, v), t, Deleting(id, buf, i + 1, j + 1))
      else At(s, t, Deleting(id, buf, i, j + 1))
  }

  function DoClear(s: State, t: nat): State
    requires s.Pc(t).Clearing? && InBounds(s, t)
  {
    var Clearing(id, buf, i, k) := s.Pc(t);
    if k == buf.len then At(s, t, Built(Removed(id), Slice(buf.at, i)))
    else At(WriteCell(s, buf.at, k, None), t, Clearing(id, buf, i, k + 1))
  }

  // A scheduled step: which goroutine, and what it does.
  type Scheduled = (nat, Step)

  predicate Legal(s: State, run: seq<Scheduled>)
    decreases |run|
  {
    run == [] ||
    (Enabled(s, run[0].0, run[0].1) && InBounds(s, run[0].0) && Legal(Do(s, run[0].0, run[0].1), run[1..]))
  }

  function Run(s: State, run: seq<Scheduled>): State
    requires Legal(s, run)
    decreases |run|
  {
    if run == [] then s else Run(Do(s, run[0].0, run[0].1), run[1..])
  }

  // NewRegistry on the configured backends.
  function Seeded(seed: seq<Entry>, nextId: nat): State {
    State([Wrap(seed)], Slice(0, |seed|), None, map[], nextId, {}, [], map[])
  }

  // ---------------------------------------------------------------- the invariant

  ghost predicate DistinctIds(list: seq<Entry>) {
    forall i, j | 0 <= i < j < |list| :: list[i].id != list[j].id
  }

  ghost predicate DistinctUrls(list: seq<Entry>) {
    forall i, j | 0 <= i < j < |list| :: list[i].url != list[j].url
  }

  ghost predicate IdsBelow(list: seq<Entry>, next: nat) {
    forall i | 0 <= i < |list| :: list[i].id < next
  }

  predicate InsideLock(pc: Pc) {
    !pc.Outside? && !pc.Waiting?
  }

  // A buffer that no reader holds and the registry does not point to.
  ghost predicate Private(s: State, buf: Slice) {
    InHeap(s, buf) && buf.at != s.list.at && forall x | x in s.handedOut :: x.at != buf.at
  }

  // What the writer inside the lock has established about the current list.
  ghost predicate WriterOk(s: State, pc: Pc, cur: seq<Entry>) {
    match pc
    case Outside => false
    case Waiting(_) => false
    case Locked(_) => true
    case Checked(op, loaded) =>
      loaded == s.list &&
      (match op case Add(url, _) => !HasUrl(cur, url) case Remove(id) => HasId(cur, id))
    case Appending(e, buf) =>
      && Private(s, buf) && s.Cells(buf) == Wrap(cur)
      && Sequential(cur, Added(e)) && e.id < s.nextId
    case Deleting(id, buf, i, j) =>
      && Private(s, buf) && HasId(cur, id)
      && i < j <= buf.len == |cur|
      && s.heap[buf.at][..i] == Wrap(Without(cur[..j], id))
      && s.heap[buf.at][j..buf.len] == Wrap(cur[j..])
    case Clearing(id, buf, i, k) =>
      && Private(s, buf) && HasId(cur, id)
      && i <= k <= buf.len
      && s.heap[buf.at][..i] == Wrap(Without(cur, id))
    case Built(what, buf) =>
      && Private(s, buf) && (what.Added? || what.Removed?)
      && Sequential(cur, what) && (what.Added? ==> what.e.id < s.nextId)
      && s.Cells(buf) == Wrap(Apply(cur, what))
    case Finished(_) => true
  }

  // The list and its history.
  ghost predicate ListOk(seed: seq<Entry>, s: State) {
    var cur := Replay(seed, s.history);
    && InHeap(s, s.list) && s.Cells(s.list) == Wrap(cur)
    && SequentialHistory(seed, s.history)
    && DistinctIds(cur) && IdsBelow(cur, s.nextId)
    && (DistinctUrls(seed) ==> DistinctUrls(cur))
  }

  // The readers and the lock.
  ghost predicate LockOk(s: State) {
    && (forall x | x in s.handedOut :: InHeap(s, x))
    && (forall t: nat :: InsideLock(s.Pc(t)) ==> s.holder == Some(t))
  }

  ghost predicate Inv(seed: seq<Entry>, s: State) {
    && ListOk(seed, s)
    && LockOk(s)
    && (s.holder.Some? ==> WriterOk(s, s.Pc(s.holder.value), Replay(seed, s.history)))
  }

  lemma UnwrapWrap(list: seq<Entry>)
    ensures Unwrap(Wrap(list)) == list
  {
  }

  lemma ReplayOne(seed: seq<Entry>, history: seq<Event>, e: Event)
    ensures Replay(seed, history + [e]) == Apply(Replay(seed, history), e)
    ensures SequentialHistory(seed, history + [e]) <==>
            SequentialHistory(seed, history) && Sequential(Replay(seed, history), e)
  {
    assert (history + [e])[..|history|] == history;
  }

  lemma WithoutAbsent(list: seq<Entry>, id: nat)
    requires !HasId(list, id)
    ensures Without(list, id) == list
  {
    FilterAll(list, (e: Entry) => e.id != id);
  }

  // An event keeps the list's identities distinct and known.
  lemma ApplyKeepsList(list: seq<Entry>, e: Event, next: nat)
    requires Sequential(list, e) && DistinctIds(list) && IdsBelow(list, next)
    requires e.Added? ==> e.e.id < next
    ensures DistinctIds(Apply(list, e)) && IdsBelow(Apply(list, e), next)
    ensures DistinctUrls(list) ==> DistinctUrls(Apply(list, e))
  {
    if e.Removed? {
      var keep := (x: Entry) => x.id != e.id;
      FilterKeepsOrder(list, keep, (x: Entry, y: Entry) => x.id != y.id);
      if DistinctUrls(list) { FilterKeepsOrder(list, keep, (x: Entry, y: Entry) => x.url != y.url); }
      FilterMembers(list, keep);
      forall i | 0 <= i < |Apply(list, e)|
        ensures Apply(list, e)[i].id < next
      {
        assert Apply(list, e)[i] in list;
      }
    }
  }

  // No step that is due ever indexes out of bounds or follows a nil.
  lemma NeverOutOfBounds(seed: seq<Entry>, s: State, t: nat, a: Step)
    requires Inv(seed, s) && Enabled(s, t, a)
    ensures InBounds(s, t)
  {
    if InsideLock(s.Pc(t)) {
      assert s.holder == Some(t);
      match s.Pc(t)
      case Deleting(_, buf, _, j) =>
        assert j < buf.len ==> s.heap[buf.at][j] == s.heap[buf.at][j..buf.len][0];
      case _ =>
    }
  }

  // ---------------------------------------------------------------- every step keeps it

  // The arrays readers can see are as they were.
  ghost predicate Undisturbed(s: State, s': State) {
    && s.handedOut <= s'.handedOut
    && (forall x | x in s.handedOut && x.at < |s.heap| :: x.at < |s'.heap| && s'.heap[x.at] == s.heap[x.at])
    && (s.list.at < |s.heap| ==> s.list.at < |s'.heap| && s'.heap[s.list.at] == s.heap[s.list.at])
  }

  lemma HolderIsWriter(seed: seq<Entry>, s: State, t: nat)
    requires Inv(seed, s) && InsideLock(s.Pc(t))
    ensures s.holder == Some(t) && WriterOk(s, s.Pc(t), Replay(seed, s.history))
  {
  }

  // A step of the writer inside the lock that stores nothing.
  lemma PrivateStep(seed: seq<Entry>, s: State, s': State, t: nat, pc: Pc)
    requires Inv(seed, s) && InsideLock(s.Pc(t)) && InsideLock(pc)
    requires s' == At(s, t, pc).(heap := s'.heap, nextId := s'.nextId) && s'.nextId >= s.nextId
    requires Undisturbed(s, s')
    requires WriterOk(s', pc, Replay(seed, s.history))
    ensures Inv(seed, s')
  {
    assert s.holder == Some(t);
  }

  // A call that is refused takes effect at the check.
  lemma RefusalStep(seed: seq<Entry>, s: State, t: nat, e: Event)
    requires Inv(seed, s) && InsideLock(s.Pc(t))
    requires (e.AddRefused? || e.RemoveRefused?) && Sequential(Replay(seed, s.history), e)
    ensures Inv(seed, Happens(s, t, e))
  {
    assert s.holder == Some(t);
    ReplayOne(seed, s.history, e);
  }

  lemma CheckKeeps(seed: seq<Entry>, s: State, t: nat)
    requires Inv(seed, s) && Enabled(s, t, Check) && InBounds(s, t)
    ensures Inv(seed, Do(s, t, Check))
  {
    var cur := Replay(seed, s.history);
    var s' := Do(s, t, Check);
    UnwrapWrap(cur);
    if s'.Pc(t).Checked? {
      PrivateStep(seed, s, s', t, s'.Pc(t));
    } else {
      RefusalStep(seed, s, t, s'.Pc(t).what);
    }
  }

  // The delete loop starts at the first match, with nothing to the left to remove.
  lemma DeleteStarts(cells: seq<Cell>, cur: seq<Entry>, id: nat, i: nat)
    requires |cur| <= |cells| && cells[..|cur|] == Wrap(cur) && i < |cur|
    requires cur[i].id == id && !HasId(cur[..i], id)
    ensures cells[..i] == Wrap(Without(cur[..i + 1], id)) && cells[i + 1..|cur|] == Wrap(cur[i + 1..])
  {
    WithoutAbsent(cur[..i], id);
    assert cur[..i + 1][..i] == cur[..i];
    assert cells[..i] == cells[..|cur|][..i] == Wrap(cur[..i]);
    assert cells[i + 1..|cur|] == cells[..|cur|][i + 1..] == Wrap(cur[i + 1..]);
  }

  lemma CloneIsPrivate(seed: seq<Entry>, s: State, t: nat, spare: nat)
    requires Inv(seed, s) && Enabled(s, t, Clone(spare)) && InBounds(s, t)
    ensures var s', buf := Do(s, t, Clone(spare)), Slice(|s.heap|, s.list.len);
            Private(s', buf) && s'.Cells(buf) == Wrap(Replay(seed, s.history)) && Undisturbed(s, s')
  {
    var s', buf := Do(s, t, Clone(spare)), Slice(|s.heap|, s.list.len);
    assert s'.heap[buf.at][..buf.len] == s.Cells(s.list);
  }

  lemma CloneForAddKeeps(seed: seq<Entry>, s: State, t: nat, spare: nat)
    requires Inv(seed, s) && Enabled(s, t, Clone(spare)) && InBounds(s, t) && s.Pc(t).op.Add?
    ensures Inv(seed, Do(s, t, Clone(spare)))
  {
    var s' := Do(s, t, Clone(spare));
    assert s.holder == Some(t);
    CloneIsPrivate(seed, s, t, spare);
    PrivateStep(seed, s, s', t, s'.Pc(t));
  }

  lemma CloneForRemoveKeeps(seed: seq<Entry>, s: State, t: nat, spare: nat)
    requires Inv(seed, s) && Enabled(s, t, Clone(spare)) && InBounds(s, t) && s.Pc(t).op.Remove?
    ensures Inv(seed, Do(s, t, Clone(spare)))
  {
    var cur := Replay(seed, s.history);
    var s' := Do(s, t, Clone(spare));
    assert s.holder == Some(t);
    UnwrapWrap(cur);
    CloneIsPrivate(seed, s, t, spare);
    DeleteStarts(s'.heap[|s.heap|], cur, s.Pc(t).op.id, IndexOf(cur, s.Pc(t).op.id));
    PrivateStep(seed, s, s', t, s'.Pc(t));
  }

  lemma CloneKeeps(seed: seq<Entry>, s: State, t: nat, spare: nat)
    requires Inv(seed, s) && Enabled(s, t, Clone(spare)) && InBounds(s, t)
    ensures Inv(seed, Do(s, t, Clone(spare)))
  {
    if s.Pc(t).op.Add? {
      CloneForAddKeeps(seed, s, t, spare);
    } else {
      CloneForRemoveKeeps(seed, s, t, spare);
    }
  }

  lemma AppendWrites(s: State, t: nat, spare: nat, cur: seq<Entry>)
    requires Enabled(s, t, Append(spare)) && InBounds(s, t) && LockOk(s) && WriterOk(s, s.Pc(t), cur)
    ensures var s' := Do(s, t, Append(spare)); Undisturbed(s, s') && WriterOk(s', s'.Pc(t), cur)
  {
    var s' := Do(s, t, Append(spare));
    var Built(what, buf) := s'.Pc(t);
    assert s'.Cells(buf) == s.Cells(s.Pc(t).buf) + [Some(what.e)];
    assert Wrap(cur + [what.e]) == Wrap(cur) + [Some(what.e)];
  }

  lemma AppendKeeps(seed: seq<Entry>, s: State, t: nat, spare: nat)
    requires Inv(seed, s) && Enabled(s, t, Append(spare)) && InBounds(s, t)
    ensures Inv(seed, Do(s, t, Append(spare)))
  {
    HolderIsWriter(seed, s, t);
    AppendWrites(s, t, spare, Replay(seed, s.history));
    PrivateStep(seed, s, Do(s, t, Append(spare)), t, Do(s, t, Append(spare)).Pc(t));
  }

  // One iteration of the delete loop, on the cells alone.
  lemma DeleteShifts(cells: seq<Cell>, cur: seq<Entry>, id: nat, i: nat, j: nat)
    requires i < j < |cur| <= |cells|
    requires cells[..i] == Wrap(Without(cur[..j], id)) && cells[j..|cur|] == Wrap(cur[j..])
    ensures cells[j] == Some(cur[j])
    ensures cur[j].id == id ==> cells[..i] == Wrap(Without(cur[..j + 1], id)) && cells[j + 1..|cur|] == Wrap(cur[j + 1..])
    ensures cur[j].id != id ==>
              && cells[i := cells[j]][..i + 1] == Wrap(Without(cur[..j + 1], id))
              && cells[i := cells[j]][j + 1..|cur|] == Wrap(cur[j + 1..])
  {
    assert cells[j] == cells[j..|cur|][0] == Some(cur[j]);
    assert cur[..j + 1][..j] == cur[..j];
    assert cells[j + 1..|cur|] == cells[j..|cur|][1..];
    assert Wrap(cur[j + 1..]) == Wrap(cur[j..])[1..];
    var moved := cells[i := cells[j]];
    assert moved[..i + 1] == cells[..i] + [Some(cur[j])];
    assert moved[j + 1..|cur|] == cells[j + 1..|cur|];
    assert Wrap(Without(cur[..j], id) + [cur[j]]) == Wrap(Without(cur[..j], id)) + [Some(cur[j])];
  }

  lemma DeleteEnds(s: State, t: nat, cur: seq<Entry>)
    requires Enabled(s, t, Delete) && InBounds(s, t) && WriterOk(s, s.Pc(t), cur)
    requires s.Pc(t).j == s.Pc(t).buf.len
    ensures var s' := Do(s, t, Delete); Undisturbed(s, s') && WriterOk(s', s'.Pc(t), cur)
  {
    assert cur[..s.Pc(t).j] == cur;
  }

  lemma DeleteSkips(s: State, t: nat, cur: seq<Entry>)
    requires Enabled(s, t, Delete) && InBounds(s, t) && WriterOk(s, s.Pc(t), cur) && s.Pc(t).j < s.Pc(t).buf.len
    requires s.heap[s.Pc(t).buf.at][s.Pc(t).j].value.id == s.Pc(t).id
    ensures var s' := Do(s, t, Delete); Undisturbed(s, s') && WriterOk(s', s'.Pc(t), cur)
  {
    var Deleting(id, buf, i, j) := s.Pc(t);
    DeleteShifts(s.heap[buf.at], cur, id, i, j);
    assert Do(s, t, Delete).Pc(t) == Deleting(id, buf, i, j + 1);
  }

  lemma DeleteMoves(s: State, t: nat, cur: seq<Entry>)
    requires Enabled(s, t, Delete) && InBounds(s, t) && WriterOk(s, s.Pc(t), cur) && s.Pc(t).j < s.Pc(t).buf.len
    requires s.heap[s.Pc(t).buf.at][s.Pc(t).j].value.id != s.Pc(t).id
    ensures var s' := Do(s, t, Delete); Undisturbed(s, s') && WriterOk(s', s'.Pc(t), cur)
  {
    var s' := Do(s, t, Delete);
    var Deleting(id, buf, i, j) := s.Pc(t);
    DeleteShifts(s.heap[buf.at], cur, id, i, j);
    assert s'.heap[buf.at] == s.heap[buf.at][i := s.heap[buf.at][j]];
    assert s'.Pc(t) == Deleting(id, buf, i + 1, j + 1);
  }

  lemma DeleteKeeps(seed: seq<Entry>, s: State, t: nat)
    requires Inv(seed, s) && Enabled(s, t, Delete) && InBounds(s, t)
    ensures Inv(seed, Do(s, t, Delete))
  {
    var cur, pc := Replay(seed, s.history), s.Pc(t);
    HolderIsWriter(seed, s, t);
    if pc.j == pc.buf.len {
      DeleteEnds(s, t, cur);
    } else if s.heap[pc.buf.at][pc.j].value.id != pc.id {
      DeleteMoves(s, t, cur);
    } else {
      DeleteSkips(s, t, cur);
    }
    PrivateStep(seed, s, Do(s, t, Delete), t, Do(s, t, Delete).Pc(t));
  }

  lemma ClearWrites(s: State, t: nat, cur: seq<Entry>)
    requires Enabled(s, t, Clear) && InBounds(s, t) && WriterOk(s, s.Pc(t), cur)
    ensures var s' := Do(s, t, Clear); Undisturbed(s, s') && WriterOk(s', s'.Pc(t), cur)
  {
    var Clearing(id, buf, i, k) := s.Pc(t);
    assert Do(s, t, Clear).heap[buf.at][..i] == s.heap[buf.at][..i];
  }

  lemma ClearKeeps(seed: seq<Entry>, s: State, t: nat)
    requires Inv(seed, s) && Enabled(s, t, Clear) && InBounds(s, t)
    ensures Inv(seed, Do(s, t, Clear))
  {
    HolderIsWriter(seed, s, t);
    ClearWrites(s, t, Replay(seed, s.history));
    PrivateStep(seed, s, Do(s, t, Clear), t, Do(s, t, Clear).Pc(t));
  }

  lemma EventKeepsList(seed: seq<Entry>, s: State, s': State, e: Event)
    requires ListOk(seed, s)
    requires Sequential(Replay(seed, s.history), e) && (e.Added? ==> e.e.id < s.nextId)
    requires s'.history == s.history + [e] && s'.nextId == s.nextId
    requires InHeap(s', s'.list) && s'.Cells(s'.list) == Wrap(Apply(Replay(seed, s.history), e))
    ensures ListOk(seed, s')
  {
    ReplayOne(seed, s.history, e);
    ApplyKeepsList(Replay(seed, s.history), e, s.nextId);
  }

  lemma StoreKeeps(seed: seq<Entry>, s: State, t: nat)
    requires Inv(seed, s) && Enabled(s, t, Store) && InBounds(s, t)
    ensures Inv(seed, Do(s, t, Store))
  {
    HolderIsWriter(seed, s, t);
    EventKeepsList(seed, s, Do(s, t, Store), s.Pc(t).what);
    StoreKeepsLock(s, t);
  }

  lemma StoreKeepsLock(s: State, t: nat)
    requires LockOk(s) && Enabled(s, t, Store) && InBounds(s, t)
    ensures LockOk(Do(s, t, Store)) && Do(s, t, Store).Pc(t).Finished? && s.holder == Some(t)
  {
    assert InsideLock(s.Pc(t));
  }

  // The writer's buffer is not the list, so handing out the list is no business of
  // the writer's.
  lemma HandingOutIsHarmless(s: State, pc: Pc, cur: seq<Entry>)
    requires WriterOk(s, pc, cur)
    ensures WriterOk(s.(handedOut := s.handedOut + {s.list}), pc, cur)
  {
  }

  lemma ReadKeeps(seed: seq<Entry>, s: State, t: nat)
    requires Inv(seed, s) && InBounds(s, t)
    ensures Inv(seed, Do(s, t, Read))
  {
    var cur := Replay(seed, s.history);
    UnwrapWrap(cur);
    ReplayOne(seed, s.history, Listed(cur));
    if s.holder.Some? {
      HandingOutIsHarmless(s, s.Pc(s.holder.value), cur);
    }
  }

  lemma LockStepKeeps(seed: seq<Entry>, s: State, t: nat, a: Step)
    requires Inv(seed, s) && Enabled(s, t, a) && InBounds(s, t)
    requires a.Invoke? || a.Lock? || a.Unlock?
    ensures Inv(seed, Do(s, t, a))
  {
  }

  lemma StepKeepsInv(seed: seq<Entry>, s: State, t: nat, a: Step)
    requires Inv(seed, s) && Enabled(s, t, a)
    ensures InBounds(s, t) && Inv(seed, Do(s, t, a))
  {
    NeverOutOfBounds(seed, s, t, a);
    match a
    case Check => CheckKeeps(seed, s, t);
    case Clone(spare) => CloneKeeps(seed, s, t, spare);
    case Append(spare) => AppendKeeps(seed, s, t, spare);
    case Delete => DeleteKeeps(seed, s, t);
    case Clear => ClearKeeps(seed, s, t);
    case Store => StoreKeeps(seed, s, t);
    case Read => ReadKeeps(seed, s, t);
    case _ => LockStepKeeps(seed, s, t, a);
  }

  lemma {:induction false} RunKeepsInv(seed: seq<Entry>, s: State, run: seq<Scheduled>)
    requires Inv(seed, s) && Legal(s, run)
    ensures Inv(seed, Run(s, run))
    decreases |run|
  {
    if run != [] {
      StepKeepsInv(seed, s, run[0].0, run[0].1);
      RunKeepsInv(seed, Do(s, run[0].0, run[0].1), run[1..]);
    }
  }

  // ---------------------------------------------------------------- the results

  ghost predicate Seed(seed: seq<Entry>, nextId: nat) {
    DistinctIds(seed) && IdsBelow(seed, nextId)
  }

  lemma SeededInv(seed: seq<Entry>, nextId: nat)
    requires Seed(seed, nextId)
    ensures Inv(seed, Seeded(seed, nextId))
  {
    var s := Seeded(seed, nextId);
    assert s.Cells(s.list) == Wrap(seed);
  }

  // Linearizability. In every interleaving of writers and readers the events, in the
  // order in which they took effect, are a history of a registry used by one caller
  // at a time, and the current list is what that history leaves: no update is lost,
  // no read is torn. Identities stay distinct, and URLs do if the seed's were.
  lemma Linearizable(seed: seq<Entry>, nextId: nat, run: seq<Scheduled>)
    requires Seed(seed, nextId) && Legal(Seeded(seed, nextId), run)
    ensures var s := Run(Seeded(seed, nextId), run);
            && SequentialHistory(seed, s.history)
            && InHeap(s, s.list) && s.Cells(s.list) == Wrap(Replay(seed, s.history))
            && DistinctIds(Replay(seed, s.history))
            && (DistinctUrls(seed) ==> DistinctUrls(Replay(seed, s.history)))
  {
    SeededInv(seed, nextId);
    RunKeepsInv(seed, Seeded(seed, nextId), run);
  }

  // ---------------------------------------------------------------- what remains in the list

  // Every entry that was ever in the list, in the order in which it came in.
  function Entered(seed: seq<Entry>, history: seq<Event>): seq<Entry> {
    if history == [] then seed
    else
      var e := history[|history| - 1];
      Entered(seed, history[..|history| - 1]) + if e.Added? then [e.e] else []
  }

  function Stays(history: seq<Event>): Entry -> bool {
    (x: Entry) => Removed(x.id) !in history
  }

  lemma EnteredOne(seed: seq<Entry>, history: seq<Event>, e: Event)
    ensures Entered(seed, history + [e]) == Entered(seed, history) + if e.Added? then [e.e] else []
  {
    assert (history + [e])[..|history|] == history;
  }

  // Only what has come in can be in the list, or be removed.
  lemma {:induction false} ReplayHasEntered(seed: seq<Entry>, history: seq<Event>)
    requires SequentialHistory(seed, history)
    ensures forall x | x in Replay(seed, history) :: x in Entered(seed, history)
    ensures forall id | Removed(id) in history :: exists x :: x in Entered(seed, history) && x.id == id
  {
    if history != [] {
      var init, e := history[..|history| - 1], history[|history| - 1];
      ReplayHasEntered(seed, init);
      assert history == init + [e];
      if e.Removed? { FilterMembers(Replay(seed, init), (y: Entry) => y.id != e.id); }
    }
  }

  lemma DistinctPrefix(list: seq<Entry>, x: Entry)
    requires DistinctIds(list + [x])
    ensures DistinctIds(list) && forall y | y in list :: y.id != x.id
  {
    var all := list + [x];
    assert forall i | 0 <= i < |list| :: all[i] == list[i];
    assert all[|list|] == x;
  }

  // When no identity is given twice, the list holds those entries that were never
  // removed.
  lemma {:induction false} ReplayIsWhatStays(seed: seq<Entry>, history: seq<Event>)
    requires SequentialHistory(seed, history) && DistinctIds(Entered(seed, history))
    ensures Replay(seed, history) == Filter(Entered(seed, history), Stays(history))
  {
    if history == [] {
      FilterAll(seed, Stays([]));
    } else {
      var init, e := history[..|history| - 1], history[|history| - 1];
      var before := Entered(seed, init);
      assert history == init + [e];
      EnteredOne(seed, init, e);
      if e.Added? { DistinctPrefix(before, e.e); } else { assert before + [] == before; }
      ReplayIsWhatStays(seed, init);
      if e.Removed? {
        FilterTwice(before, Stays(init), (y: Entry) => y.id != e.id, Stays(history));
      } else {
        FilterSame(before, Stays(init), Stays(history));
        if e.Added? {
          ReplayHasEntered(seed, init);
          assert Stays(history)(e.e);
          assert (before + [e.e])[..|before|] == before;
        }
      }
    }
  }

  predicate Pending(pc: Pc, e: Entry) {
    match pc
    case Appending(x, _) => x == e
    case Built(what, _) => what == Added(e)
    case _ => false
  }

  // No identity is given twice: those that are in use or have been are below the next,
  // and a backend about to come in has one of its own.
  ghost predicate IdsAreFresh(seed: seq<Entry>, s: State) {
    && DistinctIds(Entered(seed, s.history)) && IdsBelow(Entered(seed, s.history), s.nextId)
    && forall t: nat, e | Pending(s.Pc(t), e) ::
         e.id < s.nextId && forall x | x in Entered(seed, s.history) :: x.id != e.id
  }

  // What one step of t does to the history, and where new identities come from.
  ghost predicate Brings(s: State, s': State, t: nat) {
    && s.nextId <= s'.nextId
    && (s'.history == s.history || (|s'.history| == |s.history| + 1 && s.history <= s'.history))
    && (|s'.history| > |s.history| && s'.history[|s.history|].Added? ==>
          Pending(s.Pc(t), s'.history[|s.history|].e) && s'.Pc(t).Finished?)
    && (forall e | Pending(s'.Pc(t), e) ::
          Pending(s.Pc(t), e) || (e.id == s.nextId < s'.nextId && s'.history == s.history))
    && (forall u: nat | u != t :: s'.Pc(u) == s.Pc(u))
  }

  lemma StepBrings(s: State, t: nat, a: Step)
    requires Enabled(s, t, a) && InBounds(s, t)
    ensures Brings(s, Do(s, t, a), t)
  {
  }

  lemma FreshEntered(seed: seq<Entry>, s: State, s': State, t: nat)
    requires IdsAreFresh(seed, s) && Brings(s, s', t)
    ensures DistinctIds(Entered(seed, s'.history)) && IdsBelow(Entered(seed, s'.history), s'.nextId)
    ensures forall x | x in Entered(seed, s'.history) ::
              x in Entered(seed, s.history) || (Pending(s.Pc(t), x) && s'.Pc(t).Finished?)
  {
    if s'.history != s.history {
      var e := s'.history[|s.history|];
      assert s'.history == s.history + [e];
      EnteredOne(seed, s.history, e);
      if e.Added? {
        assert Pending(s.Pc(t), e.e);
        assert forall i | 0 <= i < |Entered(seed, s.history)| :: Entered(seed, s.history)[i] in Entered(seed, s.history);
      }
    }
  }

  lemma FreshPending(seed: seq<Entry>, s: State, s': State, t: nat, u: nat, e: Entry)
    requires LockOk(s) && IdsAreFresh(seed, s) && Brings(s, s', t) && Pending(s'.Pc(u), e)
    ensures e.id < s'.nextId && forall x | x in Entered(seed, s'.history) :: x.id != e.id
  {
    FreshEntered(seed, s, s', t);
    if u != t {
      assert InsideLock(s.Pc(u)) && s.holder == Some(u) && s'.Pc(u) == s.Pc(u);
    }
  }

  lemma StepKeepsFresh(seed: seq<Entry>, s: State, t: nat, a: Step)
    requires LockOk(s) && IdsAreFresh(seed, s) && Enabled(s, t, a) && InBounds(s, t)
    ensures IdsAreFresh(seed, Do(s, t, a))
  {
    StepBrings(s, t, a);
    FreshStays(seed, s, Do(s, t, a), t);
  }

  lemma FreshStays(seed: seq<Entry>, s: State, s': State, t: nat)
    requires LockOk(s) && IdsAreFresh(seed, s) && Brings(s, s', t)
    ensures IdsAreFresh(seed, s')
  {
    FreshEntered(seed, s, s', t);
    forall u: nat, e | Pending(s'.Pc(u), e)
      ensures e.id < s'.nextId && forall x | x in Entered(seed, s'.history) :: x.id != e.id
    {
      FreshPending(seed, s, s', t, u, e);
    }
  }

  lemma {:induction false} RunKeepsFresh(seed: seq<Entry>, s: State, run: seq<Scheduled>)
    requires Inv(seed, s) && IdsAreFresh(seed, s) && Legal(s, run)
    ensures IdsAreFresh(seed, Run(s, run))
    decreases |run|
  {
    if run != [] {
      StepKeepsFresh(seed, s, run[0].0, run[0].1);
      StepKeepsInv(seed, s, run[0].0, run[0].1);
      RunKeepsFresh(seed, Do(s, run[0].0, run[0].1), run[1..]);
    }
  }

  // `list` holds exactly the entries of `entered` that were never removed, in order.
  ghost predicate Remaining(entered: seq<Entry>, history: seq<Event>, list: seq<Entry>) {
    exists at: seq<nat> ::
      && InOrder(entered, list, at)
      && forall i {:trigger i in at} | 0 <= i < |entered| :: i in at <==> Removed(entered[i].id) !in history
  }

  lemma ReplayRemains(seed: seq<Entry>, history: seq<Event>)
    requires SequentialHistory(seed, history) && DistinctIds(Entered(seed, history))
    ensures Remaining(Entered(seed, history), history, Replay(seed, history))
  {
    var entered := Entered(seed, history);
    ReplayIsWhatStays(seed, history);
    FilterInOrder(entered, Stays(history));
    assert InOrder(entered, Replay(seed, history), Positions(entered, Stays(history)));
  }

  // The list, in terms of what has happened: cell by cell it holds, in the order in
  // which they came in, exactly the entries that were never removed. No identity is
  // given twice.
  lemma ListIsWhatStays(seed: seq<Entry>, nextId: nat, run: seq<Scheduled>) returns (list: seq<Entry>)
    requires Seed(seed, nextId) && Legal(Seeded(seed, nextId), run)
    ensures var s := Run(Seeded(seed, nextId), run);
            && InHeap(s, s.list) && |list| == s.list.len
            && (forall i | 0 <= i < |list| :: s.heap[s.list.at][i] == Some(list[i]))
            && DistinctIds(Entered(seed, s.history))
            && Remaining(Entered(seed, s.history), s.history, list)
  {
    var s := Run(Seeded(seed, nextId), run);
    list := Replay(seed, s.history);
    SeededInv(seed, nextId);
    RunKeepsInv(seed, Seeded(seed, nextId), run);
    RunKeepsFresh(seed, Seeded(seed, nextId), run);
    ReplayRemains(seed, s.history);
    assert forall i | 0 <= i < s.list.len :: s.heap[s.list.at][i] == s.Cells(s.list)[i];
  }

  // ---------------------------------------------------------------- calls and their answers

  // The event is what this call may become.
  predicate Answers(op: Op, e: Event) {
    match op
    case Add(url, w) => e == AddRefused(url) || (e.Added? && e.e.url == url && e.e.weight == w)
    case Remove(id) => e == RemoveRefused(id) || e == Removed(id)
  }

  // What the writer is about to do is what it was called for, and once done it is in
  // the history, after the call was made.
  ghost predicate CallOk(s: State, t: nat) {
    var pc := s.Pc(t);
    pc.Outside? ||
    (&& t in s.calls
     && var call := s.calls[t];
        && call.since <= |s.history|
        && (if pc.Finished?
            then call.at.Some? && call.since <= call.at.value < |s.history|
                 && s.history[call.at.value] == pc.what && Answers(call.op, pc.what)
            else call.at.None?)
        && match pc
           case Waiting(op) => op == call.op
           case Locked(op) => op == call.op
           case Checked(op, _) => op == call.op
           case Appending(e, _) => call.op == Add(e.url, e.weight)
           case Deleting(id, _, _, _) => call.op == Remove(id)
           case Clearing(id, _, _, _) => call.op == Remove(id)
           case Built(what, _) => Answers(call.op, what)
           case _ => true)
  }

  lemma StepKeepsOwnCall(s: State, t: nat, a: Step)
    requires Enabled(s, t, a) && InBounds(s, t) && CallOk(s, t)
    ensures CallOk(Do(s, t, a), t)
  {
  }

  lemma StepKeepsOtherCall(s: State, t: nat, a: Step, u: nat)
    requires Enabled(s, t, a) && InBounds(s, t) && CallOk(s, u) && u != t
    ensures CallOk(Do(s, t, a), u)
  {
    var s' := Do(s, t, a);
    assert s'.Pc(u) == s.Pc(u) && (u in s.calls ==> u in s'.calls && s'.calls[u] == s.calls[u]);
    assert s.history <= s'.history;
  }

  lemma StepKeepsCall(s: State, t: nat, a: Step, u: nat)
    requires Enabled(s, t, a) && InBounds(s, t) && CallOk(s, t) && CallOk(s, u)
    ensures CallOk(Do(s, t, a), u)
  {
    if u == t { StepKeepsOwnCall(s, t, a); } else { StepKeepsOtherCall(s, t, a, u); }
  }

  lemma {:induction false} RunKeepsCalls(s: State, run: seq<Scheduled>)
    requires Legal(s, run) && forall u: nat :: CallOk(s, u)
    ensures forall u: nat :: CallOk(Run(s, run), u)
    decreases |run|
  {
    if run != [] {
      var (t, a) := run[0];
      forall u: nat
        ensures CallOk(Do(s, t, a), u)
      {
        StepKeepsCall(s, t, a, u);
      }
      RunKeepsCalls(Do(s, t, a), run[1..]);
    }
  }

  // t's latest call, made when `since` events had happened, was for `op`.
  ghost predicate Called(s: State, t: nat, op: Op, since: nat) {
    t in s.calls && s.calls[t].op == op && s.calls[t].since == since
  }

  lemma {:induction false} RunKeepsCalled(s: State, run: seq<Scheduled>, t: nat, op: Op, since: nat)
    requires Legal(s, run) && Called(s, t, op, since)
    requires forall i | 0 <= i < |run| :: run[i].0 == t ==> !run[i].1.Invoke?
    ensures Called(Run(s, run), t, op, since)
    decreases |run|
  {
    if run != [] {
      StepKeepsCalled(s, run[0].0, run[0].1, t, op, since);
      RunKeepsCalled(Do(s, run[0].0, run[0].1), run[1..], t, op, since);
    }
  }

  lemma StepKeepsCalled(s: State, u: nat, a: Step, t: nat, op: Op, since: nat)
    requires Enabled(s, u, a) && InBounds(s, u) && Called(s, t, op, since) && (u == t ==> !a.Invoke?)
    ensures Called(Do(s, u, a), t, op, since)
  {
  }

  // A call for `op`, made after `past`, that is about to return after `rest`: it has
  // taken effect at one event in between, which is what it returns and which answers
  // what was asked for.
  lemma CallsAreAnswered(seed: seq<Entry>, nextId: nat, past: seq<Scheduled>, t: nat, op: Op, rest: seq<Scheduled>)
    returns (k: nat)
    requires Legal(Seeded(seed, nextId), past)
    requires var s := Run(Seeded(seed, nextId), past);
             Enabled(s, t, Invoke(op)) && InBounds(s, t) && Legal(Do(s, t, Invoke(op)), rest)
    requires forall i | 0 <= i < |rest| :: rest[i].0 == t ==> !rest[i].1.Invoke?
    requires Enabled(Run(Do(Run(Seeded(seed, nextId), past), t, Invoke(op)), rest), t, Unlock)
    ensures var before := Run(Seeded(seed, nextId), past);
            var after := Run(Do(before, t, Invoke(op)), rest);
            && |before.history| <= k < |after.history|
            && after.Pc(t) == Finished(after.history[k])
            && match op
               case Add(url, w) =>
                 || after.history[k] == AddRefused(url)
                 || (after.history[k].Added? && after.history[k].e.url == url && after.history[k].e.weight == w)
               case Remove(id) => after.history[k] == RemoveRefused(id) || after.history[k] == Removed(id)
  {
    var before := Run(Seeded(seed, nextId), past);
    var asked := Do(before, t, Invoke(op));
    RunKeepsCalls(Seeded(seed, nextId), past);
    forall u: nat
      ensures CallOk(asked, u)
    {
      StepKeepsCall(before, t, Invoke(op), u);
    }
    RunKeepsCalls(asked, rest);
    RunKeepsCalled(asked, rest, t, op, |before.history|);
    var after := Run(asked, rest);
    assert CallOk(after, t);
    k := after.calls[t].at.value;
  }

  // No index is ever out of range and no nil followed: a step that is due can be taken.
  lemma NoPanic(seed: seq<Entry>, nextId: nat, run: seq<Scheduled>, t: nat, a: Step)
    requires Seed(seed, nextId) && Legal(Seeded(seed, nextId), run)
    requires Enabled(Run(Seeded(seed, nextId), run), t, a)
    ensures InBounds(Run(Seeded(seed, nextId), run), t)
  {
    SeededInv(seed, nextId);
    RunKeepsInv(seed, Seeded(seed, nextId), run);
    NeverOutOfBounds(seed, Run(Seeded(seed, nextId), run), t, a);
  }

  predicate OwnBuffer(pc: Pc, at: nat) {
    match pc
    case Appending(_, buf) => buf.at == at
    case Deleting(_, buf, _, _) => buf.at == at
    case Clearing(_, buf, _, _) => buf.at == at
    case _ => false
  }

  lemma StepWritesOwnBuffer(s: State, t: nat, a: Step, at: nat)
    requires Enabled(s, t, a) && InBounds(s, t) && at < |s.heap| && !OwnBuffer(s.Pc(t), at)
    ensures at < |Do(s, t, a).heap| && Do(s, t, a).heap[at] == s.heap[at]
  {
  }

  lemma StepDisturbsNoReader(seed: seq<Entry>, s: State, t: nat, a: Step, x: Slice)
    requires Inv(seed, s) && Enabled(s, t, a) && InBounds(s, t) && x in s.handedOut
    ensures x in Do(s, t, a).handedOut
    ensures x.at < |s.heap| && x.at < |Do(s, t, a).heap| && Do(s, t, a).heap[x.at] == s.heap[x.at]
  {
    if InsideLock(s.Pc(t)) {
      assert s.holder == Some(t);
    }
    StepWritesOwnBuffer(s, t, a, x.at);
  }

  lemma {:induction false} RunDisturbsNoReader(seed: seq<Entry>, s: State, run: seq<Scheduled>, x: Slice)
    requires Inv(seed, s) && Legal(s, run) && x in s.handedOut
    ensures x.at < |s.heap| && x.at < |Run(s, run).heap| && Run(s, run).heap[x.at] == s.heap[x.at]
    decreases |run|
  {
    if run != [] {
      var (t, a) := run[0];
      StepDisturbsNoReader(seed, s, t, a, x);
      StepKeepsInv(seed, s, t, a);
      RunDisturbsNoReader(seed, Do(s, t, a), run[1..], x);
    }
  }

  // Snapshot immutability. A slice once handed to a reader keeps its backing array
  // unchanged, spare cells and all, through every later interleaving, although append
  // and DeleteFunc work in place.
  lemma SnapshotsNeverChange(seed: seq<Entry>, nextId: nat, past: seq<Scheduled>, run: seq<Scheduled>, x: Slice)
    requires Seed(seed, nextId) && Legal(Seeded(seed, nextId), past)
    requires Legal(Run(Seeded(seed, nextId), past), run)
    requires x in Run(Seeded(seed, nextId), past).handedOut
    ensures var s := Run(Seeded(seed, nextId), past);
            var s' := Run(s, run);
            x.at < |s.heap| && x.at < |s'.heap| && s'.heap[x.at] == s.heap[x.at]
  {
    SeededInv(seed, nextId);
    RunKeepsInv(seed, Seeded(seed, nextId), past);
    RunDisturbsNoReader(seed, Run(Seeded(seed, nextId), past), run, x);
  }

  // What a read hands out.
  ghost predicate Gives(s: State, read: State, given: seq<Entry>) {
    && read.history == s.history + [Listed(given)]
    && InHeap(s, s.list) && |given| == s.list.len
    && forall i | 0 <= i < |given| :: s.heap[s.list.at][i] == Some(given[i])
  }

  lemma ReadGives(s: State, t: nat)
    requires InBounds(s, t)
    ensures exists given :: Gives(s, Do(s, t, Read), given)
    ensures s.list in Do(s, t, Read).handedOut && Do(s, t, Read).heap == s.heap
  {
    var given := Unwrap(s.Cells(s.list));
    assert forall i | 0 <= i < |given| :: s.Cells(s.list)[i] == s.heap[s.list.at][i];
    assert Gives(s, Do(s, t, Read), given);
  }

  // A reader is given the list as it is at that moment, and the cells it reads stay so
  // in its hands.
  lemma ReaderKeepsItsList(seed: seq<Entry>, nextId: nat, past: seq<Scheduled>, t: nat, rest: seq<Scheduled>)
    requires Seed(seed, nextId) && Legal(Seeded(seed, nextId), past)
    requires var s := Run(Seeded(seed, nextId), past);
             InBounds(s, t) && Legal(Do(s, t, Read), rest)
    ensures var s := Run(Seeded(seed, nextId), past);
            var end := Run(Do(s, t, Read), rest);
            && (exists given :: Gives(s, Do(s, t, Read), given))
            && s.list.at < |s.heap| && s.list.at < |end.heap| && end.heap[s.list.at] == s.heap[s.list.at]
  {
    var s := Run(Seeded(seed, nextId), past);
    SeededInv(seed, nextId);
    RunKeepsInv(seed, Seeded(seed, nextId), past);
    StepKeepsInv(seed, s, t, Read);
    ReadGives(s, t);
    RunDisturbsNoReader(seed, Do(s, t, Read), rest, s.list);
  }

  // ---------------------------------------------------------------- progress

  function StagesLeft(pc: Pc): nat {
    match pc
    case Locked(_) => 6
    case Checked(_, _) => 5
    case Appending(_, _) => 4
    case Deleting(_, _, _, _) => 4
    case Clearing(_, _, _, _) => 3
    case Built(_, _) => 2
    case Finished(_) => 1
    case _ => 0
  }

  function CellsLeft(pc: Pc): int {
    match pc
    case Deleting(_, buf, _, j) => buf.len - j
    case Clearing(_, buf, _, k) => buf.len - k
    case _ => 0
  }

  function NextStep(pc: Pc): Step {
    match pc
    case Outside => Read
    case Waiting(_) => Lock
    case Locked(_) => Check
    case Checked(_, _) => Clone(0)
    case Appending(_, _) => Append(0)
    case Deleting(_, _, _, _) => Delete
    case Clearing(_, _, _, _) => Clear
    case Built(_, _) => Store
    case Finished(_) => Unlock
  }

  lemma NextStepAdvances(s: State, t: nat)
    requires InBounds(s, t) && InsideLock(s.Pc(t))
    ensures Enabled(s, t, NextStep(s.Pc(t)))
    ensures var pc, pc' := s.Pc(t), Do(s, t, NextStep(s.Pc(t))).Pc(t);
            && (InsideLock(pc') <==> !pc.Finished?)
            && StagesLeft(pc') <= StagesLeft(pc)
            && (StagesLeft(pc') == StagesLeft(pc) ==> 0 <= CellsLeft(pc') < CellsLeft(pc))
            && (pc.Finished? ==> Do(s, t, NextStep(pc)).holder.None?)
  {
  }

  // A writer that holds the lock can always finish by its own steps alone, whatever
  // the others have done so far; then the lock is free.
  lemma {:induction false} WriterFinishes(seed: seq<Entry>, s: State, t: nat) returns (run: seq<Scheduled>)
    requires Inv(seed, s) && InsideLock(s.Pc(t))
    ensures Legal(s, run) && forall i | 0 <= i < |run| :: run[i].0 == t
    ensures Run(s, run).Pc(t).Outside? && Run(s, run).holder.None?
    decreases StagesLeft(s.Pc(t)), CellsLeft(s.Pc(t))
  {
    var a := NextStep(s.Pc(t));
    NeverOutOfBounds(seed, s, t, Read);
    NextStepAdvances(s, t);
    StepKeepsInv(seed, s, t, a);
    var rest := [];
    if !s.Pc(t).Finished? {
      rest := WriterFinishes(seed, Do(s, t, a), t);
    }
    run := [(t, a)] + rest;
    assert run[1..] == rest;
  }
}
