// The copy-on-write backend registry, one call at a time. A slice is a pointer to
// a backing array and a length, so that append and DeleteFunc can work in place
// as they do in Go, and the frame of each writer says what they leave alone.
module Registry {
  import opened Domain
  import opened Lists
  import opened Wrappers

  datatype Slice = Slice(data: array<Backend?>, len: nat) {
    ghost predicate Valid()
      reads data
    {
      len <= data.Length && forall i | 0 <= i < len :: data[i] != null
    }

    function Contents(): (s: seq<Backend>)
      requires Valid()
      reads data
      ensures |s| == len && forall i | 0 <= i < len :: s[i] == data[i]
    {
      seq(len, i requires 0 <= i < len && Valid() reads data => var b: Backend := data[i]; b)
    }
  }

  // slices.Clone, with whatever spare capacity the allocator gives.
  method Clone(s: Slice, spare: nat) returns (c: Slice)
    requires s.Valid()
    ensures c.Valid() && fresh(c.data) && c.Contents() == s.Contents()
    ensures c.data.Length == s.len + spare
  {
    var data := new Backend?[s.len + spare](_ => null);
    for i := 0 to s.len
      invariant forall k | 0 <= k < i :: data[k] == s.data[k]
      invariant s.Valid()
    {
      data[i] := s.data[i];
    }
    c := Slice(data, s.len);
  }

  // append: in place when there is spare capacity, else in a new array.
  method Append(s: Slice, b: Backend, spare: nat) returns (r: Slice)
    requires s.Valid()
    modifies s.data
    ensures r.Valid() && r.Contents() == old(s.Contents()) + [b]
    ensures r.data == s.data || fresh(r.data)
  {
    if s.len < s.data.Length {
      s.data[s.len] := b;
      r := Slice(s.data, s.len + 1);
    } else {
      var c := Clone(s, spare + 1);
      c.data[c.len] := b;
      r := Slice(c.data, c.len + 1);
    }
  }

  // The list without the backends named `id`.
  function Without(s: seq<Backend>, id: nat): seq<Backend> {
    Filter(s, (b: Backend) => b.instanceID != id)
  }

  // `r` holds exactly the backends of `s` not named `id`, in the order of `s`.
  ghost predicate OthersInOrder(s: seq<Backend>, id: nat, r: seq<Backend>) {
    exists at: seq<nat> ::
      InOrder(s, r, at) && forall i {:trigger i in at} | 0 <= i < |s| :: i in at <==> s[i].instanceID != id
  }

  lemma WithoutInOrder(s: seq<Backend>, id: nat)
    ensures OthersInOrder(s, id, Without(s, id))
  {
    var keep := (b: Backend) => b.instanceID != id;
    FilterInOrder(s, keep);
    assert InOrder(s, Without(s, id), Positions(s, keep));
  }

  // slices.DeleteFunc on the instance ID: survivors move left in place and the
  // cells they leave are cleared.
  method DeleteFunc(s: Slice, id: nat) returns (r: Slice)
    requires s.Valid()
    modifies s.data
    ensures r.Valid() && r.data == s.data && r.Contents() == Without(old(s.Contents()), id)
    ensures OthersInOrder(old(s.Contents()), id, r.Contents())
    ensures forall k | r.len <= k < s.len :: s.data[k] == null
    ensures forall k | s.len <= k < s.data.Length :: s.data[k] == old(s.data[k])
  {
    ghost var was := s.Contents();
    WithoutInOrder(was, id);
    var i := IndexOf(s, id);
    assert s.Contents() == was;
    if i == s.len {
      WithoutAbsent(was, id);
      return s;
    }
    WithoutAbsent(was[..i], id);
    i := ShiftLeft(s.data, i, s.len, id, was);
    Clear(s.data, i, s.len);
    r := Slice(s.data, i);
  }

  // The loop of DeleteFunc, from the first match at `at` on.
  method ShiftLeft(data: array<Backend?>, at: nat, len: nat, id: nat, ghost was: seq<Backend>) returns (i: nat)
    requires at < len == |was| <= data.Length && was[at].instanceID == id
    requires forall k | 0 <= k < len :: data[k] == was[k]
    requires Without(was[..at], id) == was[..at]
    modifies data
    ensures i == |Without(was, id)| <= len
    ensures forall k | 0 <= k < i :: data[k] == Without(was, id)[k]
    ensures forall k | len <= k < data.Length :: data[k] == old(data[k])
  {
    i := at;
    ghost var kept := was[..i];
    var j := i + 1;
    assert was[..j][..i] == was[..i];
    while j < len
      invariant i < j <= len
      invariant kept == Without(was[..j], id)
      invariant |kept| == i && forall k | 0 <= k < i :: data[k] == kept[k]
      invariant forall k | j <= k < len :: data[k] == was[k]
      invariant forall k | len <= k < data.Length :: data[k] == old(data[k])
    {
      var v := data[j];
      assert was[..j + 1][..j] == was[..j];
      if v.instanceID != id {
        data[i] := v;
        kept := kept + [v];
        i := i + 1;
      }
      j := j + 1;
    }
    assert was[..j] == was;
  }

  // The clear built-in on data[lo..hi].
  method Clear(data: array<Backend?>, lo: nat, hi: nat)
    requires lo <= hi <= data.Length
    modifies data
    ensures forall k | 0 <= k < data.Length :: data[k] == if lo <= k < hi then null else old(data[k])
  {
    for k := lo to hi
      invariant forall c | 0 <= c < data.Length :: data[c] == if lo <= c < k then null else old(data[c])
    {
      data[k] := null;
    }
  }

  // slices.IndexFunc on the instance ID, the length when there is none.
  method IndexOf(s: Slice, id: nat) returns (i: nat)
    requires s.Valid()
    ensures i <= s.len
    ensures forall k | 0 <= k < i :: s.Contents()[k].instanceID != id
    ensures i < s.len ==> s.Contents()[i].instanceID == id
  {
    i := 0;
    while i < s.len && s.data[i].instanceID != id
      invariant i <= s.len
      invariant forall k | 0 <= k < i :: s.data[k].instanceID != id
    {
      i := i + 1;
    }
  }

  predicate HasId(s: seq<Backend>, id: nat) {
    exists i | 0 <= i < |s| :: s[i].instanceID == id
  }

  ghost predicate DistinctIds(s: seq<Backend>) {
    forall i, j | 0 <= i < j < |s| :: s[i].instanceID != s[j].instanceID
  }

  ghost predicate DistinctUrls(s: seq<Backend>) {
    forall i, j | 0 <= i < j < |s| :: s[i].url != s[j].url
  }

  ghost predicate IdsBelow(s: seq<Backend>, next: nat) {
    forall i | 0 <= i < |s| :: s[i].instanceID < next
  }

  ghost predicate WeightsOk(s: seq<Backend>) {
    AllWeightsOk(Weights(s))
  }

  // Removing an id keeps what is true of the list and of every two backends in it.
  lemma WithoutKeeps(s: seq<Backend>, id: nat)
    ensures DistinctIds(s) ==> DistinctIds(Without(s, id))
    ensures DistinctUrls(s) ==> DistinctUrls(Without(s, id))
    ensures WeightsOk(s) ==> WeightsOk(Without(s, id))
    ensures forall next | IdsBelow(s, next) :: IdsBelow(Without(s, id), next)
  {
    var keep := (b: Backend) => b.instanceID != id;
    var otherId := (a: Backend, b: Backend) => a.instanceID != b.instanceID;
    var otherUrl := (a: Backend, b: Backend) => a.url != b.url;
    if DistinctIds(s) { FilterKeepsOrder(s, keep, otherId); }
    if DistinctUrls(s) { FilterKeepsOrder(s, keep, otherUrl); }
    FilterMembers(s, keep);
    forall i | 0 <= i < |Without(s, id)|
      ensures Without(s, id)[i] in s
    {
    }
  }

  // So does adding a backend with a new id and a new URL.
  lemma NewcomerKeeps(s: seq<Backend>, b: Backend, next: nat)
    requires DistinctIds(s) && IdsBelow(s, next) && b.instanceID == next
    ensures DistinctIds(s + [b]) && IdsBelow(s + [b], next + 1)
    ensures DistinctUrls(s) && (forall x | x in s :: x.url != b.url) ==> DistinctUrls(s + [b])
    ensures WeightsOk(s) && WeightOk(b.weight) ==> WeightsOk(s + [b])
  {
    assert forall i | 0 <= i < |s| :: s[i] in s;
  }

  class Registry {
    var backends: Slice

    ghost predicate Valid(ids: IdSupply)
      reads this, backends.data, ids
    {
      && backends.Valid()
      && DistinctIds(backends.Contents())
      && IdsBelow(backends.Contents(), ids.next)
    }

    constructor (seed: Slice)
      ensures backends == seed
    {
      backends := seed;
    }

    // The list itself, not a copy.
    method ListBackends() returns (s: Slice)
      ensures s == backends
    {
      s := backends;
    }

    method ListHealthyBackends() returns (healthy: seq<Backend>)
      requires backends.Valid()
      ensures healthy == HealthyOf(backends.Contents())
      ensures HealthyInOrder(backends.Contents(), healthy)
    {
      HealthyOfInOrder(backends.Contents());
      ghost var all := backends.Contents();
      healthy := [];
      for i := 0 to backends.len
        invariant healthy == Filter(all[..i], Among(Up(all)))
      {
        assert all[..i + 1][..i] == all[..i];
        if backends.data[i].healthy {
          healthy := healthy + [backends.data[i]];
        }
      }
      assert all[..backends.len] == all;
    }

    // `modifies this, ids` leaves every array that existed before the call, and so
    // every list already handed to a reader, as it was.
    method AddNewBackend(url: string, weight: uint64, ids: IdSupply, spare: nat) returns (r: Result<nat, string>)
      requires Valid(ids)
      modifies this, ids
      ensures Valid(ids)
      ensures (exists b | b in old(backends.Contents()) :: b.url == url) ==> r == Err(url) && backends == old(backends)
      ensures (forall b | b in old(backends.Contents()) :: b.url != url) ==>
                && r == Ok(old(ids.next)) && fresh(backends.data)
                && |backends.Contents()| == old(backends.len) + 1
                && backends.Contents()[..old(backends.len)] == old(backends.Contents())
                && var b := backends.Contents()[old(backends.len)];
                   && fresh(b) && b.instanceID == r.value && b.url == url && b.weight == weight
                   && !b.healthy && b.activeConnectionsNo == 0
      ensures old(DistinctUrls(backends.Contents())) ==> DistinctUrls(backends.Contents())
      ensures old(WeightsOk(backends.Contents())) && WeightOk(weight) ==> WeightsOk(backends.Contents())
    {
      var cur := ListBackends();
      ghost var was := cur.Contents();
      for i := 0 to cur.len
        invariant forall k | 0 <= k < i :: was[k].url != url
      {
        if cur.data[i].url == url {
          assert was[i] in was;
          return Err(url);
        }
      }
      var id := ids.Fresh();
      var b := new Backend(id, url, weight);
      var copy := Clone(cur, spare);
      var updated := Append(copy, b, spare);
      backends := updated;
      r := Ok(id);
      NewcomerKeeps(was, b, id);
      assert backends.Contents() == was + [b];
    }

    method RemoveInstanceByID(id: nat, ghost ids: IdSupply) returns (ok: bool)
      requires Valid(ids)
      modifies this
      ensures Valid(ids)
      ensures ok <==> exists b | b in old(backends.Contents()) :: b.instanceID == id
      ensures !ok ==> backends == old(backends)
      ensures ok ==> fresh(backends.data)
      ensures backends.Contents() == Without(old(backends.Contents()), id)
      ensures OthersInOrder(old(backends.Contents()), id, backends.Contents())
      ensures old(DistinctUrls(backends.Contents())) ==> DistinctUrls(backends.Contents())
      ensures old(WeightsOk(backends.Contents())) ==> WeightsOk(backends.Contents())
    {
      ghost var was := backends.Contents();
      WithoutKeeps(was, id);
      WithoutInOrder(was, id);
      var found := IndexOf(backends, id);
      assert backends.Contents() == was;
      if found == backends.len {
        WithoutAbsent(was, id);
        return false;
      }
      var cur := ListBackends();
      var copy := Clone(cur, 0);
      var updated := DeleteFunc(copy, id);
      backends := updated;
      return true;
    }

    // The flag of the listed backend named `id`, and no other, is set.
    method SetHealthy(id: nat, v: bool) returns (ok: bool)
      requires backends.Valid() && DistinctIds(backends.Contents())
      modifies (set b | b in backends.Contents())`healthy
      ensures ok <==> exists b | b in backends.Contents() :: b.instanceID == id
      ensures forall b | b in backends.Contents() ::
                b.healthy == if b.instanceID == id then v else old(b.healthy)
    {
      for i := 0 to backends.len
        invariant forall k | 0 <= k < i :: backends.Contents()[k].instanceID != id
        invariant forall b | b in backends.Contents() :: b.healthy == old(b.healthy)
      {
        if backends.data[i].instanceID == id {
          assert backends.Contents()[i] in backends.Contents();
          backends.data[i].SetHealthy(v);
          return true;
        }
      }
      return false;
    }
  }

  lemma WithoutAbsent(s: seq<Backend>, id: nat)
    requires !HasId(s, id)
    ensures Without(s, id) == s
  {
    FilterAll(s, (b: Backend) => b.instanceID != id);
  }
}
