// Filtering a list, which is what deregistration and the healthy list both do.
module Lists {

  // The elements to keep, in their order.
  function Filter<T>(s: seq<T>, keep: T -> bool): seq<T> {
    if s == [] then []
    else
      var last := s[|s| - 1];
      Filter(s[..|s| - 1], keep) + if keep(last) then [last] else []
  }

  lemma {:induction false} FilterMembers<T>(s: seq<T>, keep: T -> bool)
    ensures forall x | x in Filter(s, keep) :: x in s && keep(x)
    ensures forall x | x in s && keep(x) :: x in Filter(s, keep)
  {
    if s != [] {
      FilterMembers(s[..|s| - 1], keep);
    }
  }

  // `r` holds the elements of `s` at the positions `at`, in their order.
  ghost predicate InOrder<T>(s: seq<T>, r: seq<T>, at: seq<nat>) {
    && |at| == |r|
    && (forall j {:trigger at[j]} | 0 <= j < |at| :: at[j] < |s| && s[at[j]] == r[j])
    && (forall j, k | 0 <= j < k < |at| :: at[j] < at[k])
  }

  // Where the kept elements stand.
  function Positions<T>(s: seq<T>, keep: T -> bool): (at: seq<nat>)
    ensures forall i: nat :: i in at <==> i < |s| && keep(s[i])
  {
    if s == [] then []
    else
      var i := |s| - 1;
      Positions(s[..i], keep) + if keep(s[i]) then [i] else []
  }

  lemma {:induction false} FilterInOrder<T>(s: seq<T>, keep: T -> bool)
    ensures InOrder(s, Filter(s, keep), Positions(s, keep))
  {
    if s != [] {
      var init := s[..|s| - 1];
      FilterInOrder(init, keep);
      var at := Positions(init, keep);
      assert forall j | 0 <= j < |at| :: at[j] in at;
    }
  }

  // What a filter that keeps the members of `chosen` keeps.
  function Among<T(==)>(chosen: set<T>): T -> bool {
    x => x in chosen
  }

  lemma {:induction false} FilterShortens<T>(s: seq<T>, keep: T -> bool)
    ensures |Filter(s, keep)| <= |s|
  {
    if s != [] {
      FilterShortens(s[..|s| - 1], keep);
    }
  }

  lemma {:induction false} FilterAll<T>(s: seq<T>, keep: T -> bool)
    requires forall i | 0 <= i < |s| :: keep(s[i])
    ensures Filter(s, keep) == s
  {
    if s != [] {
      FilterAll(s[..|s| - 1], keep);
    }
  }

  // `before` holds of every two elements, the earlier and the later.
  ghost predicate Ordered<T>(s: seq<T>, before: (T, T) -> bool) {
    forall i, j | 0 <= i < j < |s| :: before(s[i], s[j])
  }

  // Filtering keeps whatever holds of every two elements in order.
  lemma {:induction false} FilterKeepsOrder<T>(s: seq<T>, keep: T -> bool, before: (T, T) -> bool)
    requires Ordered(s, before)
    ensures Ordered(Filter(s, keep), before)
  {
    if s != [] {
      var init, last := s[..|s| - 1], s[|s| - 1];
      FilterKeepsOrder(init, keep, before);
      FilterMembers(init, keep);
      var kept := Filter(init, keep);
      forall i | 0 <= i < |kept|
        ensures before(kept[i], last)
      {
        assert kept[i] in init;
      }
    }
  }

  lemma {:induction false} FilterSame<T>(s: seq<T>, p: T -> bool, q: T -> bool)
    requires forall x | x in s :: p(x) == q(x)
    ensures Filter(s, p) == Filter(s, q)
  {
    if s != [] {
      assert s[|s| - 1] in s;
      FilterSame(s[..|s| - 1], p, q);
    }
  }

  // Filtering twice keeps what both filters keep.
  lemma {:induction false} FilterTwice<T>(s: seq<T>, p: T -> bool, q: T -> bool, both: T -> bool)
    requires forall x | x in s :: both(x) == (p(x) && q(x))
    ensures Filter(Filter(s, p), q) == Filter(s, both)
  {
    if s != [] {
      var init, last := s[..|s| - 1], s[|s| - 1];
      assert last in s;
      FilterTwice(init, p, q, both);
      var kept := Filter(init, p);
      if p(last) {
        assert (kept + [last])[..|kept|] == kept;
      } else {
        assert kept + [] == kept;
      }
    }
  }

  lemma {:induction false} FilterConcat<T>(a: seq<T>, b: seq<T>, keep: T -> bool)
    ensures Filter(a + b, keep) == Filter(a, keep) + Filter(b, keep)
  {
    if b == [] {
      assert a + b == a;
    } else {
      assert (a + b)[..|a + b| - 1] == a + b[..|b| - 1];
      FilterConcat(a, b[..|b| - 1], keep);
    }
  }
}
