/** Filtering and folding sequences, properties of every ordered pair of elements, and sizes of sets. */
module Sequences {
  import opened Wrappers

  function Filter<T(!new)>(s: seq<T>, keep: T -> bool): (r: seq<T>)
    ensures forall x :: x in r <==> x in s && keep(x)
    ensures |r| <= |s|
  {
    if s == [] then []
    else
      var n := |s| - 1;
      if keep(s[n]) then Filter(s[..n], keep) + [s[n]] else Filter(s[..n], keep)
  }

  lemma {:induction false} FilterNone<T(!new)>(s: seq<T>, keep: T -> bool)
    requires forall x | x in s :: !keep(x)
    ensures Filter(s, keep) == []
  {
    if s != [] {
      var n := |s| - 1;
      assert s[n] in s;
      FilterNone(s[..n], keep);
    }
  }

  /** A loop that filters keeps this equation from one prefix to the next. */
  lemma {:induction false} FilterStep<T(!new)>(s: seq<T>, n: nat, keep: T -> bool)
    requires n < |s|
    ensures Filter(s[..n + 1], keep) == Filter(s[..n], keep) + (if keep(s[n]) then [s[n]] else [])
  {
    assert s[..n + 1][..n] == s[..n];
  }

  method Retain<T(!new)>(s: seq<T>, keep: T -> bool) returns (r: seq<T>)
    ensures r == Filter(s, keep)
  {
    r := [];
    for n := 0 to |s|
      invariant r == Filter(s[..n], keep)
    {
      FilterStep(s, n, keep);
      if keep(s[n]) { r := r + [s[n]]; }
    }
    assert s[..|s|] == s;
  }

  ghost predicate Pairwise<T>(s: seq<T>, rel: (T, T) -> bool) {
    forall i, j | 0 <= i < j < |s| :: rel(s[i], s[j])
  }

  lemma {:induction false} PairwiseSnoc<T>(s: seq<T>, x: T, rel: (T, T) -> bool)
    requires Pairwise(s, rel) && forall y | y in s :: rel(y, x)
    ensures Pairwise(s + [x], rel)
  {
  }

  lemma {:induction false} FilterPairwise<T(!new)>(s: seq<T>, keep: T -> bool, rel: (T, T) -> bool)
    requires Pairwise(s, rel)
    ensures Pairwise(Filter(s, keep), rel)
  {
    if s != [] {
      var n := |s| - 1;
      FilterPairwise(s[..n], keep, rel);
      PairwiseSnoc(Filter(s[..n], keep), s[n], rel);
    }
  }

  /** Feeds the elements through a step that may fail. */
  function FoldSome<S, T>(step: (S, T) -> Option<S>, start: S, ts: seq<T>): Option<S> {
    if ts == [] then Some(start)
    else
      var n := |ts| - 1;
      var before := FoldSome(step, start, ts[..n]);
      if before.None? then None else step(before.value, ts[n])
  }

  lemma {:induction false} FoldNext<S, T>(step: (S, T) -> Option<S>, start: S, ts: seq<T>, n: nat)
    requires n < |ts|
    ensures var before := FoldSome(step, start, ts[..n]);
      FoldSome(step, start, ts[..n + 1]) == if before.None? then None else step(before.value, ts[n])
  {
    assert ts[..n + 1][..n] == ts[..n];
  }

  /** What every step keeps, the whole fold keeps. */
  lemma {:induction false} FoldKeeps<S(!new), T(!new)>(step: (S, T) -> Option<S>, start: S, ts: seq<T>,
      inv: S -> bool, ok: T -> bool)
    requires inv(start) && forall t | t in ts :: ok(t)
    requires forall s, t | inv(s) && ok(t) :: step(s, t).Some? ==> inv(step(s, t).value)
    ensures FoldSome(step, start, ts).Some? ==> inv(FoldSome(step, start, ts).value)
  {
    if ts != [] {
      var n := |ts| - 1;
      assert ts == ts[..n] + [ts[n]];
      FoldKeeps(step, start, ts[..n], inv, ok);
      assert ok(ts[n]);
    }
  }

  lemma {:induction false} PrefixSnoc<T>(s: seq<T>, i: nat)
    requires i < |s|
    ensures s[..i + 1] == s[..i] + [s[i]]
  {
  }

  /** Steps that always succeed from what the earlier ones built make the whole fold succeed. */
  lemma {:induction false} FoldBuilds<S(!new), T>(step: (S, T) -> Option<S>, start: S, ts: seq<T>,
      n: nat, built: (S, nat) -> bool)
    requires n <= |ts| && built(start, 0)
    requires forall s, i: nat | i < n && built(s, i) :: step(s, ts[i]).Some? && built(step(s, ts[i]).value, i + 1)
    ensures FoldSome(step, start, ts[..n]).Some? && built(FoldSome(step, start, ts[..n]).value, n)
  {
    if n > 0 {
      FoldBuilds(step, start, ts, n - 1, built);
      assert ts[..n][..n - 1] == ts[..n - 1];
    }
  }

  /** What every successful step needs of its element, a successful fold needs of all. */
  lemma {:induction false} FoldNeeds<S(!new), T(!new)>(step: (S, T) -> Option<S>, start: S, ts: seq<T>,
      inv: S -> bool, need: T -> bool)
    requires inv(start) && FoldSome(step, start, ts).Some?
    requires forall s, t | inv(s) && step(s, t).Some? :: inv(step(s, t).value) && need(t)
    ensures inv(FoldSome(step, start, ts).value) && forall t | t in ts :: need(t)
  {
    if ts != [] {
      var n := |ts| - 1;
      assert ts == ts[..n] + [ts[n]];
      FoldNeeds(step, start, ts[..n], inv, need);
    }
  }

  lemma {:induction false} HeadFirst<T>(s: seq<T>, i: nat, rel: (T, T) -> bool)
    requires Pairwise(s, rel) && i < |s|
    ensures i == 0 || rel(s[0], s[i])
  {
  }

  ghost predicate Within<T>(s: seq<T>, t: seq<T>) {
    forall x | x in s :: x in t
  }

  ghost predicate StrictOn<T(!new)>(s: seq<T>, lt: (T, T) -> bool) {
    forall x, y | x in s && y in s && lt(x, y) :: !lt(y, x) && x != y
  }

  lemma {:induction false} SomeMember<T>(s: seq<T>, t: seq<T>)
    requires s != [] && Within(s, t)
    ensures t != [] && s[0] in t
  {
    assert s[0] in s;
  }

  lemma {:induction false} StrictTail<T(!new)>(s: seq<T>, lt: (T, T) -> bool)
    requires s != [] && Pairwise(s, lt) && StrictOn(s, lt)
    ensures Pairwise(s[1..], lt) && StrictOn(s[1..], lt)
  {
    assert forall x | x in s[1..] :: x in s;
  }

  lemma {:induction false} HeadAndTail<T>(a: seq<T>, b: seq<T>)
    requires a != [] && b != [] && a[0] == b[0] && a[1..] == b[1..]
    ensures a == b
  {
    assert a == [a[0]] + a[1..] && b == [b[0]] + b[1..];
  }

  /** Strictly ordered lists with the same elements are the same list. */
  lemma {:induction false} StrictUnique<T(!new)>(a: seq<T>, b: seq<T>, lt: (T, T) -> bool)
    requires Pairwise(a, lt) && Pairwise(b, lt) && StrictOn(a, lt) && StrictOn(b, lt) && Within(a, b) && Within(b, a)
    ensures a == b
  {
    if b != [] { SomeMember(b, a); }
    if a != [] {
      SomeMember(a, b);
      HeadsAgree(a, b, lt);
      TailsAgree(a, b, lt);
      TailsAgree(b, a, lt);
      StrictTail(a, lt);
      StrictTail(b, lt);
      StrictUnique(a[1..], b[1..], lt);
      HeadAndTail(a, b);
    }
  }

  lemma {:induction false} HeadsAgree<T(!new)>(a: seq<T>, b: seq<T>, lt: (T, T) -> bool)
    requires a != [] && b != [] && Pairwise(a, lt) && Pairwise(b, lt) && a[0] in b && b[0] in a && StrictOn(a, lt)
    ensures a[0] == b[0]
  {
    var j :| 0 <= j < |b| && b[j] == a[0];
    var i :| 0 <= i < |a| && a[i] == b[0];
    HeadFirst(b, j, lt);
    HeadFirst(a, i, lt);
  }

  lemma {:induction false} TailsAgree<T(!new)>(a: seq<T>, b: seq<T>, lt: (T, T) -> bool)
    requires a != [] && b != [] && a[0] == b[0] && Pairwise(a, lt) && Within(a, b) && StrictOn(a, lt)
    ensures Within(a[1..], b[1..])
  {
    forall x | x in a[1..] ensures x in b[1..] {
      var i :| 1 <= i < |a| && a[i] == x;
      assert lt(a[0], a[i]);
      assert x in b;
      var j :| 0 <= j < |b| && b[j] == x;
      assert j > 0;
      assert b[1..][j - 1] == x;
    }
  }

  lemma {:induction false} SubsetSize<T>(a: set<T>, b: set<T>)
    requires a <= b
    ensures |a| <= |b|
  {
    assert b == a + (b - a);
    assert |b| == |a| + |b - a|;
  }

  lemma {:induction false} TwoFirst<T>(a: T, b: T, rest: seq<T>)
    ensures [a, b] + rest == [a] + ([b] + rest)
  {
  }

  function Flatten<T>(parts: seq<seq<T>>): seq<T> {
    if parts == [] then [] else parts[0] + Flatten(parts[1..])
  }

  lemma {:induction false} FlattenMembers<T>(parts: seq<seq<T>>, x: T)
    ensures x in Flatten(parts) <==> exists i: nat :: i < |parts| && x in parts[i]
  {
    if parts != [] {
      var rest := parts[1..];
      FlattenMembers(rest, x);
      if i: nat :| i < |rest| && x in rest[i] { assert x in parts[i + 1]; }
      if i: nat :| 0 < i < |parts| && x in parts[i] { assert x in rest[i - 1]; }
    }
  }
}
