/** Orders on text and stable sorting by an order. */
module Ordering {
  import opened Sequences

  /** Lexicographic order by code unit; a prefix comes first. */
  predicate TextLe(a: string, b: string) {
    a == [] || (b != [] && (a[0] < b[0] || (a[0] == b[0] && TextLe(a[1..], b[1..]))))
  }

  lemma {:induction false} TextLeTotal(a: string, b: string)
    ensures TextLe(a, b) || TextLe(b, a)
    ensures TextLe(a, b) && TextLe(b, a) ==> a == b
  {
    if a != [] && b != [] && a[0] == b[0] {
      TextLeTotal(a[1..], b[1..]);
      assert a == [a[0]] + a[1..] && b == [b[0]] + b[1..];
    }
  }

  lemma {:induction false} TextLeTransitive(a: string, b: string, c: string)
    requires TextLe(a, b) && TextLe(b, c)
    ensures TextLe(a, c)
  {
    if a != [] && a[0] == b[0] && b[0] == c[0] {
      TextLeTransitive(a[1..], b[1..], c[1..]);
    }
  }

  ghost predicate TotalPreorder<T(!new)>(le: (T, T) -> bool) {
    && (forall x, y :: le(x, y) || le(y, x))
    && (forall x, y, z :: le(x, y) && le(y, z) ==> le(x, z))
  }

  function Insert<T>(x: T, s: seq<T>, le: (T, T) -> bool): (r: seq<T>)
    ensures multiset(r) == multiset([x]) + multiset(s)
  {
    if s == [] || le(x, s[0]) then [x] + s
    else
      assert s == [s[0]] + s[1..];
      [s[0]] + Insert(x, s[1..], le)
  }

  /** Stable insertion sort. */
  function Sort<T>(s: seq<T>, le: (T, T) -> bool): (r: seq<T>)
    ensures multiset(r) == multiset(s)
  {
    if s == [] then []
    else
      assert s == [s[0]] + s[1..];
      Insert(s[0], Sort(s[1..], le), le)
  }

  lemma {:induction false} InsertSorted<T(!new)>(x: T, s: seq<T>, le: (T, T) -> bool)
    requires TotalPreorder(le) && Pairwise(s, le)
    ensures Pairwise(Insert(x, s, le), le)
  {
    if s == [] || le(x, s[0]) {
      var r := [x] + s;
      forall i, j | 0 <= i < j < |r| ensures le(r[i], r[j]) {
        if i == 0 && j > 1 { assert le(x, s[0]) && le(s[0], s[j - 1]); }
      }
    } else {
      InsertSorted(x, s[1..], le);
      var t := Insert(x, s[1..], le);
      forall j | 0 <= j < |t| ensures le(s[0], t[j]) {
        assert t[j] in multiset(t);
        assert t[j] == x || t[j] in s[1..];
      }
    }
  }

  lemma {:induction false} SortSorted<T(!new)>(s: seq<T>, le: (T, T) -> bool)
    requires TotalPreorder(le)
    ensures Pairwise(Sort(s, le), le)
  {
    if s != [] {
      SortSorted(s[1..], le);
      InsertSorted(s[0], Sort(s[1..], le), le);
    }
  }

  lemma {:induction false} SortMembers<T(!new)>(s: seq<T>, le: (T, T) -> bool)
    ensures forall x :: x in Sort(s, le) <==> x in s
    ensures |Sort(s, le)| == |s|
  {
    var r := Sort(s, le);
    assert forall x :: x in r <==> x in multiset(r);
    assert forall x :: x in s <==> x in multiset(s);
    assert |multiset(r)| == |r| && |multiset(s)| == |s|;
  }

  lemma {:induction false} InsertPairwise<T(!new)>(x: T, s: seq<T>, le: (T, T) -> bool, rel: (T, T) -> bool)
    requires Pairwise(s, rel) && forall y | y in s :: rel(x, y) && rel(y, x)
    ensures Pairwise(Insert(x, s, le), rel)
  {
    if s != [] && !le(x, s[0]) {
      InsertPairwise(x, s[1..], le, rel);
      var t := Insert(x, s[1..], le);
      forall j | 0 <= j < |t| ensures rel(s[0], t[j]) {
        assert t[j] in multiset(t);
        assert t[j] == x || t[j] in s[1..];
      }
    }
  }

  /** Sorting keeps a symmetric relation between every two elements. */
  lemma {:induction false} SortPairwise<T(!new)>(s: seq<T>, le: (T, T) -> bool, rel: (T, T) -> bool)
    requires Pairwise(s, rel) && forall x, y :: rel(x, y) ==> rel(y, x)
    ensures Pairwise(Sort(s, le), rel)
  {
    if s != [] {
      SortPairwise(s[1..], le, rel);
      SortMembers(s[1..], le);
      InsertPairwise(s[0], Sort(s[1..], le), le, rel);
    }
  }

  lemma {:induction false} SortedHeadsAgree<T(!new)>(a: seq<T>, b: seq<T>, le: (T, T) -> bool)
    requires Pairwise(a, le) && Pairwise(b, le) && multiset(a) == multiset(b) && a != []
    requires forall x, y | x in a && y in a :: le(x, y) && le(y, x) ==> x == y
    ensures b != [] && a[0] == b[0] && multiset(a[1..]) == multiset(b[1..])
  {
    assert a[0] in multiset(b);
    assert b[0] in multiset(a);
    var i :| 0 <= i < |b| && b[i] == a[0];
    var j :| 0 <= j < |a| && a[j] == b[0];
    if i > 0 && j > 0 {
      assert le(b[0], b[i]) && le(a[0], a[j]);
    }
    assert a == [a[0]] + a[1..] && b == [b[0]] + b[1..];
    assert multiset(a) == multiset([a[0]]) + multiset(a[1..]);
    assert multiset(b) == multiset([b[0]]) + multiset(b[1..]);
    calc {
      multiset(a[1..]);
      multiset(a) - multiset([a[0]]);
      multiset(b) - multiset([b[0]]);
      multiset(b[1..]);
    }
  }

  /** Sorted arrangements of the same elements agree when ties are between equal elements. */
  lemma {:induction false} SortedUnique<T(!new)>(a: seq<T>, b: seq<T>, le: (T, T) -> bool)
    requires Pairwise(a, le) && Pairwise(b, le) && multiset(a) == multiset(b)
    requires forall x, y | x in a && y in a :: le(x, y) && le(y, x) ==> x == y
    ensures a == b
  {
    if a == [] {
      assert |multiset(b)| == |b|;
    } else {
      SortedHeadsAgree(a, b, le);
      SortedUnique(a[1..], b[1..], le);
      assert a == [a[0]] + a[1..] && b == [b[0]] + b[1..];
    }
  }
}
