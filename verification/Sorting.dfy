/** The stable sort of the standard library, as a function, and what is relied on about it. */
module Sorting {

  function Insert<T>(le: (T, T) -> bool, x: T, xs: seq<T>): seq<T> {
    if xs == [] || le(x, xs[0]) then [x] + xs else [xs[0]] + Insert(le, x, xs[1..])
  }

  /** `xs`, stably sorted by `le`. */
  function Sort<T>(le: (T, T) -> bool, xs: seq<T>): seq<T> {
    if xs == [] then [] else Insert(le, xs[0], Sort(le, xs[1..]))
  }

  ghost predicate TotalPreorder<T(!new)>(le: (T, T) -> bool) {
    && (forall x, y :: le(x, y) || le(y, x))
    && (forall x, y, z :: le(x, y) && le(y, z) ==> le(x, z))
  }

  ghost predicate SortedBy<T>(le: (T, T) -> bool, xs: seq<T>) {
    forall i, j :: 0 <= i < j < |xs| ==> le(xs[i], xs[j])
  }

  function Filter<T>(p: T -> bool, xs: seq<T>): seq<T> {
    if xs == [] then [] else (if p(xs[0]) then [xs[0]] else []) + Filter(p, xs[1..])
  }

  lemma {:induction false} InsertSorts<T(!new)>(le: (T, T) -> bool, x: T, xs: seq<T>)
    requires TotalPreorder(le) && SortedBy(le, xs)
    ensures SortedBy(le, Insert(le, x, xs))
    ensures multiset(Insert(le, x, xs)) == multiset(xs) + multiset{x}
    decreases |xs|
  {
    if xs == [] {
    } else if le(x, xs[0]) {
      assert forall y <- xs :: le(x, y);
      Prepend(le, x, xs);
    } else {
      var rest := xs[1..];
      assert xs == [xs[0]] + rest;
      InsertSorts(le, x, rest);
      var later := Insert(le, x, rest);
      forall y | y in later ensures le(xs[0], y) {
        assert y in multiset(later);
        assert y == x || y in multiset(rest);
      }
      Prepend(le, xs[0], later);
    }
  }

  lemma Prepend<T>(le: (T, T) -> bool, x: T, xs: seq<T>)
    requires SortedBy(le, xs) && forall y <- xs :: le(x, y)
    ensures SortedBy(le, [x] + xs)
  {
    var all := [x] + xs;
    forall i, j | 0 <= i < j < |all| ensures le(all[i], all[j]) {
      if i > 0 {
        assert all[i] == xs[i - 1] && all[j] == xs[j - 1];
      } else {
        assert all[j] == xs[j - 1] && xs[j - 1] in xs;
      }
    }
  }

  /** The sort is an ordered permutation. */
  lemma {:induction false} SortSorts<T(!new)>(le: (T, T) -> bool, xs: seq<T>)
    requires TotalPreorder(le)
    ensures SortedBy(le, Sort(le, xs))
    ensures multiset(Sort(le, xs)) == multiset(xs) && |Sort(le, xs)| == |xs|
  {
    if xs != [] {
      SortSorts(le, xs[1..]);
      InsertSorts(le, xs[0], Sort(le, xs[1..]));
      assert xs == [xs[0]] + xs[1..];
      assert |multiset(Sort(le, xs))| == |Sort(le, xs)|;
    }
  }

  lemma {:induction false} InsertStable<T(!new)>(le: (T, T) -> bool, p: T -> bool, x: T, xs: seq<T>)
    requires forall y, z :: p(y) && p(z) ==> le(y, z)
    ensures Filter(p, Insert(le, x, xs)) == (if p(x) then [x] else []) + Filter(p, xs)
    decreases |xs|
  {
    hide Filter;
    assert [] + Filter(p, xs) == Filter(p, xs);
    if xs == [] || le(x, xs[0]) {
      FilterFirst(p, x, xs);
    } else {
      var later := Insert(le, x, xs[1..]);
      InsertStable(le, p, x, xs[1..]);
      FilterFirst(p, xs[0], later);
      FilterFirst(p, xs[0], xs[1..]);
      assert xs == [xs[0]] + xs[1..];
      assert !(p(x) && p(xs[0]));
    }
  }

  lemma FilterFirst<T>(p: T -> bool, x: T, xs: seq<T>)
    ensures Filter(p, [x] + xs) == if p(x) then [x] + Filter(p, xs) else Filter(p, xs)
  {
    assert ([x] + xs)[1..] == xs;
    assert [] + Filter(p, xs) == Filter(p, xs);
  }

  /** Elements the order does not tell apart keep their places relative to each other. */
  lemma {:induction false} SortStable<T(!new)>(le: (T, T) -> bool, p: T -> bool, xs: seq<T>)
    requires forall y, z :: p(y) && p(z) ==> le(y, z)
    ensures Filter(p, Sort(le, xs)) == Filter(p, xs)
  {
    if xs != [] {
      SortStable(le, p, xs[1..]);
      InsertStable(le, p, xs[0], Sort(le, xs[1..]));
    }
  }

  lemma TwoOccurrences<T>(s: seq<T>, j: nat, k: nat)
    requires j < k < |s|
    ensures s[j] == s[k] ==> multiset(s)[s[j]] >= 2
  {
    assert s == s[..k] + [s[k]] + s[k + 1..];
    assert s[..k][j] in multiset(s[..k]);
  }

  lemma OneOccurrence<T>(s: seq<T>, x: nat)
    requires x < |s| && forall j :: 0 <= j < |s| && j != x ==> s[j] != s[x]
    ensures multiset(s)[s[x]] == 1
  {
    assert s == s[..x] + [s[x]] + s[x + 1..];
    assert s[x] !in multiset(s[..x]);
    assert s[x] !in multiset(s[x + 1..]);
  }
}
