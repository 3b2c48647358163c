/** Stable sorting by insertion, as the reference for `sort_by`, for `ORDER BY` and for Python's `sort`. */
module Sorting {

  /** Puts x in front of the first element it goes before. */
  function Insert<T>(x: T, s: seq<T>, goesBefore: (T, T) -> bool): (r: seq<T>)
    ensures multiset(r) == multiset(s) + multiset{x}
  {
    if s == [] || goesBefore(x, s[0]) then [x] + s
    else
      assert s == [s[0]] + s[1..];
      [s[0]] + Insert(x, s[1..], goesBefore)
  }

  /** Stable when `goesBefore` holds of equal keys. */
  function Sort<T>(s: seq<T>, goesBefore: (T, T) -> bool): (r: seq<T>)
    ensures multiset(r) == multiset(s) && |r| == |s|
  {
    if s == [] then []
    else
      assert s == [s[0]] + s[1..];
      var r := Insert(s[0], Sort(s[1..], goesBefore), goesBefore);
      assert |multiset(r)| == |multiset(s)|;
      r
  }

  ghost predicate Ordered<T>(s: seq<T>, related: (T, T) -> bool) {
    forall i, j :: 0 <= i < j < |s| ==> related(s[i], s[j])
  }

  lemma InsertMember<T>(x: T, s: seq<T>, goesBefore: (T, T) -> bool, y: T)
    ensures y in Insert(x, s, goesBefore) <==> y == x || y in s
  {
    assert y in Insert(x, s, goesBefore) <==> y in multiset(Insert(x, s, goesBefore));
  }

  lemma SortMember<T>(s: seq<T>, goesBefore: (T, T) -> bool, y: T)
    ensures y in Sort(s, goesBefore) <==> y in s
  {
    assert y in Sort(s, goesBefore) <==> y in multiset(Sort(s, goesBefore));
  }

  lemma OrderedCons<T>(x: T, s: seq<T>, related: (T, T) -> bool)
    requires Ordered(s, related) && forall y :: y in s ==> related(x, y)
    ensures Ordered([x] + s, related)
  {
    var r := [x] + s;
    assert forall j :: 1 <= j < |r| ==> r[j] == s[j - 1];
  }

  /** Insertion keeps the order, if `goesBefore` tells on which side of each element x belongs. */
  lemma {:induction false} InsertOrdered<T>(x: T, s: seq<T>, goesBefore: (T, T) -> bool, related: (T, T) -> bool)
    requires Ordered(s, related)
    requires forall y :: y in s ==> if goesBefore(x, y) then related(x, y) else related(y, x)
    requires forall y, z :: y in s && z in s && related(x, y) && related(y, z) ==> related(x, z)
    ensures Ordered(Insert(x, s, goesBefore), related)
  {
    if s != [] {
      if goesBefore(x, s[0]) {
        forall y | y in s
          ensures related(x, y)
        {
          var j :| 0 <= j < |s| && s[j] == y;
          if j > 0 { assert related(s[0], s[j]); }
        }
        OrderedCons(x, s, related);
      } else {
        var rest := Insert(x, s[1..], goesBefore);
        InsertOrdered(x, s[1..], goesBefore, related);
        forall y | y in rest
          ensures related(s[0], y)
        {
          InsertMember(x, s[1..], goesBefore, y);
        }
        OrderedCons(s[0], rest, related);
      }
    }
  }

  // ---------- Stability ----------

  function Chosen<T(!new)>(s: seq<T>, p: T -> bool): (r: seq<T>)
    ensures forall x :: x in r <==> x in s && p(x)
  {
    if s == [] then []
    else
      assert s == [s[0]] + s[1..];
      if p(s[0]) then [s[0]] + Chosen(s[1..], p) else Chosen(s[1..], p)
  }

  /** Elements that may go before one another. */
  ghost predicate Tied<T(!new)>(s: seq<T>, goesBefore: (T, T) -> bool, p: T -> bool) {
    forall x, y :: x in s && y in s && p(x) && p(y) ==> goesBefore(x, y)
  }

  lemma {:induction false} InsertStable<T(!new)>(x: T, s: seq<T>, goesBefore: (T, T) -> bool, p: T -> bool)
    requires p(x) ==> forall y :: y in s && p(y) ==> goesBefore(x, y)
    ensures Chosen(Insert(x, s, goesBefore), p) == if p(x) then [x] + Chosen(s, p) else Chosen(s, p)
  {
    if s == [] || goesBefore(x, s[0]) {
      assert ([x] + s)[1..] == s;
    } else {
      var rest := Insert(x, s[1..], goesBefore);
      assert ([s[0]] + rest)[1..] == rest;
      InsertStable(x, s[1..], goesBefore, p);
    }
  }

  /** Sorting keeps the order of elements that are tied. */
  lemma {:induction false} SortStable<T(!new)>(s: seq<T>, goesBefore: (T, T) -> bool, p: T -> bool)
    requires Tied(s, goesBefore, p)
    ensures Chosen(Sort(s, goesBefore), p) == Chosen(s, p)
  {
    if s != [] {
      SortStable(s[1..], goesBefore, p);
      forall y | y in Sort(s[1..], goesBefore) && p(y) && p(s[0])
        ensures goesBefore(s[0], y)
      {
        SortMember(s[1..], goesBefore, y);
      }
      InsertStable(s[0], Sort(s[1..], goesBefore), goesBefore, p);
    }
  }
}
