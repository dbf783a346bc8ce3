/** Sorting by a caller's order, used wherever the operator publishes something in a fixed order. */
module Sorting {

  ghost predicate TotalOrder<T(!new)>(precedes: (T, T) -> bool) {
    && (forall a, b :: precedes(a, b) || precedes(b, a))
    && (forall a, b, c :: precedes(a, b) && precedes(b, c) ==> precedes(a, c))
  }

  ghost predicate Sorted<T>(s: seq<T>, precedes: (T, T) -> bool) {
    forall i, j | 0 <= i < j < |s| :: precedes(s[i], s[j])
  }

  function Insert<T>(s: seq<T>, x: T, precedes: (T, T) -> bool): seq<T> {
    if s == [] then [x]
    else if precedes(s[0], x) then [s[0]] + Insert(s[1..], x, precedes)
    else [x] + s
  }

  lemma {:induction false} InsertKeepsAll<T>(s: seq<T>, x: T, precedes: (T, T) -> bool)
    ensures multiset(Insert(s, x, precedes)) == multiset(s) + multiset{x}
  {
    if s != [] {
      assert s == [s[0]] + s[1..];
      InsertKeepsAll(s[1..], x, precedes);
    }
  }

  lemma {:induction false} InsertKeepsSorted<T(!new)>(s: seq<T>, x: T, precedes: (T, T) -> bool)
    requires TotalOrder(precedes) && Sorted(s, precedes)
    ensures Sorted(Insert(s, x, precedes), precedes)
  {
    if s != [] && precedes(s[0], x) {
      var rest := Insert(s[1..], x, precedes);
      InsertKeepsSorted(s[1..], x, precedes);
      InsertKeepsAll(s[1..], x, precedes);
      forall i | 0 <= i < |rest| ensures precedes(s[0], rest[i]) {
        assert rest[i] in multiset(rest);
        assert rest[i] == x || rest[i] in s[1..];
      }
    }
  }

  // The elements that tie with x, in the order they come.
  function Ties<T>(s: seq<T>, x: T, precedes: (T, T) -> bool): seq<T> {
    if s == [] then []
    else Tie(s[0], x, precedes) + Ties(s[1..], x, precedes)
  }

  function Tie<T>(y: T, x: T, precedes: (T, T) -> bool): seq<T> {
    if precedes(y, x) && precedes(x, y) then [y] else []
  }

  lemma {:induction false} TiesAppend<T>(s: seq<T>, y: T, x: T, precedes: (T, T) -> bool)
    ensures Ties(s + [y], x, precedes) == Ties(s, x, precedes) + Ties([y], x, precedes)
  {
    if s == [] {
      assert s + [y] == [y];
    } else {
      assert (s + [y])[1..] == s[1..] + [y];
      TiesAppend(s[1..], y, x, precedes);
    }
  }

  lemma {:induction false} NoTies<T>(s: seq<T>, x: T, precedes: (T, T) -> bool)
    requires forall i | 0 <= i < |s| :: !precedes(s[i], x)
    ensures Ties(s, x, precedes) == []
  {
    if s != [] { NoTies(s[1..], x, precedes); }
  }

  lemma {:induction false} InsertAfterTies<T(!new)>(s: seq<T>, y: T, x: T, precedes: (T, T) -> bool)
    requires TotalOrder(precedes) && Sorted(s, precedes)
    ensures Ties(Insert(s, y, precedes), x, precedes) == Ties(s, x, precedes) + Ties([y], x, precedes)
  {
    if s != [] && precedes(s[0], y) {
      var rest := Insert(s[1..], y, precedes);
      SortedRest(s, precedes);
      InsertAfterTies(s[1..], y, x, precedes);
      TiesOfMore(s[0], rest, x, precedes);
      Regroup(Tie(s[0], x, precedes), Ties(s[1..], x, precedes), Ties([y], x, precedes));
    } else if s != [] {
      TiesOfMore(y, s, x, precedes);
      TiesOfMore(y, [], x, precedes);
      assert [y] + [] == [y];
      if precedes(y, x) && precedes(x, y) { AllLater(s, y, x, precedes); }
    }
  }

  lemma TiesOfMore<T>(y: T, s: seq<T>, x: T, precedes: (T, T) -> bool)
    ensures Ties([y] + s, x, precedes) == Tie(y, x, precedes) + Ties(s, x, precedes)
  { assert ([y] + s)[1..] == s; }

  lemma Regroup<T>(a: seq<T>, b: seq<T>, c: seq<T>)
    ensures a + (b + c) == a + b + c
  {}

  lemma AllLater<T(!new)>(s: seq<T>, y: T, x: T, precedes: (T, T) -> bool)
    requires TotalOrder(precedes) && Sorted(s, precedes) && s != [] && !precedes(s[0], y) && precedes(x, y)
    ensures Ties(s, x, precedes) == []
  {
    forall i | 0 <= i < |s| ensures !precedes(s[i], x) { assert i > 0 ==> precedes(s[0], s[i]); }
    NoTies(s, x, precedes);
  }

  lemma SortedRest<T>(s: seq<T>, precedes: (T, T) -> bool)
    requires Sorted(s, precedes) && s != []
    ensures Sorted(s[1..], precedes)
  {}

  // Sorts by repeated insertion: the result is in order, holds exactly what was given, and leaves what
  // ties in the order it was given in.
  method SortBy<T(!new)>(s: seq<T>, precedes: (T, T) -> bool) returns (r: seq<T>)
    requires TotalOrder(precedes)
    ensures Sorted(r, precedes) && multiset(r) == multiset(s)
    ensures forall x :: Ties(r, x, precedes) == Ties(s, x, precedes)
  {
    r := [];
    for i := 0 to |s|
      invariant Sorted(r, precedes) && multiset(r) == multiset(s[..i])
      invariant forall x :: Ties(r, x, precedes) == Ties(s[..i], x, precedes)
    {
      assert s[..i + 1] == s[..i] + [s[i]];
      InsertKeepsAll(r, s[i], precedes);
      InsertKeepsSorted(r, s[i], precedes);
      forall x ensures Ties(Insert(r, s[i], precedes), x, precedes) == Ties(s[..i + 1], x, precedes) {
        InsertAfterTies(r, s[i], x, precedes);
        TiesAppend(s[..i], s[i], x, precedes);
      }
      r := Insert(r, s[i], precedes);
    }
    assert s[..|s|] == s;
  }

  // What one sequence has, the other has.
  lemma SameMembers<T>(r: seq<T>, s: seq<T>)
    requires multiset(r) == multiset(s)
    ensures |r| == |s|
    ensures forall x :: x in r <==> x in s
  {
    assert |multiset(r)| == |r| && |multiset(s)| == |s|;
    forall x ensures x in r <==> x in s {
      assert x in multiset(r) <==> x in r;
      assert x in multiset(s) <==> x in s;
    }
  }

  ghost predicate Distinct<T>(s: seq<T>) { forall i, j | 0 <= i < j < |s| :: s[i] != s[j] }

  lemma {:induction false} DistinctCounts<T>(s: seq<T>)
    ensures Distinct(s) <==> forall x :: multiset(s)[x] <= 1
  {
    if s != [] {
      var last := |s| - 1;
      var front := s[..last];
      assert s == front + [s[last]];
      DistinctCounts(front);
      assert s[last] in multiset(front) <==> s[last] in front;
      if Distinct(s) {
        assert Distinct(front);
        assert s[last] !in front;
      } else if Distinct(front) {
        var i :| 0 <= i < last && s[i] == s[last];
        assert front[i] == s[last];
        assert multiset(s)[s[last]] == multiset(front)[s[last]] + 1;
      } else {
        var x :| multiset(front)[x] > 1;
        assert multiset(s)[x] >= multiset(front)[x];
      }
    }
  }

  // Nothing is repeated by being put in another order.
  lemma PermutationDistinct<T>(r: seq<T>, s: seq<T>)
    requires multiset(r) == multiset(s) && Distinct(s)
    ensures Distinct(r)
  {
    DistinctCounts(r);
    DistinctCounts(s);
  }
}
