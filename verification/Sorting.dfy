/** Stable sorting (`sorted` and `list.sort`) and what its results have in common. */
module Sorting {

  function Insert<T>(x: T, s: seq<T>, leq: (T, T) -> bool): seq<T> {
    if s == [] then [x]
    else if leq(x, s[0]) then [x] + s
    else [s[0]] + Insert(x, s[1..], leq)
  }

  /** Elements that compare equal keep their order. */
  function SortBy<T>(s: seq<T>, leq: (T, T) -> bool): seq<T> {
    if s == [] then [] else Insert(s[0], SortBy(s[1..], leq), leq)
  }

  ghost predicate TotalPreorder<T(!new)>(leq: (T, T) -> bool) {
    && (forall x, y :: leq(x, y) || leq(y, x))
    && (forall x, y, z :: leq(x, y) && leq(y, z) ==> leq(x, z))
  }

  ghost predicate Ordered<T>(s: seq<T>, leq: (T, T) -> bool) {
    forall i, j | 0 <= i < j < |s| :: leq(s[i], s[j])
  }

  lemma {:induction false} InsertPermutes<T>(x: T, s: seq<T>, leq: (T, T) -> bool)
    ensures multiset(Insert(x, s, leq)) == multiset{x} + multiset(s)
  {
    if s != [] {
      assert s == [s[0]] + s[1..];
      if !leq(x, s[0]) { InsertPermutes(x, s[1..], leq); }
    }
  }

  lemma {:induction false} SortPermutes<T>(s: seq<T>, leq: (T, T) -> bool)
    ensures multiset(SortBy(s, leq)) == multiset(s) && |SortBy(s, leq)| == |s|
  {
    if s != [] {
      assert s == [s[0]] + s[1..];
      SortPermutes(s[1..], leq);
      InsertPermutes(s[0], SortBy(s[1..], leq), leq);
    }
    assert |multiset(SortBy(s, leq))| == |SortBy(s, leq)|;
  }

  lemma {:induction false} InsertOrders<T(!new)>(x: T, s: seq<T>, leq: (T, T) -> bool)
    requires TotalPreorder(leq) && Ordered(s, leq)
    ensures Ordered(Insert(x, s, leq), leq)
  {
    if s != [] && !leq(x, s[0]) {
      var rest := Insert(x, s[1..], leq);
      InsertOrders(x, s[1..], leq);
      InsertPermutes(x, s[1..], leq);
      forall j | 0 <= j < |rest| ensures leq(s[0], rest[j]) {
        assert rest[j] in multiset(rest);
        assert rest[j] == x || rest[j] in s[1..];
      }
    }
  }

  lemma {:induction false} SortOrders<T(!new)>(s: seq<T>, leq: (T, T) -> bool)
    requires TotalPreorder(leq)
    ensures Ordered(SortBy(s, leq), leq)
  {
    if s != [] {
      SortOrders(s[1..], leq);
      InsertOrders(s[0], SortBy(s[1..], leq), leq);
    }
  }

  /** A stable sort leaves a sorted list alone. */
  lemma {:induction false} SortKeepsOrdered<T>(s: seq<T>, leq: (T, T) -> bool)
    requires Ordered(s, leq)
    ensures SortBy(s, leq) == s
  {
    if s != [] { SortKeepsOrdered(s[1..], leq); }
  }

  /** The elements that tie with `x`, in order. */
  function Ties<T>(s: seq<T>, x: T, leq: (T, T) -> bool): seq<T> {
    if s == [] then [] else
    (if leq(s[0], x) && leq(x, s[0]) then [s[0]] else []) + Ties(s[1..], x, leq)
  }

  lemma TiesCons<T>(y: T, s: seq<T>, x: T, leq: (T, T) -> bool)
    ensures Ties([y] + s, x, leq) == (if leq(y, x) && leq(x, y) then [y] else []) + Ties(s, x, leq)
  {
    assert ([y] + s)[1..] == s;
  }

  lemma {:induction false} InsertStable<T(!new)>(y: T, s: seq<T>, x: T, leq: (T, T) -> bool)
    requires TotalPreorder(leq)
    ensures Ties(Insert(y, s, leq), x, leq) == (if leq(y, x) && leq(x, y) then [y] else []) + Ties(s, x, leq)
  {
    TiesCons(y, s, x, leq);
    if s != [] && !leq(y, s[0]) {
      assert !(leq(y, x) && leq(x, y)) || !(leq(s[0], x) && leq(x, s[0]));
      InsertStable(y, s[1..], x, leq);
      TiesCons(s[0], Insert(y, s[1..], leq), x, leq);
    }
  }

  /** Sorting is stable: elements that tie keep their order. */
  lemma {:induction false} SortStable<T(!new)>(s: seq<T>, x: T, leq: (T, T) -> bool)
    requires TotalPreorder(leq)
    ensures Ties(SortBy(s, leq), x, leq) == Ties(s, x, leq)
  {
    if s != [] {
      SortStable(s[1..], x, leq);
      InsertStable(s[0], SortBy(s[1..], leq), x, leq);
    }
  }

  lemma HeadsAgree<T>(s: seq<T>, t: seq<T>, leq: (T, T) -> bool)
    requires s != [] && t != [] && Ordered(s, leq) && Ordered(t, leq)
    requires t[0] in s && s[0] in t && Antisymmetric(s, leq)
    ensures s[0] == t[0]
  {
  }

  /** No two different elements tie. */
  ghost predicate Antisymmetric<T>(s: seq<T>, leq: (T, T) -> bool) {
    forall x, y | x in s && y in s && leq(x, y) && leq(y, x) :: x == y
  }

  lemma SameLength<T>(s: seq<T>, t: seq<T>)
    requires multiset(s) == multiset(t)
    ensures |s| == |t|
  {
    assert |multiset(s)| == |s| && |multiset(t)| == |t|;
  }

  lemma TailsMatch<T>(s: seq<T>, t: seq<T>)
    requires s != [] && t != [] && s[0] == t[0] && multiset(s) == multiset(t)
    ensures multiset(s[1..]) == multiset(t[1..])
  {
    assert s == [s[0]] + s[1..] && t == [t[0]] + t[1..];
    assert multiset(s[1..]) == multiset(s) - multiset{s[0]};
    assert multiset(t[1..]) == multiset(t) - multiset{t[0]};
  }

  /** A sorted list is determined by its elements when no two of them tie. */
  lemma {:induction false} OrderedUnique<T>(s: seq<T>, t: seq<T>, leq: (T, T) -> bool)
    requires Ordered(s, leq) && Ordered(t, leq) && multiset(s) == multiset(t)
    requires Antisymmetric(s, leq)
    ensures s == t
  {
    SameLength(s, t);
    if s != [] {
      assert s[0] in multiset(t) && t[0] in multiset(s);
      HeadsAgree(s, t, leq);
      TailsMatch(s, t);
      OrderedUnique(s[1..], t[1..], leq);
      assert s == [s[0]] + s[1..] && t == [t[0]] + t[1..];
    }
  }

  /** The head of a stable sort is the first of the least elements. */
  lemma {:induction false} SortHeadIsFirstLeast<T(!new)>(s: seq<T>, leq: (T, T) -> bool) returns (i: nat)
    requires s != [] && TotalPreorder(leq)
    ensures i < |s| && SortBy(s, leq) != [] && SortBy(s, leq)[0] == s[i]
    ensures forall j | 0 <= j < |s| :: leq(s[i], s[j])
    ensures forall j | 0 <= j < i :: !leq(s[j], s[i])
  {
    i := 0;
    if |s| > 1 {
      var k := SortHeadIsFirstLeast(s[1..], leq);
      assert forall j | 0 < j < |s| :: s[j] == s[1..][j - 1];
      if !leq(s[0], s[k + 1]) { i := k + 1; }
    }
  }

  ghost predicate Distinct<T>(s: seq<T>) {
    forall i, j | 0 <= i < j < |s| :: s[i] != s[j]
  }

  lemma SortMembers<T>(s: seq<T>, leq: (T, T) -> bool, x: T)
    ensures x in SortBy(s, leq) <==> x in s
  {
    SortPermutes(s, leq);
    assert x in multiset(SortBy(s, leq)) <==> x in multiset(s);
  }

  lemma {:induction false} InsertDistinct<T>(x: T, s: seq<T>, leq: (T, T) -> bool)
    requires Distinct(s) && x !in s
    ensures Distinct(Insert(x, s, leq))
    ensures forall y :: y in Insert(x, s, leq) <==> y == x || y in s
  {
    if s != [] && !leq(x, s[0]) {
      var rest := Insert(x, s[1..], leq);
      InsertDistinct(x, s[1..], leq);
      assert s == [s[0]] + s[1..] && s[0] in s;
      forall j | 0 <= j < |rest| ensures rest[j] != s[0] {
        assert rest[j] in rest;
        if rest[j] in s[1..] {
          var k :| 0 <= k < |s| - 1 && s[1..][k] == rest[j];
          assert s[k + 1] == rest[j];
        }
      }
    }
  }

  /** Sorting does not duplicate anything. */
  lemma {:induction false} SortDistinct<T>(s: seq<T>, leq: (T, T) -> bool)
    requires Distinct(s)
    ensures Distinct(SortBy(s, leq))
  {
    if s != [] {
      SortDistinct(s[1..], leq);
      SortMembers(s[1..], leq, s[0]);
      InsertDistinct(s[0], SortBy(s[1..], leq), leq);
    }
  }

  function Sum<T>(s: seq<T>, weight: T -> real): real {
    if s == [] then 0.0 else weight(s[0]) + Sum(s[1..], weight)
  }

  lemma {:induction false} SumAppend<T>(s: seq<T>, t: seq<T>, weight: T -> real)
    ensures Sum(s + t, weight) == Sum(s, weight) + Sum(t, weight)
  {
    if s == [] {
      assert s + t == t;
    } else {
      assert (s + t)[1..] == s[1..] + t;
      SumAppend(s[1..], t, weight);
    }
  }

  lemma {:induction false} SumInsert<T>(x: T, s: seq<T>, leq: (T, T) -> bool, weight: T -> real)
    ensures Sum(Insert(x, s, leq), weight) == weight(x) + Sum(s, weight)
  {
    if s != [] {
      if leq(x, s[0]) {
        assert ([x] + s)[1..] == s;
      } else {
        var rest := Insert(x, s[1..], leq);
        assert ([s[0]] + rest)[1..] == rest;
        SumInsert(x, s[1..], leq, weight);
      }
    }
  }

  /** Sorting moves nothing in or out of a total. */
  lemma {:induction false} SumSort<T>(s: seq<T>, leq: (T, T) -> bool, weight: T -> real)
    ensures Sum(SortBy(s, leq), weight) == Sum(s, weight)
  {
    if s != [] {
      SumSort(s[1..], leq, weight);
      SumInsert(s[0], SortBy(s[1..], leq), leq, weight);
    }
  }
}
