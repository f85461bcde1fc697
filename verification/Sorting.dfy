/** The stable sort a list is reported in: by a number on each element, elements at one number
    staying in the order they were in. */
module Sorting {
  import opened Common

  function Insert<T>(sorted: seq<T>, x: T, at: T -> nat): seq<T> {
    if |sorted| == 0 || at(sorted[|sorted| - 1]) <= at(x) then sorted + [x]
    else Insert(sorted[..|sorted| - 1], x, at) + [sorted[|sorted| - 1]]
  }

  function InOrderOf<T>(s: seq<T>, at: T -> nat): seq<T> {
    if |s| == 0 then [] else Insert(InOrderOf(s[..|s| - 1], at), s[|s| - 1], at)
  }

  ghost predicate Sorted<T>(s: seq<T>, at: T -> nat) {
    forall i, j :: 0 <= i < j < |s| ==> at(s[i]) <= at(s[j])
  }

  lemma {:induction false} MemberSnoc<T(!new)>(s: seq<T>, x: T)
    ensures forall y :: y in s + [x] <==> y in s || y == x
  {
  }

  lemma {:induction false} InsertMembers<T(!new)>(sorted: seq<T>, x: T, at: T -> nat)
    ensures forall y :: y in Insert(sorted, x, at) <==> y in sorted || y == x
  {
    if |sorted| == 0 || at(sorted[|sorted| - 1]) <= at(x) {
      MemberSnoc(sorted, x);
    } else {
      var rest, last := sorted[..|sorted| - 1], sorted[|sorted| - 1];
      InsertMembers(rest, x, at);
      assert sorted == rest + [last];
      MemberSnoc(rest, last);
      MemberSnoc(Insert(rest, x, at), last);
    }
  }

  lemma {:induction false} InsertSum<T>(sorted: seq<T>, x: T, at: T -> nat, f: T -> int)
    ensures Sum(Insert(sorted, x, at), f) == Sum(sorted, f) + f(x)
  {
    if |sorted| == 0 || at(sorted[|sorted| - 1]) <= at(x) {
      SumSnoc(sorted, x, f);
    } else {
      InsertSum(sorted[..|sorted| - 1], x, at, f);
      SumSnoc(Insert(sorted[..|sorted| - 1], x, at), sorted[|sorted| - 1], f);
    }
  }

  lemma {:induction false} SortedSnoc<T(!new)>(s: seq<T>, last: T, at: T -> nat)
    requires Sorted(s, at) && forall x :: x in s ==> at(x) <= at(last)
    ensures Sorted(s + [last], at)
  {
    var r := s + [last];
    forall i, j | 0 <= i < j < |r| ensures at(r[i]) <= at(r[j]) {
      assert r[i] in s;
    }
  }

  lemma {:induction false} LastIsMost<T(!new)>(s: seq<T>, at: T -> nat, x: T)
    requires |s| > 0 && Sorted(s, at) && x in s
    ensures at(x) <= at(s[|s| - 1])
  {
  }

  lemma {:induction false} InsertBounded<T(!new)>(sorted: seq<T>, x: T, at: T -> nat, n: nat)
    requires at(x) <= n && forall y :: y in sorted ==> at(y) <= n
    ensures forall y :: y in Insert(sorted, x, at) ==> at(y) <= n
  {
    forall y | y in Insert(sorted, x, at) ensures at(y) <= n {
      InsertMembers(sorted, x, at);
      assert y in sorted || y == x;
    }
  }

  lemma {:induction false} InsertSorted<T(!new)>(sorted: seq<T>, x: T, at: T -> nat)
    requires Sorted(sorted, at)
    ensures Sorted(Insert(sorted, x, at), at)
  {
    if |sorted| == 0 {
    } else {
      var rest, last := sorted[..|sorted| - 1], sorted[|sorted| - 1];
      assert sorted == rest + [last];
      MemberSnoc(rest, last);
      forall y | y in sorted ensures at(y) <= at(last) {
        LastIsMost(sorted, at, y);
      }
      if at(last) <= at(x) {
        SortedSnoc(sorted, x, at);
      } else {
        InsertSorted(rest, x, at);
        InsertBounded(rest, x, at, at(last));
        SortedSnoc(Insert(rest, x, at), last, at);
      }
    }
  }

  lemma {:induction false} OrderSorted<T(!new)>(s: seq<T>, at: T -> nat)
    ensures Sorted(InOrderOf(s, at), at)
  {
    if |s| > 0 {
      OrderSorted(s[..|s| - 1], at);
      InsertSorted(InOrderOf(s[..|s| - 1], at), s[|s| - 1], at);
    }
  }

  lemma {:induction false} OrderMembers<T(!new)>(s: seq<T>, at: T -> nat)
    ensures forall x :: x in InOrderOf(s, at) <==> x in s
  {
    if |s| > 0 {
      var rest, last := s[..|s| - 1], s[|s| - 1];
      OrderMembers(rest, at);
      InsertMembers(InOrderOf(rest, at), last, at);
      assert s == rest + [last];
      MemberSnoc(rest, last);
    }
  }

  lemma {:induction false} OrderSum<T>(s: seq<T>, at: T -> nat, f: T -> int)
    ensures Sum(InOrderOf(s, at), f) == Sum(s, f)
  {
    if |s| > 0 {
      OrderSum(s[..|s| - 1], at, f);
      InsertSum(InOrderOf(s[..|s| - 1], at), s[|s| - 1], at, f);
    }
  }

  lemma {:induction false} InsertStable<T(!new)>(sorted: seq<T>, x: T, at: T -> nat, n: nat, here: T -> bool)
    requires forall y :: here(y) <==> at(y) == n
    ensures Filter(Insert(sorted, x, at), here) == Filter(sorted, here) + (if here(x) then [x] else [])
  {
    if |sorted| == 0 || at(sorted[|sorted| - 1]) <= at(x) {
      FilterSnoc(sorted, x, here);
    } else {
      var rest, last := sorted[..|sorted| - 1], sorted[|sorted| - 1];
      InsertStable(rest, x, at, n, here);
      FilterSnoc(Insert(rest, x, at), last, here);
    }
  }

  /** Sorting orders the elements by their numbers, and those at one number are the same, in the
      same order, as before. */
  lemma {:induction false} OrderStable<T(!new)>(s: seq<T>, at: T -> nat, n: nat, here: T -> bool)
    requires forall y :: here(y) <==> at(y) == n
    ensures Sorted(InOrderOf(s, at), at)
    ensures Filter(InOrderOf(s, at), here) == Filter(s, here)
  {
    OrderSorted(s, at);
    if |s| > 0 {
      var rest, last := s[..|s| - 1], s[|s| - 1];
      OrderStable(rest, at, n, here);
      InsertStable(InOrderOf(rest, at), last, at, n, here);
    }
  }
}
