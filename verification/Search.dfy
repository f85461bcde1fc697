/** Which of the items a line quotes, and paid how, come to exactly its amount. */
module Search {
  import opened Common
  import opened Terms

  /** One way of paying an item: what was sent, and the discount taken, if one was. */
  datatype Way = Way(paid: int, discount: Option<Discount>)

  /** One item of a reading of the line. */
  datatype Taken<+T> = Taken(what: T, discount: Option<Discount>)

  /** Whole, always; and net of its discount where one is offered. */
  function WaysOf(owed: int, offered: Option<Discount>): (r: seq<Way>) {
    [Way(owed, None)] + (match offered
      case Some(d) => [Way(owed - d.available, Some(d))]
      case None => [])
  }

  // ----- the pruned search, as it runs -----

  function Hits<T>(quoted: seq<T>, ways: seq<seq<Way>>, wanted: int, index: nat, total: int,
                   chosen: seq<Taken<T>>): seq<seq<Taken<T>>>
    requires |ways| == |quoted| && index <= |quoted|
    decreases |quoted| - index, 1, 0
  {
    if total > wanted then []
    else if index == |quoted| then
      (if chosen != [] && total == wanted then [chosen] else [])
    else
      Hits(quoted, ways, wanted, index + 1, total, chosen)
      + HitsFrom(quoted, ways, wanted, index, total, chosen, |ways[index]|)
  }

  /** The hits under the first `k` ways of paying item `index`. */
  function HitsFrom<T>(quoted: seq<T>, ways: seq<seq<Way>>, wanted: int, index: nat, total: int,
                       chosen: seq<Taken<T>>, k: nat): seq<seq<Taken<T>>>
    requires |ways| == |quoted| && index < |quoted| && k <= |ways[index]|
    decreases |quoted| - index, 0, k
  {
    if k == 0 then []
    else
      var way := ways[index][k - 1];
      HitsFrom(quoted, ways, wanted, index, total, chosen, k - 1)
      + Hits(quoted, ways, wanted, index + 1, total + way.paid,
             chosen + [Taken(quoted[index], way.discount)])
  }

  method SearchFrom<T>(quoted: seq<T>, ways: seq<seq<Way>>, wanted: int, index: nat, total: int,
                       chosen: seq<Taken<T>>, found: seq<seq<Taken<T>>>)
    returns (found': seq<seq<Taken<T>>>)
    requires |ways| == |quoted| && index <= |quoted|
    ensures found' == found + Hits(quoted, ways, wanted, index, total, chosen)
    decreases |quoted| - index
  {
    if total > wanted {
      return found;
    }
    if index == |quoted| {
      if |chosen| > 0 && total == wanted {
        return found + [chosen];
      }
      return found;
    }
    found' := SearchFrom(quoted, ways, wanted, index + 1, total, chosen, found);
    ghost var skipped := found';
    for k := 0 to |ways[index]|
      invariant found' == skipped + HitsFrom(quoted, ways, wanted, index, total, chosen, k)
    {
      var way := ways[index][k];
      var more := chosen + [Taken(quoted[index], way.discount)];
      found' := SearchFrom(quoted, ways, wanted, index + 1, total + way.paid, more, found');
      Appended(skipped, HitsFrom(quoted, ways, wanted, index, total, chosen, k),
               Hits(quoted, ways, wanted, index + 1, total + way.paid, more));
    }
    Appended(found, Hits(quoted, ways, wanted, index + 1, total, chosen),
             HitsFrom(quoted, ways, wanted, index, total, chosen, |ways[index]|));
  }

  lemma {:induction false} Appended<T>(r: seq<T>, s: seq<T>, t: seq<T>)
    ensures (r + s) + t == r + (s + t)
  {
  }

  /** Every reading of the line that comes to exactly `wanted`. */
  function ReadingsSummingTo<T>(quoted: seq<T>, ways: seq<seq<Way>>, wanted: int): seq<seq<Taken<T>>>
    requires |ways| == |quoted|
  {
    Hits(quoted, ways, wanted, 0, 0, [])
  }

  // ----- what a reading is, without the search -----

  /** A choice from `index` on: 0 leaves an item out, `k` takes its way `k - 1`. */
  ghost predicate ValidChoice(ways: seq<seq<Way>>, c: seq<nat>, index: nat)
    requires index <= |ways|
  {
    |c| == |ways| - index && forall i :: 0 <= i < |c| ==> c[i] <= |ways[index + i]|
  }

  ghost function Reading<T>(quoted: seq<T>, ways: seq<seq<Way>>, c: seq<nat>, index: nat): seq<Taken<T>>
    requires |ways| == |quoted| && index <= |ways| && ValidChoice(ways, c, index)
    decreases |c|
  {
    if c == [] then []
    else
      (if c[0] == 0 then [] else [Taken(quoted[index], ways[index][c[0] - 1].discount)])
      + Reading(quoted, ways, c[1..], index + 1)
  }

  ghost function Paid(ways: seq<seq<Way>>, c: seq<nat>, index: nat): int
    requires index <= |ways| && ValidChoice(ways, c, index)
    decreases |c|
  {
    if c == [] then 0
    else (if c[0] == 0 then 0 else ways[index][c[0] - 1].paid) + Paid(ways, c[1..], index + 1)
  }

  ghost predicate NothingNegative(ways: seq<seq<Way>>) {
    forall i, k :: 0 <= i < |ways| && 0 <= k < |ways[i]| ==> ways[i][k].paid >= 0
  }

  lemma {:induction false} PaidNonNegative(ways: seq<seq<Way>>, c: seq<nat>, index: nat)
    requires index <= |ways| && ValidChoice(ways, c, index) && NothingNegative(ways)
    ensures Paid(ways, c, index) >= 0
    decreases |c|
  {
    if c != [] {
      PaidNonNegative(ways, c[1..], index + 1);
    }
  }

  /** Pruning loses nothing: every choice that comes to `wanted` is found. */
  lemma {:induction false} HitsComplete<T>(quoted: seq<T>, ways: seq<seq<Way>>, wanted: int, index: nat, total: int,
                                           chosen: seq<Taken<T>>, c: seq<nat>)
    requires |ways| == |quoted| && index <= |quoted| && NothingNegative(ways)
    requires ValidChoice(ways, c, index)
    requires total + Paid(ways, c, index) == wanted
    requires chosen + Reading(quoted, ways, c, index) != []
    ensures chosen + Reading(quoted, ways, c, index) in Hits(quoted, ways, wanted, index, total, chosen)
    decreases |quoted| - index
  {
    PaidNonNegative(ways, c, index);
    if c == [] {
      assert chosen + [] == chosen;
    } else if c[0] == 0 {
      assert Reading(quoted, ways, c, index) == Reading(quoted, ways, c[1..], index + 1);
      HitsComplete(quoted, ways, wanted, index + 1, total, chosen, c[1..]);
    } else {
      var way := ways[index][c[0] - 1];
      var more := chosen + [Taken(quoted[index], way.discount)];
      assert chosen + Reading(quoted, ways, c, index) == more + Reading(quoted, ways, c[1..], index + 1);
      HitsComplete(quoted, ways, wanted, index + 1, total + way.paid, more, c[1..]);
      HitsFromGrow(quoted, ways, wanted, index, total, chosen, c[0], |ways[index]|);
    }
  }

  lemma {:induction false} HitsFromGrow<T>(quoted: seq<T>, ways: seq<seq<Way>>, wanted: int, index: nat, total: int,
                                           chosen: seq<Taken<T>>, k: nat, n: nat)
    requires |ways| == |quoted| && index < |quoted| && k <= n <= |ways[index]|
    ensures forall r :: r in HitsFrom(quoted, ways, wanted, index, total, chosen, k)
                    ==> r in HitsFrom(quoted, ways, wanted, index, total, chosen, n)
    decreases n
  {
    if k < n {
      HitsFromGrow(quoted, ways, wanted, index, total, chosen, k, n - 1);
    }
  }

  /** Nothing else is found: each hit is the reading of a choice that comes to `wanted`. */
  lemma {:induction false} HitsSound<T>(quoted: seq<T>, ways: seq<seq<Way>>, wanted: int, index: nat, total: int,
                                        chosen: seq<Taken<T>>, r: seq<Taken<T>>) returns (c: seq<nat>)
    requires |ways| == |quoted| && index <= |quoted|
    requires r in Hits(quoted, ways, wanted, index, total, chosen)
    ensures ValidChoice(ways, c, index)
    ensures r == chosen + Reading(quoted, ways, c, index) && r != []
    ensures total + Paid(ways, c, index) == wanted
    decreases |quoted| - index, 1, 0
  {
    if index == |quoted| {
      c := [];
      assert chosen + [] == chosen;
    } else if r in Hits(quoted, ways, wanted, index + 1, total, chosen) {
      var rest := HitsSound(quoted, ways, wanted, index + 1, total, chosen, r);
      c := [0] + rest;
      assert c[1..] == rest;
    } else {
      c := HitsFromSound(quoted, ways, wanted, index, total, chosen, |ways[index]|, r);
    }
  }

  lemma {:induction false} HitsFromSound<T>(quoted: seq<T>, ways: seq<seq<Way>>, wanted: int, index: nat, total: int,
                                            chosen: seq<Taken<T>>, k: nat, r: seq<Taken<T>>) returns (c: seq<nat>)
    requires |ways| == |quoted| && index < |quoted| && k <= |ways[index]|
    requires r in HitsFrom(quoted, ways, wanted, index, total, chosen, k)
    ensures ValidChoice(ways, c, index) && 0 < c[0] <= k
    ensures r == chosen + Reading(quoted, ways, c, index) && r != []
    ensures total + Paid(ways, c, index) == wanted
    decreases |quoted| - index, 0, k
  {
    if r in HitsFrom(quoted, ways, wanted, index, total, chosen, k - 1) {
      c := HitsFromSound(quoted, ways, wanted, index, total, chosen, k - 1, r);
    } else {
      var way := ways[index][k - 1];
      var more := chosen + [Taken(quoted[index], way.discount)];
      var rest := HitsSound(quoted, ways, wanted, index + 1, total + way.paid, more, r);
      c := [k] + rest;
      assert c[1..] == rest;
    }
  }

  /** The search is exact: a reading is found just when some choice gives it and comes to `wanted`. */
  lemma {:induction false} SearchIsExact<T>(quoted: seq<T>, ways: seq<seq<Way>>, wanted: int, r: seq<Taken<T>>)
    requires |ways| == |quoted| && NothingNegative(ways)
    ensures r in ReadingsSummingTo(quoted, ways, wanted)
       <==> r != [] && exists c: seq<nat> :: ValidChoice(ways, c, 0) && Reading(quoted, ways, c, 0) == r
                                           && Paid(ways, c, 0) == wanted
  {
    if r in ReadingsSummingTo(quoted, ways, wanted) {
      var c := HitsSound(quoted, ways, wanted, 0, 0, [], r);
      assert [] + Reading(quoted, ways, c, 0) == Reading(quoted, ways, c, 0);
    }
    forall c: seq<nat> | ValidChoice(ways, c, 0) && Reading(quoted, ways, c, 0) == r && r != [] && Paid(ways, c, 0) == wanted
      ensures r in ReadingsSummingTo(quoted, ways, wanted)
    {
      assert [] + r == r;
      HitsComplete(quoted, ways, wanted, 0, 0, [], c);
    }
  }

  // ----- no reading is found twice -----

  ghost predicate WaysTellApart(ways: seq<seq<Way>>) {
    forall i, k, l :: 0 <= i < |ways| && 0 <= k < l < |ways[i]| ==> ways[i][k].discount != ways[i][l].discount
  }

  ghost predicate StartsAt<T>(quoted: seq<T>, index: nat, n: nat, r: seq<Taken<T>>) {
    n <= |r| && (n < |r| ==> exists j :: index <= j < |quoted| && quoted[j] == r[n].what)
  }

  lemma {:induction false} ReadingStarts<T>(quoted: seq<T>, ways: seq<seq<Way>>, c: seq<nat>, index: nat)
    requires |ways| == |quoted| && index <= |ways| && ValidChoice(ways, c, index)
    ensures StartsAt(quoted, index, 0, Reading(quoted, ways, c, index))
    decreases |c|
  {
    if c != [] {
      ReadingStarts(quoted, ways, c[1..], index + 1);
      var r := Reading(quoted, ways, c, index);
      if c[0] != 0 {
        assert r[0] == Taken(quoted[index], ways[index][c[0] - 1].discount);
      } else {
        assert r == Reading(quoted, ways, c[1..], index + 1);
      }
    }
  }

  lemma {:induction false} HitsStart<T>(quoted: seq<T>, ways: seq<seq<Way>>, wanted: int, index: nat, total: int,
                     chosen: seq<Taken<T>>, r: seq<Taken<T>>)
    requires |ways| == |quoted| && index <= |quoted|
    requires r in Hits(quoted, ways, wanted, index, total, chosen)
    ensures StartsAt(quoted, index, |chosen|, r)
  {
    var c := HitsSound(quoted, ways, wanted, index, total, chosen, r);
    ReadingStarts(quoted, ways, c, index);
    var rest := Reading(quoted, ways, c, index);
    if |chosen| < |r| {
      assert r[|chosen|] == rest[0];
    }
  }

  lemma {:induction false} HitsFromStart<T>(quoted: seq<T>, ways: seq<seq<Way>>, wanted: int, index: nat, total: int,
                         chosen: seq<Taken<T>>, k: nat, r: seq<Taken<T>>)
    requires |ways| == |quoted| && index < |quoted| && k <= |ways[index]|
    requires r in HitsFrom(quoted, ways, wanted, index, total, chosen, k)
    ensures |chosen| < |r| && r[|chosen|].what == quoted[index]
    ensures exists l :: 0 <= l < k && r[|chosen|].discount == ways[index][l].discount
  {
    var c := HitsFromSound(quoted, ways, wanted, index, total, chosen, k, r);
    var rest := Reading(quoted, ways, c, index);
    assert rest[0] == Taken(quoted[index], ways[index][c[0] - 1].discount);
    assert r[|chosen|] == rest[0];
  }

  lemma {:induction false} DistinctAppend<T>(s: seq<T>, t: seq<T>)
    requires Distinct(s) && Distinct(t)
    requires forall x :: x in s ==> x !in t
    ensures Distinct(s + t)
  {
    var u := s + t;
    forall i, j | 0 <= i < j < |u| ensures u[i] != u[j] {
      if i < |s| <= j {
        assert u[i] in s && u[j] in t;
      }
    }
  }

  lemma {:induction false} HitsDistinct<T>(quoted: seq<T>, ways: seq<seq<Way>>, wanted: int, index: nat, total: int,
                                           chosen: seq<Taken<T>>)
    requires |ways| == |quoted| && index <= |quoted| && Distinct(quoted) && WaysTellApart(ways)
    ensures Distinct(Hits(quoted, ways, wanted, index, total, chosen))
    decreases |quoted| - index, 1, 0
  {
    if total <= wanted && index < |quoted| {
      var n := |ways[index]|;
      var s := Hits(quoted, ways, wanted, index + 1, total, chosen);
      var t := HitsFrom(quoted, ways, wanted, index, total, chosen, n);
      HitsDistinct(quoted, ways, wanted, index + 1, total, chosen);
      HitsFromDistinct(quoted, ways, wanted, index, total, chosen, n);
      forall r | r in s ensures r !in t {
        HitsStart(quoted, ways, wanted, index + 1, total, chosen, r);
        if r in t {
          HitsFromStart(quoted, ways, wanted, index, total, chosen, n, r);
        }
      }
      DistinctAppend(s, t);
    }
  }

  lemma {:induction false} HitsFromDistinct<T>(quoted: seq<T>, ways: seq<seq<Way>>, wanted: int, index: nat,
                                               total: int, chosen: seq<Taken<T>>, k: nat)
    requires |ways| == |quoted| && index < |quoted| && k <= |ways[index]|
    requires Distinct(quoted) && WaysTellApart(ways)
    ensures Distinct(HitsFrom(quoted, ways, wanted, index, total, chosen, k))
    decreases |quoted| - index, 0, k
  {
    if k > 0 {
      var way := ways[index][k - 1];
      var more := chosen + [Taken(quoted[index], way.discount)];
      var s := HitsFrom(quoted, ways, wanted, index, total, chosen, k - 1);
      var t := Hits(quoted, ways, wanted, index + 1, total + way.paid, more);
      HitsFromDistinct(quoted, ways, wanted, index, total, chosen, k - 1);
      HitsDistinct(quoted, ways, wanted, index + 1, total + way.paid, more);
      forall r | r in t ensures r !in s {
        var c := HitsSound(quoted, ways, wanted, index + 1, total + way.paid, more, r);
        assert r[|chosen|] == more[|chosen|];
        if r in s {
          HitsFromStart(quoted, ways, wanted, index, total, chosen, k - 1, r);
        }
      }
      DistinctAppend(s, t);
    }
  }

  /** Nothing is found twice, where the items differ and an item's ways differ in their discount. */
  lemma {:induction false} SearchFindsOnce<T>(quoted: seq<T>, ways: seq<seq<Way>>, wanted: int)
    requires |ways| == |quoted| && Distinct(quoted) && WaysTellApart(ways)
    ensures Distinct(ReadingsSummingTo(quoted, ways, wanted))
  {
    HitsDistinct(quoted, ways, wanted, 0, 0, []);
  }

  // ----- how far the search can run -----

  /** The product the guard on the number of ways counts. */
  function WaysCount(ways: seq<seq<Way>>): nat {
    if |ways| == 0 then 1 else WaysCount(ways[..|ways| - 1]) * (1 + |ways[|ways| - 1]|)
  }

  ghost function WaysLeft(ways: seq<seq<Way>>, index: nat): nat
    requires index <= |ways|
    decreases |ways| - index
  {
    if index == |ways| then 1 else (1 + |ways[index]|) * WaysLeft(ways, index + 1)
  }

  lemma {:induction false} WaysLeftIsCount(ways: seq<seq<Way>>, n: nat)
    requires n <= |ways|
    ensures WaysCount(ways) == WaysCount(ways[..n]) * WaysLeft(ways, n)
    decreases |ways| - n
  {
    if n == |ways| {
      assert ways[..n] == ways;
    } else {
      WaysLeftIsCount(ways, n + 1);
      assert ways[..n + 1][..n] == ways[..n];
      Regrouped(WaysCount(ways[..n]), 1 + |ways[n]|, WaysLeft(ways, n + 1));
    }
  }

  lemma {:induction false} Regrouped(a: nat, b: nat, c: nat)
    ensures (a * b) * c == a * (b * c)
  {
  }

  /** The ends the search reaches: where it gives up, and where it has decided on every item. */
  ghost function Leaves(ways: seq<seq<Way>>, wanted: int, index: nat, total: int): nat
    requires index <= |ways|
    decreases |ways| - index, 1, 0
  {
    if total > wanted || index == |ways| then 1
    else Leaves(ways, wanted, index + 1, total) + LeavesFrom(ways, wanted, index, total, |ways[index]|)
  }

  ghost function LeavesFrom(ways: seq<seq<Way>>, wanted: int, index: nat, total: int, k: nat): nat
    requires index < |ways| && k <= |ways[index]|
    decreases |ways| - index, 0, k
  {
    if k == 0 then 0
    else LeavesFrom(ways, wanted, index, total, k - 1)
         + Leaves(ways, wanted, index + 1, total + ways[index][k - 1].paid)
  }

  lemma {:induction false} LeavesBounded(ways: seq<seq<Way>>, wanted: int, index: nat, total: int)
    requires index <= |ways|
    ensures 1 <= Leaves(ways, wanted, index, total) <= WaysLeft(ways, index)
    decreases |ways| - index, 1, 0
  {
    if index < |ways| {
      var n, rest := |ways[index]|, WaysLeft(ways, index + 1);
      LeavesBounded(ways, wanted, index + 1, total);
      LeavesFromBounded(ways, wanted, index, total, n);
      assert (1 + n) * rest == rest + n * rest;
      assert n * rest >= 0;
    }
  }

  lemma {:induction false} LeavesFromBounded(ways: seq<seq<Way>>, wanted: int, index: nat, total: int, k: nat)
    requires index < |ways| && k <= |ways[index]|
    ensures LeavesFrom(ways, wanted, index, total, k) <= k * WaysLeft(ways, index + 1)
    decreases |ways| - index, 0, k
  {
    if k > 0 {
      var rest := WaysLeft(ways, index + 1);
      LeavesFromBounded(ways, wanted, index, total, k - 1);
      LeavesBounded(ways, wanted, index + 1, total + ways[index][k - 1].paid);
      assert k * rest == (k - 1) * rest + rest;
    }
  }

  /** What the guard counts bounds the ends the search reaches. */
  lemma {:induction false} SearchIsBounded(ways: seq<seq<Way>>, wanted: int)
    ensures Leaves(ways, wanted, 0, 0) <= WaysCount(ways)
  {
    LeavesBounded(ways, wanted, 0, 0);
    WaysLeftIsCount(ways, 0);
  }

  // ----- sets, for the search without discounts -----

  function Pow2(n: nat): (r: nat)
    ensures r >= 1
  {
    if n == 0 then 1 else 2 * Pow2(n - 1)
  }

  /** The quoted items whose bit of `mask`, counted from item `index`, is set. */
  function SetOf<T>(quoted: seq<T>, index: nat, mask: nat): seq<T>
    requires index <= |quoted|
    decreases |quoted| - index
  {
    if index == |quoted| then []
    else (if mask % 2 == 1 then [quoted[index]] else []) + SetOf(quoted, index + 1, mask / 2)
  }

  /** The sets under the masks from 1 up to, not including, `masks` that come to `wanted`. */
  function SetsBelow<T>(quoted: seq<T>, amount: T -> int, wanted: int, masks: nat): seq<seq<T>> {
    if masks <= 1 then []
    else
      var chosen := SetOf(quoted, 0, masks - 1);
      SetsBelow(quoted, amount, wanted, masks - 1) + (if Sum(chosen, amount) == wanted then [chosen] else [])
  }

  function SetsSummingTo<T>(quoted: seq<T>, amount: T -> int, wanted: int): seq<seq<T>> {
    SetsBelow(quoted, amount, wanted, Pow2(|quoted|))
  }

  method EverySetSummingTo<T>(quoted: seq<T>, amount: T -> int, wanted: int) returns (found: seq<seq<T>>)
    ensures found == SetsSummingTo(quoted, amount, wanted)
  {
    found := [];
    var mask := 1;
    while mask < Pow2(|quoted|)
      invariant 1 <= mask
      invariant mask <= Pow2(|quoted|)
      invariant found == SetsBelow(quoted, amount, wanted, mask)
    {
      var chosen := SetOf(quoted, 0, mask);
      if Sum(chosen, amount) == wanted {
        found := found + [chosen];
      }
      mask := mask + 1;
    }
  }

  lemma {:induction false} SetsBelowSound<T>(quoted: seq<T>, amount: T -> int, wanted: int, masks: nat, s: seq<T>)
    returns (mask: nat)
    requires s in SetsBelow(quoted, amount, wanted, masks)
    ensures 1 <= mask < masks && SetOf(quoted, 0, mask) == s && Sum(s, amount) == wanted
  {
    hide SetOf, Sum;
    if s in SetsBelow(quoted, amount, wanted, masks - 1) {
      mask := SetsBelowSound(quoted, amount, wanted, masks - 1, s);
    } else {
      mask := masks - 1;
    }
  }

  lemma {:induction false} SetsBelowComplete<T>(quoted: seq<T>, amount: T -> int, wanted: int, masks: nat, mask: nat)
    requires 1 <= mask < masks && Sum(SetOf(quoted, 0, mask), amount) == wanted
    ensures SetOf(quoted, 0, mask) in SetsBelow(quoted, amount, wanted, masks)
  {
    if mask < masks - 1 {
      SetsBelowComplete(quoted, amount, wanted, masks - 1, mask);
    }
  }

  ghost function WholeWays<T>(quoted: seq<T>, amount: T -> int): (r: seq<seq<Way>>)
    ensures |r| == |quoted|
  {
    Map(quoted, x => WaysOf(amount(x), None))
  }

  ghost function InFull<T>(s: seq<T>): seq<Taken<T>> {
    seq(|s|, i requires 0 <= i < |s| => Taken(s[i], None))
  }

  /** A mask read as a choice of items paid whole. */
  ghost function ChoiceOf(n: nat, mask: nat): seq<nat> {
    if n == 0 then [] else [mask % 2] + ChoiceOf(n - 1, mask / 2)
  }

  ghost function MaskOf(c: seq<nat>): nat {
    if c == [] then 0 else (if c[0] == 0 then 0 else 1) + 2 * MaskOf(c[1..])
  }

  lemma {:induction false} SumCons<T>(x: T, s: seq<T>, f: T -> int)
    ensures Sum([x] + s, f) == f(x) + Sum(s, f)
  {
    SumAppend([x], s, f);
    SumSnoc([], x, f);
    assert [] + [x] == [x];
  }

  lemma {:induction false} ChoiceOfMask<T>(quoted: seq<T>, amount: T -> int, index: nat, mask: nat)
    requires index <= |quoted|
    ensures var ways, c := WholeWays(quoted, amount), ChoiceOf(|quoted| - index, mask);
      && ValidChoice(ways, c, index)
      && Reading(quoted, ways, c, index) == InFull(SetOf(quoted, index, mask))
      && Paid(ways, c, index) == Sum(SetOf(quoted, index, mask), amount)
    decreases |quoted| - index
  {
    hide Map;
    if index < |quoted| {
      var ways, c := WholeWays(quoted, amount), ChoiceOf(|quoted| - index, mask);
      ChoiceOfMask(quoted, amount, index + 1, mask / 2);
      assert c[1..] == ChoiceOf(|quoted| - (index + 1), mask / 2);
      var rest := SetOf(quoted, index + 1, mask / 2);
      if mask % 2 == 1 {
        SumCons(quoted[index], rest, amount);
        assert InFull([quoted[index]] + rest) == [Taken(quoted[index], None)] + InFull(rest);
      } else {
        assert SetOf(quoted, index, mask) == rest;
      }
    }
  }

  lemma {:induction false} MaskOfChoice<T>(quoted: seq<T>, amount: T -> int, c: seq<nat>, index: nat)
    requires index <= |quoted| && ValidChoice(WholeWays(quoted, amount), c, index)
    ensures MaskOf(c) < Pow2(|c|)
    ensures ChoiceOf(|c|, MaskOf(c)) == c
    decreases |c|
  {
    if c != [] {
      MaskOfChoice(quoted, amount, c[1..], index + 1);
      var m := MaskOf(c[1..]);
      assert c[0] <= 1;
      assert (c[0] + 2 * m) % 2 == c[0] && (c[0] + 2 * m) / 2 == m;
    }
  }

  lemma {:induction false} NoItems<T>(quoted: seq<T>, index: nat)
    requires index <= |quoted|
    ensures SetOf(quoted, index, 0) == []
    decreases |quoted| - index
  {
    if index < |quoted| {
      NoItems(quoted, index + 1);
    }
  }

  lemma {:induction false} SomeItem<T>(quoted: seq<T>, index: nat, mask: nat)
    requires index <= |quoted| && 0 < mask < Pow2(|quoted| - index)
    ensures SetOf(quoted, index, mask) != []
    decreases |quoted| - index
  {
    if mask % 2 == 0 {
      SomeItem(quoted, index + 1, mask / 2);
    }
  }

  lemma {:induction false} WholeWaysNonNegative<T>(quoted: seq<T>, amount: T -> int)
    requires forall x :: x in quoted ==> amount(x) >= 0
    ensures NothingNegative(WholeWays(quoted, amount))
  {
    var ways: seq<seq<Way>> := WholeWays(quoted, amount);
    forall i: int, k: int | 0 <= i < |ways| && 0 <= k < |ways[i]| ensures ways[i][k].paid >= 0 {
      assert quoted[i] in quoted;
    }
  }

  /** A set the masks find is, paid in full, a reading the search finds. */
  lemma {:induction false} SetIsReading<T>(quoted: seq<T>, amount: T -> int, wanted: int, s: seq<T>)
    requires (forall x :: x in quoted ==> amount(x) >= 0) && s in SetsSummingTo(quoted, amount, wanted)
    ensures InFull(s) in ReadingsSummingTo(quoted, WholeWays(quoted, amount), wanted)
  {
    hide Pow2, Hits, Reading, SetOf, Sum, NothingNegative, WaysOf, ValidChoice, Paid, ReadingsSummingTo;
    var ways: seq<seq<Way>> := WholeWays(quoted, amount);
    var mask := SetsBelowSound(quoted, amount, wanted, Pow2(|quoted|), s);
    ChoiceOfMask(quoted, amount, 0, mask);
    SomeItem(quoted, 0, mask);
    WholeWaysNonNegative(quoted, amount);
    assert |InFull(s)| == |s|;
    ChoiceFound(quoted, ways, wanted, ChoiceOf(|quoted| - 0, mask));
  }

  /** What a choice comes to is found. */
  lemma {:induction false} ChoiceFound<T>(quoted: seq<T>, ways: seq<seq<Way>>, wanted: int, c: seq<nat>)
    requires |ways| == |quoted| && NothingNegative(ways)
    requires ValidChoice(ways, c, 0) && Paid(ways, c, 0) == wanted && Reading(quoted, ways, c, 0) != []
    ensures Reading(quoted, ways, c, 0) in ReadingsSummingTo(quoted, ways, wanted)
  {
    hide Hits, NothingNegative, ReadingsSummingTo;
    SearchIsExact(quoted, ways, wanted, Reading(quoted, ways, c, 0));
  }

  /** A choice of items paid in full is a mask. */
  lemma {:induction false} WholeChoice<T>(quoted: seq<T>, amount: T -> int, wanted: int, c: seq<nat>)
    requires var ways: seq<seq<Way>> := WholeWays(quoted, amount); ValidChoice(ways, c, 0) && Paid(ways, c, 0) == wanted
    ensures var ways, s := WholeWays(quoted, amount), SetOf(quoted, 0, MaskOf(c));
      Reading(quoted, ways, c, 0) == InFull(s) && (s != [] ==> s in SetsSummingTo(quoted, amount, wanted))
  {
    hide Pow2, Reading, SetOf, Sum, NothingNegative, Paid, InFull, SetsBelow;
    MaskOfChoice(quoted, amount, c, 0);
    var mask := MaskOf(c);
    ChoiceOfMask(quoted, amount, 0, mask);
    if mask == 0 {
      NoItems(quoted, 0);
    } else {
      SetsBelowComplete(quoted, amount, wanted, Pow2(|quoted|), mask);
    }
  }

  /** And a reading all in full is a set. */
  lemma {:induction false} ReadingIsSet<T>(quoted: seq<T>, amount: T -> int, wanted: int, s: seq<T>)
    requires InFull(s) in ReadingsSummingTo(quoted, WholeWays(quoted, amount), wanted)
    ensures s in SetsSummingTo(quoted, amount, wanted)
  {
    hide Pow2, Hits, Reading, SetOf, Sum, NothingNegative, WaysOf, ValidChoice, Paid, SetsSummingTo;
    var ways: seq<seq<Way>> := WholeWays(quoted, amount);
    var c := HitsSound(quoted, ways, wanted, 0, 0, [], InFull(s));
    assert [] + Reading(quoted, ways, c, 0) == Reading(quoted, ways, c, 0);
    WholeChoice(quoted, amount, wanted, c);
    InFullInjective(s, SetOf(quoted, 0, MaskOf(c)));
    assert |InFull(s)| == |s|;
  }

  /** With no discounts on offer the readings are exactly the sets. */
  lemma {:induction false} SetsAreReadings<T>(quoted: seq<T>, amount: T -> int, wanted: int, s: seq<T>)
    requires forall x :: x in quoted ==> amount(x) >= 0
    ensures s in SetsSummingTo(quoted, amount, wanted)
       <==> InFull(s) in ReadingsSummingTo(quoted, WholeWays(quoted, amount), wanted)
  {
    hide *;
    if s in SetsSummingTo(quoted, amount, wanted) {
      SetIsReading(quoted, amount, wanted, s);
    }
    if InFull(s) in ReadingsSummingTo(quoted, WholeWays(quoted, amount), wanted) {
      ReadingIsSet(quoted, amount, wanted, s);
    }
  }

  lemma {:induction false} InFullInjective<T>(s: seq<T>, t: seq<T>)
    requires InFull(s) == InFull(t)
    ensures s == t
  {
    assert |s| == |t|;
    forall i | 0 <= i < |s| ensures s[i] == t[i] {
      assert InFull(s)[i] == InFull(t)[i];
    }
  }

  // ----- when the answer is the only one -----

  ghost predicate Chooses(c: seq<nat>) {
    exists i :: 0 <= i < |c| && c[i] != 0
  }

  /** A choice that takes something and comes to `wanted`. */
  ghost predicate Comes(ways: seq<seq<Way>>, wanted: int, c: seq<nat>) {
    ValidChoice(ways, c, 0) && Chooses(c) && Paid(ways, c, 0) == wanted
  }

  ghost predicate OnlyChoice(ways: seq<seq<Way>>, wanted: int, c: seq<nat>) {
    Comes(ways, wanted, c) && forall d: seq<nat> :: Comes(ways, wanted, d) ==> d == c
  }

  lemma {:induction false} SomethingRead<T>(quoted: seq<T>, ways: seq<seq<Way>>, c: seq<nat>, index: nat)
    requires |ways| == |quoted| && index <= |ways| && ValidChoice(ways, c, index)
    ensures Reading(quoted, ways, c, index) != [] <==> Chooses(c)
    decreases |c|
  {
    if c != [] {
      hide Chooses;
      SomethingRead(quoted, ways, c[1..], index + 1);
      ChoosesHeadOrTail(c);
      FirstRead(quoted, ways, c, index);
    }
  }

  lemma {:induction false} ChoosesHeadOrTail(c: seq<nat>)
    requires c != []
    ensures Chooses(c) <==> c[0] != 0 || Chooses(c[1..])
  {
    if Chooses(c[1..]) {
      var i :| 0 <= i < |c[1..]| && c[1..][i] != 0;
      assert c[i + 1] != 0;
    }
    if Chooses(c) && c[0] == 0 {
      var i :| 0 <= i < |c| && c[i] != 0;
      assert c[1..][i - 1] != 0;
    }
  }

  /** Nothing read later in the list is the item here. */
  lemma {:induction false} NotHere<T>(quoted: seq<T>, ways: seq<seq<Way>>, c: seq<nat>, index: nat)
    requires |ways| == |quoted| && index < |ways| && ValidChoice(ways, c, index + 1) && Distinct(quoted)
    ensures var r := Reading(quoted, ways, c, index + 1); r != [] ==> r[0].what != quoted[index]
  {
    ReadingStarts(quoted, ways, c, index + 1);
  }

  /** Different choices are different readings, where the items differ and an item's ways tell apart. */
  lemma {:induction false} ReadingInjective<T>(quoted: seq<T>, ways: seq<seq<Way>>, c: seq<nat>, d: seq<nat>, index: nat)
    requires |ways| == |quoted| && index <= |ways| && Distinct(quoted) && WaysTellApart(ways)
    requires ValidChoice(ways, c, index) && ValidChoice(ways, d, index)
    requires Reading(quoted, ways, c, index) == Reading(quoted, ways, d, index)
    ensures c == d
    decreases |c|
  {
    if c != [] {
      var r, s := Reading(quoted, ways, c[1..], index + 1), Reading(quoted, ways, d[1..], index + 1);
      hide Distinct;
      NotHere(quoted, ways, c[1..], index);
      NotHere(quoted, ways, d[1..], index);
      FirstRead(quoted, ways, c, index);
      FirstRead(quoted, ways, d, index);
      if c[0] != 0 && d[0] != 0 {
        assert ways[index][c[0] - 1].discount == ways[index][d[0] - 1].discount;
      }
      assert r == s;
      ReadingInjective(quoted, ways, c[1..], d[1..], index + 1);
      assert c == [c[0]] + c[1..] && d == [d[0]] + d[1..];
    }
  }

  lemma {:induction false} FirstRead<T>(quoted: seq<T>, ways: seq<seq<Way>>, c: seq<nat>, index: nat)
    requires |ways| == |quoted| && index < |ways| && ValidChoice(ways, c, index)
    ensures var r, rest := Reading(quoted, ways, c, index), Reading(quoted, ways, c[1..], index + 1);
      if c[0] == 0 then r == rest
      else r != [] && r[0] == Taken(quoted[index], ways[index][c[0] - 1].discount) && r[1..] == rest
  {
  }

  ghost predicate SearchOk<T(!new)>(quoted: seq<T>, ways: seq<seq<Way>>) {
    |ways| == |quoted| && Distinct(quoted) && NothingNegative(ways) && WaysTellApart(ways)
  }

  /** The readings found are those of the choices that come to `wanted`, one for each. */
  lemma {:induction false} ChoiceRead<T(!new)>(quoted: seq<T>, ways: seq<seq<Way>>, wanted: int, c: seq<nat>)
    requires SearchOk(quoted, ways) && Comes(ways, wanted, c)
    ensures Reading(quoted, ways, c, 0) in ReadingsSummingTo(quoted, ways, wanted)
  {
    hide Hits, Reading, Paid, NothingNegative, Chooses, Distinct, ReadingsSummingTo;
    SomethingRead(quoted, ways, c, 0);
    ChoiceFound(quoted, ways, wanted, c);
  }

  lemma {:induction false} ReadingChosen<T(!new)>(quoted: seq<T>, ways: seq<seq<Way>>, wanted: int, r: seq<Taken<T>>) returns (c: seq<nat>)
    requires SearchOk(quoted, ways) && r in ReadingsSummingTo(quoted, ways, wanted)
    ensures Comes(ways, wanted, c) && Reading(quoted, ways, c, 0) == r
  {
    hide Hits, Paid, Chooses, Distinct, NothingNegative, Reading;
    c := HitsSound(quoted, ways, wanted, 0, 0, [], r);
    assert [] + Reading(quoted, ways, c, 0) == Reading(quoted, ways, c, 0);
    SomethingRead(quoted, ways, c, 0);
  }

  lemma {:induction false} OneReading<T(!new)>(quoted: seq<T>, ways: seq<seq<Way>>, wanted: int, c: seq<nat>)
    requires SearchOk(quoted, ways) && OnlyChoice(ways, wanted, c)
    ensures ReadingsSummingTo(quoted, ways, wanted) == [Reading(quoted, ways, c, 0)]
  {
    hide Hits, Comes, Distinct, NothingNegative, ReadingsSummingTo, ValidChoice, Reading, WaysTellApart;
    var found := ReadingsSummingTo(quoted, ways, wanted);
    assert Comes(ways, wanted, c);
    ComesValid(ways, wanted, c);
    ChoiceRead(quoted, ways, wanted, c);
    SearchFindsOnce(quoted, ways, wanted);
    forall i | 0 <= i < |found| ensures found[i] == Reading(quoted, ways, c, 0) {
      var d := ReadingChosen(quoted, ways, wanted, found[i]);
    }
    OneOfAll(found, Reading(quoted, ways, c, 0));
  }

  lemma {:induction false} ComesValid(ways: seq<seq<Way>>, wanted: int, c: seq<nat>)
    requires Comes(ways, wanted, c)
    ensures ValidChoice(ways, c, 0)
  {
  }

  lemma {:induction false} OneOfAll<T>(s: seq<T>, x: T)
    requires Distinct(s) && x in s && forall i :: 0 <= i < |s| ==> s[i] == x
    ensures s == [x]
  {
    assert s[|s| - 1] == s[0];
  }

  lemma {:induction false} OnlyReading<T(!new)>(quoted: seq<T>, ways: seq<seq<Way>>, wanted: int) returns (c: seq<nat>)
    requires SearchOk(quoted, ways) && |ReadingsSummingTo(quoted, ways, wanted)| == 1
    ensures OnlyChoice(ways, wanted, c)
  {
    hide Hits, Comes, Distinct, NothingNegative, ReadingsSummingTo, ValidChoice, Reading, WaysTellApart;
    var found := ReadingsSummingTo(quoted, ways, wanted);
    c := ReadingChosen(quoted, ways, wanted, found[0]);
    forall d: seq<nat> | Comes(ways, wanted, d) ensures d == c {
      ComesValid(ways, wanted, c);
      ComesValid(ways, wanted, d);
      ChoiceRead(quoted, ways, wanted, d);
      ReadingInjective(quoted, ways, c, d, 0);
    }
  }

  /** One reading is found just when one choice comes to `wanted`, and it is that choice's; none just
      when no choice does. */
  lemma {:induction false} SearchAnswers<T(!new)>(quoted: seq<T>, ways: seq<seq<Way>>, wanted: int)
    requires SearchOk(quoted, ways)
    ensures var found := ReadingsSummingTo(quoted, ways, wanted);
      && (|found| == 1 <==> exists c: seq<nat> :: OnlyChoice(ways, wanted, c))
      && (forall c: seq<nat> :: OnlyChoice(ways, wanted, c) && ValidChoice(ways, c, 0) ==> found == [Reading(quoted, ways, c, 0)])
      && (found == [] <==> forall c: seq<nat> :: !Comes(ways, wanted, c))
  {
    hide Hits, Comes, Distinct, NothingNegative, ReadingsSummingTo, ValidChoice, Reading, WaysTellApart;
    var found := ReadingsSummingTo(quoted, ways, wanted);
    forall c: seq<nat> | OnlyChoice(ways, wanted, c) && ValidChoice(ways, c, 0) ensures found == [Reading(quoted, ways, c, 0)] {
      OneReading(quoted, ways, wanted, c);
    }
    if c: seq<nat> :| OnlyChoice(ways, wanted, c) {
      OneReading(quoted, ways, wanted, c);
    }
    if |found| == 1 {
      var c := OnlyReading(quoted, ways, wanted);
    }
    if found != [] {
      var c := ReadingChosen(quoted, ways, wanted, found[0]);
    }
    forall c: seq<nat> | Comes(ways, wanted, c) ensures found != [] {
      ComesValid(ways, wanted, c);
      ChoiceRead(quoted, ways, wanted, c);
    }
  }

  // ----- the same of the sets -----

  lemma {:induction false} SetMembers<T>(quoted: seq<T>, index: nat, mask: nat, x: T)
    requires index <= |quoted| && x in SetOf(quoted, index, mask)
    ensures exists j :: index <= j < |quoted| && quoted[j] == x
    decreases |quoted| - index
  {
    if x in SetOf(quoted, index + 1, mask / 2) {
      SetMembers(quoted, index + 1, mask / 2, x);
    }
  }

  lemma {:induction false} MasksTellApart<T>(quoted: seq<T>, index: nat, mask: nat, other: nat)
    requires index <= |quoted| && Distinct(quoted)
    requires mask < Pow2(|quoted| - index) && other < Pow2(|quoted| - index)
    requires SetOf(quoted, index, mask) == SetOf(quoted, index, other)
    ensures mask == other
    decreases |quoted| - index
  {
    if index < |quoted| {
      var s, t := SetOf(quoted, index + 1, mask / 2), SetOf(quoted, index + 1, other / 2);
      NotIn(quoted, index, mask / 2);
      NotIn(quoted, index, other / 2);
      HeadOf(quoted[index], mask % 2 == 1, s, other % 2 == 1, t);
      MasksTellApart(quoted, index + 1, mask / 2, other / 2);
    }
  }

  lemma {:induction false} NotIn<T>(quoted: seq<T>, index: nat, mask: nat)
    requires index < |quoted| && Distinct(quoted)
    ensures quoted[index] !in SetOf(quoted, index + 1, mask)
  {
    if quoted[index] in SetOf(quoted, index + 1, mask) {
      SetMembers(quoted, index + 1, mask, quoted[index]);
    }
  }

  lemma {:induction false} HeadOf<T>(x: T, here: bool, s: seq<T>, there: bool, t: seq<T>)
    requires x !in s && x !in t
    requires (if here then [x] else []) + s == (if there then [x] else []) + t
    ensures here == there && s == t
  {
    var u, v := (if here then [x] else []) + s, (if there then [x] else []) + t;
    assert x in u <==> here;
    assert x in v <==> there;
    if here {
      assert u[1..] == s && v[1..] == t;
    } else {
      assert u == s && v == t;
    }
  }

  lemma {:induction false} SetsDistinct<T>(quoted: seq<T>, amount: T -> int, wanted: int, masks: nat)
    requires Distinct(quoted) && masks <= Pow2(|quoted|)
    ensures Distinct(SetsBelow(quoted, amount, wanted, masks))
  {
    hide Pow2, SetOf, Sum;
    if masks > 1 {
      var rest, last := SetsBelow(quoted, amount, wanted, masks - 1), SetOf(quoted, 0, masks - 1);
      SetsDistinct(quoted, amount, wanted, masks - 1);
      if last in rest {
        var mask := SetsBelowSound(quoted, amount, wanted, masks - 1, last);
        MasksTellApart(quoted, 0, mask, masks - 1);
      }
    }
  }

  lemma {:induction false} WholeWaysOk<T(!new)>(quoted: seq<T>, amount: T -> int)
    requires Distinct(quoted) && forall x :: x in quoted ==> amount(x) >= 0
    ensures SearchOk(quoted, WholeWays(quoted, amount))
  {
    WholeWaysNonNegative(quoted, amount);
  }

  /** One set is found just when one choice of items, paid in full, comes to `wanted`, and it is that
      choice's. */
  lemma {:induction false} SetsAnswer<T(!new)>(quoted: seq<T>, amount: T -> int, wanted: int)
    requires Distinct(quoted) && forall x :: x in quoted ==> amount(x) >= 0
    ensures var found, ways := SetsSummingTo(quoted, amount, wanted), WholeWays(quoted, amount);
      && (|found| == 1 <==> exists c: seq<nat> :: OnlyChoice(ways, wanted, c))
      && (forall c: seq<nat> :: OnlyChoice(ways, wanted, c) && ValidChoice(ways, c, 0) && found != []
                                ==> InFull(found[0]) == Reading(quoted, ways, c, 0))
  {
    hide Hits, OnlyChoice, SetsBelow, NothingNegative, ReadingsSummingTo, ValidChoice, Reading, WaysTellApart, WholeWays, Pow2, InFull;
    var found, ways := SetsSummingTo(quoted, amount, wanted), WholeWays(quoted, amount);
    WholeWaysOk(quoted, amount);
    SearchAnswers(quoted, ways, wanted);
    SetsDistinct(quoted, amount, wanted, Pow2(|quoted|));
    var readings := ReadingsSummingTo(quoted, ways, wanted);
    forall i | 0 <= i < |found| ensures InFull(found[i]) in readings {
      SetIsReading(quoted, amount, wanted, found[i]);
    }
    if |readings| == 1 {
      var s := ReadingInFull(quoted, amount, wanted, readings[0]);
      forall i | 0 <= i < |found| ensures found[i] == s {
        InFullInjective(found[i], s);
      }
      OneOfAll(found, s);
    }
    if |found| == 1 {
      SearchFindsOnce(quoted, ways, wanted);
      forall i | 0 <= i < |readings| ensures readings[i] == InFull(found[0]) {
        var s := ReadingInFull(quoted, amount, wanted, readings[i]);
      }
      OneOfAll(readings, InFull(found[0]));
    }
  }

  lemma {:induction false} ReadingInFull<T(!new)>(quoted: seq<T>, amount: T -> int, wanted: int, r: seq<Taken<T>>) returns (s: seq<T>)
    requires Distinct(quoted) && (forall x :: x in quoted ==> amount(x) >= 0)
    requires r in ReadingsSummingTo(quoted, WholeWays(quoted, amount), wanted)
    ensures s in SetsSummingTo(quoted, amount, wanted) && r == InFull(s)
  {
    hide Hits, SetsBelow, NothingNegative, ReadingsSummingTo, Reading, WaysTellApart, WholeWays, Pow2, Paid, ValidChoice;
    WholeWaysOk(quoted, amount);
    var c := ReadingChosen(quoted, WholeWays(quoted, amount), wanted, r);
    WholeChoice(quoted, amount, wanted, c);
    SomethingRead(quoted, WholeWays(quoted, amount), c, 0);
    s := SetOf(quoted, 0, MaskOf(c));
    assert |InFull(s)| == |s|;
  }

  // ----- one item -----

  function HitIf<T>(x: T, way: Way, wanted: int): seq<seq<Taken<T>>> {
    if way.paid == wanted then [[Taken(x, way.discount)]] else []
  }

  /** Of one item the readings are its ways that come to the amount. */
  lemma {:induction false} OneItem<T>(x: T, ways: seq<Way>, wanted: nat)
    requires 1 <= |ways| <= 2
    ensures ReadingsSummingTo([x], [ways], wanted)
         == HitIf(x, ways[0], wanted) + (if |ways| == 2 then HitIf(x, ways[1], wanted) else [])
  {
    assert Hits([x], [ways], wanted, 1, 0, []) == [];
    OneWay(x, ways, wanted, 0);
    assert HitsFrom([x], [ways], wanted, 0, 0, [], 0) == [];
    assert HitsFrom([x], [ways], wanted, 0, 0, [], 1) == HitIf(x, ways[0], wanted);
    if |ways| == 2 {
      OneWay(x, ways, wanted, 1);
      assert HitsFrom([x], [ways], wanted, 0, 0, [], 2) == HitIf(x, ways[0], wanted) + HitIf(x, ways[1], wanted);
    }
  }

  lemma {:induction false} OneWay<T>(x: T, ways: seq<Way>, wanted: nat, k: nat)
    requires k < |ways|
    ensures Hits([x], [ways], wanted, 1, 0 + ways[k].paid, [] + [Taken(x, ways[k].discount)]) == HitIf(x, ways[k], wanted)
  {
    assert [] + [Taken(x, ways[k].discount)] == [Taken(x, ways[k].discount)];
  }
}
