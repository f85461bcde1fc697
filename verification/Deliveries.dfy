/** Deliveries against sales orders: split shipments, a tolerance for sending too much, and a status
    that follows from everything an order has had. Quantities are held in thousandths. */
module Deliveries {
  import opened Common
  import opened Money

  /** `tolerance` is in tenths of a percent. */
  datatype OrderItem = OrderItem(position: string, requested: int, tolerance: int, unlimited: bool)

  /** A quantity as it arrives, `num / den` thousandths; it is rounded when it is stored. */
  datatype Fraction = Fraction(num: int, den: int)
  type Quantity = q: Fraction | q.den > 0 witness Fraction(0, 1)

  datatype Ask = Ask(item: OrderItem, quantity: Quantity)

  /** A delivery item; its key is the delivery and the position. */
  datatype Shipped = Shipped(delivery: nat, position: string, quantity: int, order: string)

  datatype Status = NotYet | Partly | Fully

  datatype Desk = Desk(items: map<string, seq<OrderItem>>, status: map<string, Status>, rows: seq<Shipped>,
                       headers: seq<nat>, next: nat)

  datatype Outcome = Created(number: nat) | Refused(at: nat) | Duplicate

  // ----- what an order has had -----

  function TotalOf(rows: seq<Shipped>, order: string, position: string): int {
    Sum(rows, (row: Shipped) => if row.order == order && row.position == position then row.quantity else 0)
  }

  /** What an item may have in all: its quantity and the tolerance on it, half up. */
  function Allowed(item: OrderItem): int {
    HalfUp(item.requested * (1000 + item.tolerance), 1000)
  }

  predicate Permits(item: OrderItem, done: int, q: Quantity) {
    item.unlimited || done * q.den + q.num <= Allowed(item) * q.den
  }

  function Stored(q: Quantity): int {
    HalfUp(q.num, q.den)
  }

  /** The first line that asks for more than its item allows, each judged against what was there
      before the call; `|lines|` if none does. */
  function FirstRefused(rows: seq<Shipped>, order: string, lines: seq<Ask>): (r: nat)
    ensures r <= |lines|
    ensures forall i :: 0 <= i < r ==> Permits(lines[i].item, TotalOf(rows, order, lines[i].item.position), lines[i].quantity)
    ensures r < |lines| ==> !Permits(lines[r].item, TotalOf(rows, order, lines[r].item.position), lines[r].quantity)
  {
    if |lines| == 0 then 0
    else
      var before := FirstRefused(rows, order, lines[..|lines| - 1]);
      var line := lines[|lines| - 1];
      if before == |lines| - 1 && Permits(line.item, TotalOf(rows, order, line.item.position), line.quantity)
      then |lines| else before
  }

  predicate HasRow(rows: seq<Shipped>, delivery: nat, position: string) {
    exists row | row in rows :: row.delivery == delivery && row.position == position
  }

  datatype Inserted = Inserted(rows: seq<Shipped>, whole: bool)

  /** The lines written one by one, up to one whose key is already there. */
  function InsertLines(rows: seq<Shipped>, number: nat, order: string, lines: seq<Ask>): Inserted {
    if |lines| == 0 then Inserted(rows, true)
    else
      var before, line := InsertLines(rows, number, order, lines[..|lines| - 1]), lines[|lines| - 1];
      if !before.whole || HasRow(before.rows, number, line.item.position) then Inserted(before.rows, false)
      else Inserted(before.rows + [Shipped(number, line.item.position, Stored(line.quantity), order)], true)
  }

  predicate Complete(items: seq<OrderItem>, rows: seq<Shipped>, order: string) {
    items != [] && forall i :: 0 <= i < |items| ==> TotalOf(rows, order, items[i].position) >= items[i].requested
  }

  predicate Started(items: seq<OrderItem>, rows: seq<Shipped>, order: string) {
    exists i :: 0 <= i < |items| && TotalOf(rows, order, items[i].position) > 0
  }

  function StatusOf(items: seq<OrderItem>, rows: seq<Shipped>, order: string): Status {
    if Complete(items, rows, order) then Fully else if Started(items, rows, order) then Partly else NotYet
  }

  /** What one call leaves, and what it answers. A call stopped at a repeated item leaves what it
      had written, and the status as it was. */
  function Create(d: Desk, order: string, lines: seq<Ask>): (Desk, Outcome)
    requires order in d.items
  {
    var refused := FirstRefused(d.rows, order, lines);
    if refused < |lines| then (d, Refused(refused))
    else
      var ins := InsertLines(d.rows, d.next, order, lines);
      var e := d.(rows := ins.rows, headers := d.headers + [d.next], next := d.next + 1);
      if ins.whole then (e.(status := e.status[order := StatusOf(e.items[order], e.rows, order)]), Created(d.next))
      else (e, Duplicate)
  }

  // ----- the desk itself -----

  function At(delivered: map<string, int>, position: string): int {
    if position in delivered then delivered[position] else 0
  }

  class DeliveryDesk {
    const items: map<string, seq<OrderItem>>
    var status: map<string, Status>
    var rows: seq<Shipped>
    var headers: seq<nat>
    var next: nat

    ghost function Contents(): Desk
      reads this
    {
      Desk(items, status, rows, headers, next)
    }

    constructor (items: map<string, seq<OrderItem>>, next: nat)
      ensures Contents() == Desk(items, map order | order in items :: NotYet, [], [], next)
    {
      this.items, this.next := items, next;
      status, rows, headers := map order | order in items :: NotYet, [], [];
    }

    method DeliveredSoFar(order: string) returns (delivered: map<string, int>)
      ensures forall position :: At(delivered, position) == TotalOf(rows, order, position)
    {
      delivered := map[];
      for i := 0 to |rows|
        invariant forall position :: At(delivered, position) == TotalOf(rows[..i], order, position)
      {
        assert rows[..i + 1] == rows[..i] + [rows[i]];
        ghost var before := delivered;
        if rows[i].order == order {
          var position := rows[i].position;
          delivered := delivered[position := At(delivered, position) + rows[i].quantity];
        }
        forall position ensures At(delivered, position) == TotalOf(rows[..i + 1], order, position) {
          TotalSnoc(rows[..i], rows[i], order, position);
          assert At(before, position) == TotalOf(rows[..i], order, position);
        }
      }
      assert rows[..|rows|] == rows;
    }

    method DeliveryStatus(order: string) returns (s: Status)
      requires order in items
      ensures s == StatusOf(items[order], rows, order)
    {
      var delivered := DeliveredSoFar(order);
      var complete, anything := items[order] != [], false;
      for i := 0 to |items[order]|
        invariant complete == (items[order] != []
          && forall k :: 0 <= k < i ==> TotalOf(rows, order, items[order][k].position) >= items[order][k].requested)
        invariant anything <==> exists k :: 0 <= k < i && TotalOf(rows, order, items[order][k].position) > 0
      {
        var done := At(delivered, items[order][i].position);
        if done > 0 {
          anything := true;
        }
        if done < items[order][i].requested {
          complete := false;
        }
      }
      s := if complete then Fully else if anything then Partly else NotYet;
    }

    /** The first line that asks for too much, judged against what was delivered before the call. */
    method OverDelivery(order: string, lines: seq<Ask>) returns (refused: nat)
      ensures refused == FirstRefused(rows, order, lines)
    {
      var already := DeliveredSoFar(order);
      for i := 0 to |lines|
        invariant FirstRefused(rows, order, lines[..i]) == i
      {
        assert lines[..i + 1][..i] == lines[..i];
        if !Permits(lines[i].item, At(already, lines[i].item.position), lines[i].quantity) {
          RefusedAt(rows, order, lines, i);
          return i;
        }
      }
      assert lines[..|lines|] == lines;
      return |lines|;
    }

    method InsertItems(number: nat, order: string, lines: seq<Ask>) returns (whole: bool)
      modifies this`rows
      ensures Inserted(rows, whole) == InsertLines(old(rows), number, order, lines)
    {
      for i := 0 to |lines|
        invariant Inserted(rows, true) == InsertLines(old(rows), number, order, lines[..i])
      {
        assert lines[..i + 1][..i] == lines[..i];
        if HasRow(rows, number, lines[i].item.position) {
          InsertStopped(old(rows), number, order, lines, i + 1);
          return false;
        }
        rows := rows + [Shipped(number, lines[i].item.position, Stored(lines[i].quantity), order)];
      }
      assert lines[..|lines|] == lines;
      return true;
    }

    method CreateDelivery(order: string, lines: seq<Ask>) returns (outcome: Outcome)
      requires order in items
      modifies this
      ensures (Contents(), outcome) == Create(old(Contents()), order, lines)
    {
      var refused := OverDelivery(order, lines);
      if refused < |lines| {
        return Refused(refused);
      }
      var number := next;
      next := next + 1;
      headers := headers + [number];
      var whole := InsertItems(number, order, lines);
      if !whole {
        return Duplicate;
      }
      var s := DeliveryStatus(order);
      status := status[order := s];
      return Created(number);
    }
  }

  lemma {:induction false} TotalSnoc(rows: seq<Shipped>, row: Shipped, order: string, position: string)
    ensures TotalOf(rows + [row], order, position)
         == TotalOf(rows, order, position) + (if row.order == order && row.position == position then row.quantity else 0)
  {
    SumSnoc(rows, row, (row: Shipped) => if row.order == order && row.position == position then row.quantity else 0);
  }

  lemma {:induction false} RefusedAt(rows: seq<Shipped>, order: string, lines: seq<Ask>, i: nat)
    requires i < |lines| && FirstRefused(rows, order, lines[..i]) == i
    requires !Permits(lines[i].item, TotalOf(rows, order, lines[i].item.position), lines[i].quantity)
    ensures FirstRefused(rows, order, lines) == i
  {
    var r := FirstRefused(rows, order, lines);
    assert forall k :: 0 <= k < i ==> lines[..i][k] == lines[k];
  }

  lemma {:induction false} InsertStopped(rows: seq<Shipped>, number: nat, order: string, lines: seq<Ask>, i: nat)
    requires i <= |lines| && !InsertLines(rows, number, order, lines[..i]).whole
    ensures InsertLines(rows, number, order, lines) == InsertLines(rows, number, order, lines[..i])
    decreases |lines|
  {
    if i == |lines| {
      assert lines[..i] == lines;
    } else {
      assert lines[..|lines| - 1][..i] == lines[..i];
      InsertStopped(rows, number, order, lines[..|lines| - 1], i);
    }
  }

  // ----- what a call writes -----

  ghost predicate PositionsDiffer(lines: seq<Ask>) {
    forall i, j :: 0 <= i < j < |lines| ==> lines[i].item.position != lines[j].item.position
  }

  /** Every delivery number written so far is below the next one. */
  ghost predicate Numbered(d: Desk) {
    forall row :: row in d.rows ==> row.delivery < d.next
  }

  ghost predicate New(rows: seq<Shipped>, number: nat) {
    forall row :: row in rows ==> row.delivery != number
  }

  function AskedFor(lines: seq<Ask>, position: string): int {
    Sum(lines, (line: Ask) => if line.item.position == position then Stored(line.quantity) else 0)
  }

  /** At most one line of the call is written for a position, and nothing for another order. */
  lemma {:induction false} WritesOnce(rows: seq<Shipped>, number: nat, order: string, lines: seq<Ask>, position: string)
    returns (i: nat)
    requires New(rows, number)
    ensures var r := InsertLines(rows, number, order, lines).rows;
      if HasRow(r, number, position)
      then i < |lines| && lines[i].item.position == position
           && TotalOf(r, order, position) == TotalOf(rows, order, position) + Stored(lines[i].quantity)
      else TotalOf(r, order, position) == TotalOf(rows, order, position)
  {
    i := 0;
    if |lines| > 0 {
      var n := |lines| - 1;
      i := WritesOnce(rows, number, order, lines[..n], position);
      var before := InsertLines(rows, number, order, lines[..n]);
      if before.whole && !HasRow(before.rows, number, lines[n].item.position) {
        var row := Shipped(number, lines[n].item.position, Stored(lines[n].quantity), order);
        TotalSnoc(before.rows, row, order, position);
        HasRowSnoc(before.rows, row, number, position);
        if lines[n].item.position == position {
          i := n;
        }
      }
    }
  }

  lemma {:induction false} HasRowSnoc(rows: seq<Shipped>, row: Shipped, number: nat, position: string)
    requires row.delivery == number
    ensures HasRow(rows + [row], number, position) <==> HasRow(rows, number, position) || row.position == position
  {
    assert forall x :: x in rows + [row] <==> x in rows || x == row;
  }

  lemma {:induction false} OtherOrders(rows: seq<Shipped>, number: nat, order: string, lines: seq<Ask>, other: string, position: string)
    requires other != order
    ensures TotalOf(InsertLines(rows, number, order, lines).rows, other, position) == TotalOf(rows, other, position)
  {
    if |lines| > 0 {
      var n := |lines| - 1;
      OtherOrders(rows, number, order, lines[..n], other, position);
      TotalSnoc(InsertLines(rows, number, order, lines[..n]).rows,
                Shipped(number, lines[n].item.position, Stored(lines[n].quantity), order), other, position);
    }
  }

  /** The call is written whole just when no two of its lines are for one item; it then adds, to
      each position, what was asked for it. */
  lemma {:induction false} WrittenWhole(rows: seq<Shipped>, number: nat, order: string, lines: seq<Ask>, position: string)
    requires New(rows, number)
    ensures var ins := InsertLines(rows, number, order, lines);
      && (ins.whole <==> PositionsDiffer(lines))
      && (ins.whole ==> TotalOf(ins.rows, order, position) == TotalOf(rows, order, position) + AskedFor(lines, position)
                        && (HasRow(ins.rows, number, position)
                            <==> exists i :: 0 <= i < |lines| && lines[i].item.position == position))
  {
    if |lines| > 0 {
      var n := |lines| - 1;
      var before, line := InsertLines(rows, number, order, lines[..n]), lines[n];
      WrittenWhole(rows, number, order, lines[..n], position);
      WrittenWhole(rows, number, order, lines[..n], line.item.position);
      DifferSnoc(lines);
      assert forall i :: 0 <= i < n ==> lines[..n][i] == lines[i];
      if before.whole && !HasRow(before.rows, number, line.item.position) {
        var row := Shipped(number, line.item.position, Stored(line.quantity), order);
        TotalSnoc(before.rows, row, order, position);
        HasRowSnoc(before.rows, row, number, position);
      }
    }
  }

  lemma {:induction false} DifferSnoc(lines: seq<Ask>)
    requires |lines| > 0
    ensures var n := |lines| - 1;
      PositionsDiffer(lines)
      <==> PositionsDiffer(lines[..n]) && !(exists i :: 0 <= i < n && lines[..n][i].item.position == lines[n].item.position)
  {
    var n := |lines| - 1;
    assert forall i :: 0 <= i < n ==> lines[..n][i] == lines[i];
  }

  /** What each answer means. A refused call changes nothing, and is refused just when some line
      asks for more than its item allows; a call is stopped half way just when it names an item
      twice; otherwise every item has what it had and what was asked for it. */
  lemma {:induction false} CreateAnswers(d: Desk, order: string, lines: seq<Ask>, position: string)
    requires order in d.items && Numbered(d)
    ensures var (e, outcome) := Create(d, order, lines);
      var permitted := forall i :: 0 <= i < |lines| ==>
        Permits(lines[i].item, TotalOf(d.rows, order, lines[i].item.position), lines[i].quantity);
      && (outcome.Refused? <==> !permitted)
      && (outcome.Refused? ==> e == d)
      && (outcome.Duplicate? <==> permitted && !PositionsDiffer(lines))
      && (outcome.Created? ==> TotalOf(e.rows, order, position) == TotalOf(d.rows, order, position) + AskedFor(lines, position)
                               && e.status[order] == StatusOf(d.items[order], e.rows, order))
  {
    assert New(d.rows, d.next);
    WrittenWhole(d.rows, d.next, order, lines, position);
  }

  // ----- the tolerance holds over every run -----

  ghost predicate PositionsUnique(items: seq<OrderItem>) {
    forall i, j :: 0 <= i < j < |items| ==> items[i].position != items[j].position
  }

  ghost predicate Within(d: Desk, order: string)
    requires order in d.items
  {
    forall i :: 0 <= i < |d.items[order]| && !d.items[order][i].unlimited
      ==> TotalOf(d.rows, order, d.items[order][i].position) <= Allowed(d.items[order][i])
  }

  /** No item that has a limit has had more than it. */
  ghost predicate Tolerated(d: Desk) {
    && Numbered(d)
    && (forall order :: order in d.items ==> PositionsUnique(d.items[order]) && Within(d, order))
  }

  /** The lines are the order's own items. */
  ghost predicate OfOrder(items: seq<OrderItem>, lines: seq<Ask>) {
    forall i :: 0 <= i < |lines| ==> lines[i].item in items
  }

  /** A quantity that fits before rounding fits after it. */
  lemma {:induction false} RoundingFits(item: OrderItem, done: int, q: Quantity)
    requires Permits(item, done, q) && !item.unlimited
    ensures done + Stored(q) <= Allowed(item)
  {
    var room := Allowed(item) - done;
    Distribute(q.den, Allowed(item), done);
    assert q.num <= q.den * room;
    HalfUpMonotone(q.num, q.den * room, q.den);
    HalfUpWhole(room, q.den);
  }

  lemma {:induction false} RowsNumbered(rows: seq<Shipped>, number: nat, order: string, lines: seq<Ask>)
    requires forall row :: row in rows ==> row.delivery < number
    ensures forall row :: row in InsertLines(rows, number, order, lines).rows ==> row.delivery <= number
  {
    if |lines| > 0 {
      RowsNumbered(rows, number, order, lines[..|lines| - 1]);
    }
  }

  lemma {:induction false} ItemWithin(d: Desk, order: string, lines: seq<Ask>, i: nat)
    requires order in d.items && Tolerated(d) && OfOrder(d.items[order], lines)
    requires FirstRefused(d.rows, order, lines) == |lines|
    requires i < |d.items[order]| && !d.items[order][i].unlimited
    ensures var item := d.items[order][i];
      TotalOf(InsertLines(d.rows, d.next, order, lines).rows, order, item.position) <= Allowed(item)
  {
    var items := d.items[order];
    var item := items[i];
    assert New(d.rows, d.next);
    var k := WritesOnce(d.rows, d.next, order, lines, item.position);
    if HasRow(InsertLines(d.rows, d.next, order, lines).rows, d.next, item.position) {
      assert lines[k].item in items;
      var j :| 0 <= j < |items| && items[j] == lines[k].item;
      assert j == i;
      RoundingFits(item, TotalOf(d.rows, order, item.position), lines[k].quantity);
    }
  }

  /** A call - accepted, refused, or stopped at an item it names twice - keeps every item within
      its tolerance, even after quantities are rounded to three places. */
  lemma {:induction false} CreateTolerated(d: Desk, order: string, lines: seq<Ask>)
    requires order in d.items && Tolerated(d) && OfOrder(d.items[order], lines)
    ensures Tolerated(Create(d, order, lines).0) && Create(d, order, lines).0.items == d.items
  {
    var e := Create(d, order, lines).0;
    if FirstRefused(d.rows, order, lines) == |lines| {
      RowsNumbered(d.rows, d.next, order, lines);
      forall other | other in d.items ensures Within(e, other) {
        forall i | 0 <= i < |d.items[other]| && !d.items[other][i].unlimited
          ensures TotalOf(e.rows, other, d.items[other][i].position) <= Allowed(d.items[other][i])
        {
          assert Within(d, other);
          if other == order {
            ItemWithin(d, order, lines, i);
          } else {
            OtherOrders(d.rows, d.next, order, lines, other, d.items[other][i].position);
          }
        }
      }
    }
  }

  datatype Call = Call(order: string, lines: seq<Ask>)

  /** A call for an order there is not reaches nothing. */
  function Do(d: Desk, call: Call): Desk {
    if call.order in d.items then Create(d, call.order, call.lines).0 else d
  }

  function Run(d: Desk, calls: seq<Call>): (e: Desk)
    ensures e.items == d.items
  {
    if |calls| == 0 then d else Do(Run(d, calls[..|calls| - 1]), calls[|calls| - 1])
  }

  ghost predicate CallsOfOrders(d: Desk, calls: seq<Call>) {
    forall k :: 0 <= k < |calls| && calls[k].order in d.items ==> OfOrder(d.items[calls[k].order], calls[k].lines)
  }

  lemma {:induction false} RunTolerated(d: Desk, calls: seq<Call>)
    requires Tolerated(d) && CallsOfOrders(d, calls)
    ensures Tolerated(Run(d, calls))
  {
    if |calls| > 0 {
      var n := |calls| - 1;
      assert forall k :: 0 <= k < n ==> calls[..n][k] == calls[k];
      RunTolerated(d, calls[..n]);
      var e := Run(d, calls[..n]);
      if calls[n].order in d.items {
        CreateTolerated(e, calls[n].order, calls[n].lines);
      }
    }
  }

  // ----- the status follows from the totals -----

  ghost predicate SameTotals(items: seq<OrderItem>, order: string, rows: seq<Shipped>, other: seq<Shipped>) {
    forall i :: 0 <= i < |items| ==> TotalOf(rows, order, items[i].position) == TotalOf(other, order, items[i].position)
  }

  lemma {:induction false} StatusByTotals(items: seq<OrderItem>, order: string, rows: seq<Shipped>, other: seq<Shipped>)
    requires SameTotals(items, order, rows, other)
    ensures StatusOf(items, rows, order) == StatusOf(items, other, order)
  {
    assert Complete(items, rows, order) <==> Complete(items, other, order);
    if Started(items, rows, order) {
      var i :| 0 <= i < |items| && TotalOf(rows, order, items[i].position) > 0;
      assert TotalOf(other, order, items[i].position) > 0;
    }
    if Started(items, other, order) {
      var i :| 0 <= i < |items| && TotalOf(other, order, items[i].position) > 0;
      assert TotalOf(rows, order, items[i].position) > 0;
    }
  }

  ghost predicate Current(d: Desk, order: string)
    requires order in d.items
  {
    order in d.status && d.status[order] == StatusOf(d.items[order], d.rows, order)
  }

  /** Every call of the run for this order was accepted. */
  ghost predicate AllCreated(d: Desk, calls: seq<Call>, order: string) {
    |calls| == 0
    || (AllCreated(d, calls[..|calls| - 1], order)
        && (calls[|calls| - 1].order == order && order in d.items
            ==> Create(Run(d, calls[..|calls| - 1]), order, calls[|calls| - 1].lines).1.Created?))
  }

  function SentBy(calls: seq<Call>, order: string, position: string): int {
    Sum(calls, (call: Call) => if call.order == order then AskedFor(call.lines, position) else 0)
  }

  lemma {:induction false} DoNumbered(d: Desk, call: Call)
    requires Numbered(d)
    ensures Numbered(Do(d, call))
  {
    if call.order in d.items {
      RowsNumbered(d.rows, d.next, call.order, call.lines);
    }
  }

  lemma {:induction false} OtherDo(d: Desk, call: Call, order: string)
    requires order in d.items && call.order != order
    ensures var e := Do(d, call);
      && (forall position :: TotalOf(e.rows, order, position) == TotalOf(d.rows, order, position))
      && (order in e.status <==> order in d.status) && (order in d.status ==> e.status[order] == d.status[order])
  {
    if call.order in d.items {
      forall position ensures TotalOf(Do(d, call).rows, order, position) == TotalOf(d.rows, order, position) {
        OtherOrders(d.rows, d.next, call.order, call.lines, order, position);
      }
    }
  }

  /** After a run of accepted calls an order has had what it had and all that was asked for. */
  lemma {:induction false} RunTotals(d: Desk, calls: seq<Call>, order: string, position: string)
    requires Numbered(d) && order in d.items && AllCreated(d, calls, order)
    ensures var e := Run(d, calls);
      && Numbered(e) && (Current(d, order) ==> Current(e, order))
      && TotalOf(e.rows, order, position) == TotalOf(d.rows, order, position) + SentBy(calls, order, position)
  {
    if |calls| > 0 {
      var n := |calls| - 1;
      RunTotals(d, calls[..n], order, position);
      var e := Run(d, calls[..n]);
      DoNumbered(e, calls[n]);
      if calls[n].order == order {
        CreateAnswers(e, order, calls[n].lines, position);
      } else {
        OtherDo(e, calls[n], order);
        StatusByTotals(d.items[order], order, e.rows, Do(e, calls[n]).rows);
      }
    }
  }

  /** However the same quantities are split over deliveries, the order has had the same of every
      item, and its status is the same. */
  lemma {:induction false} SplitIndependence(d: Desk, calls: seq<Call>, others: seq<Call>, order: string)
    requires Numbered(d) && order in d.items && Current(d, order)
    requires AllCreated(d, calls, order) && AllCreated(d, others, order)
    requires forall position :: SentBy(calls, order, position) == SentBy(others, order, position)
    ensures var e, f := Run(d, calls), Run(d, others);
      && (forall position :: TotalOf(e.rows, order, position) == TotalOf(f.rows, order, position))
      && order in e.status && order in f.status && e.status[order] == f.status[order]
  {
    var e, f := Run(d, calls), Run(d, others);
    RunTotals(d, calls, order, "");
    RunTotals(d, others, order, "");
    forall position ensures TotalOf(e.rows, order, position) == TotalOf(f.rows, order, position) {
      RunTotals(d, calls, order, position);
      RunTotals(d, others, order, position);
    }
    StatusByTotals(d.items[order], order, e.rows, f.rows);
  }

  /** One call for an item, of a whole number of thousandths. */
  function One(item: OrderItem, mills: int): seq<Ask> {
    [Ask(item, Fraction(mills, 1))]
  }

  lemma {:induction false} OneCall(d: Desk, order: string, item: OrderItem, mills: int)
    requires order in d.items && Numbered(d)
    ensures var (e, outcome) := Create(d, order, One(item, mills));
      && (outcome.Created? <==> item.unlimited || TotalOf(d.rows, order, item.position) + mills <= Allowed(item))
      && (outcome.Created? ==> TotalOf(e.rows, order, item.position) == TotalOf(d.rows, order, item.position) + mills)
  {
    var lines := One(item, mills);
    CreateAnswers(d, order, lines, item.position);
    HalfUpWhole(mills, 1);
    var f := (line: Ask) => if line.item.position == item.position then Stored(line.quantity) else 0;
    SumSnoc([], lines[0], f);
    assert [] + [lines[0]] == lines;
  }

  /** What may be sent at once may be sent in two parts, and what may be sent in two parts may be
      sent at once. */
  lemma {:induction false} SplitShipment(d: Desk, order: string, item: OrderItem, first: nat, second: nat)
    requires order in d.items && Numbered(d)
    ensures var e := Create(d, order, One(item, first)).0;
      Create(d, order, One(item, first + second)).1.Created?
      <==> Create(d, order, One(item, first)).1.Created? && Create(e, order, One(item, second)).1.Created?
  {
    var e := Create(d, order, One(item, first)).0;
    DoNumbered(d, Call(order, One(item, first)));
    OneCall(d, order, item, first + second);
    OneCall(d, order, item, first);
    OneCall(e, order, item, second);
  }

  // ----- parts of any fineness -----

  function Together(p: Quantity, q: Quantity): Quantity {
    assert p.den * q.den > 0;
    Fraction(p.num * q.den + q.num * p.den, p.den * q.den)
  }

  predicate AtMost(p: Quantity, q: Quantity) {
    p.num * q.den <= q.num * p.den
  }

  /** What an item may still have, and what is left of that after `q`. */
  function Room(d: Desk, order: string, item: OrderItem): int {
    Allowed(item) - TotalOf(d.rows, order, item.position)
  }

  function Left(room: int, q: Quantity): Quantity {
    Fraction(room * q.den - q.num, q.den)
  }

  function Mills(n: int): Quantity {
    Fraction(n, 1)
  }

  lemma {:induction false} PermitsIs(item: OrderItem, done: int, q: Quantity)
    ensures Permits(item, done, q) <==> item.unlimited || AtMost(q, Mills(Allowed(item) - done))
  {
    assert (Allowed(item) - done) * q.den == Allowed(item) * q.den - done * q.den;
  }

  /** Both parts fit just when the first fits in what the second leaves. */
  lemma {:induction false} TogetherFits(p: Quantity, q: Quantity, room: int)
    ensures AtMost(Together(p, q), Mills(room)) <==> AtMost(p, Left(room, q))
  {
    var left := room * q.den;
    assert left * p.den == room * (p.den * q.den);
    assert (left - q.num) * p.den == left * p.den - q.num * p.den;
  }

  lemma {:induction false} StoredFits(n: int, q: Quantity, room: int)
    ensures AtMost(q, Mills(room - n)) <==> AtMost(Mills(n), Left(room, q))
  {
    assert (room - n) * q.den == room * q.den - n * q.den;
  }

  /** Exactly when two parts get the answer the whole would get. Where the first part is permitted:
      when the room the second leaves does not lie between the first part and what is stored of it -
      one must not fit where the other does. */
  ghost predicate SplitsAlike(room: int, p: Quantity, q: Quantity) {
    if AtMost(p, Mills(room)) then AtMost(p, Left(room, q)) <==> AtMost(Mills(Stored(p)), Left(room, q))
    else !AtMost(p, Left(room, q))
  }

  lemma {:induction false} FineParts(d: Desk, order: string, item: OrderItem, p: Quantity, q: Quantity)
    requires order in d.items && Numbered(d)
    ensures var e := Create(d, order, [Ask(item, p)]).0;
      (Create(d, order, [Ask(item, Together(p, q))]).1.Created?
       <==> Create(d, order, [Ask(item, p)]).1.Created? && Create(e, order, [Ask(item, q)]).1.Created?)
      <==> item.unlimited || SplitsAlike(Room(d, order, item), p, q)
  {
    hide Create, Numbered, TotalOf, Allowed, Stored, Together, AtMost, Left, Permits;
    var e := Create(d, order, [Ask(item, p)]).0;
    var room := Room(d, order, item);
    OneLine(d, order, Ask(item, p));
    OneLine(d, order, Ask(item, Together(p, q)));
    PermitsIs(item, TotalOf(d.rows, order, item.position), p);
    PermitsIs(item, TotalOf(d.rows, order, item.position), Together(p, q));
    TogetherFits(p, q, room);
    OneNumbered(d, order, Ask(item, p));
    OneLine(e, order, Ask(item, q));
    PermitsIs(item, TotalOf(e.rows, order, item.position), q);
    StoredFits(Stored(p), q, room);
    assert Allowed(item) - (TotalOf(d.rows, order, item.position) + Stored(p)) == room - Stored(p);
  }

  lemma {:induction false} OneNumbered(d: Desk, order: string, line: Ask)
    requires order in d.items && Numbered(d)
    ensures Numbered(Create(d, order, [line]).0) && Create(d, order, [line]).0.items == d.items
  {
    DoNumbered(d, Call(order, [line]));
  }

  const ONE_LEFT := OrderItem("10", 1, 0, false)

  function DeskWithOne(rows: seq<Shipped>, next: nat): Desk {
    Desk(map["1" := [ONE_LEFT]], map["1" := NotYet], rows, [], next)
  }

  /** Not so for finer quantities: with one thousandth left, 1.2 of one is refused at once and sent
      in parts of 0.4 and 0.8, the first of which is rounded away when it is stored. */
  lemma {:induction false} FinePartsSlip()
    ensures var d, part := DeskWithOne([], 0), [Ask(ONE_LEFT, Fraction(4, 10))];
      && Create(d, "1", [Ask(ONE_LEFT, Fraction(12, 10))]).1.Refused?
      && Create(d, "1", part).1.Created?
      && Create(Create(d, "1", part).0, "1", [Ask(ONE_LEFT, Fraction(8, 10))]).1.Created?
  {
    var d, part := DeskWithOne([], 0), Ask(ONE_LEFT, Fraction(4, 10));
    AllowedOne();
    OneLine(d, "1", part);
    OneLine(d, "1", Ask(ONE_LEFT, Fraction(12, 10)));
    DoNumbered(d, Call("1", [part]));
    OneLine(Create(d, "1", [part]).0, "1", Ask(ONE_LEFT, Fraction(8, 10)));
  }

  lemma {:induction false} AllowedOne()
    ensures Allowed(ONE_LEFT) == 1 && Stored(Fraction(4, 10)) == 0
  {
    assert HalfUp(1000, 1000) == 1;
    assert HalfUp(4, 10) == 0;
  }

  lemma {:induction false} OneLine(d: Desk, order: string, line: Ask)
    requires order in d.items && Numbered(d)
    ensures var (e, outcome) := Create(d, order, [line]);
      && (outcome.Created? <==> Permits(line.item, TotalOf(d.rows, order, line.item.position), line.quantity))
      && (outcome.Refused? <==> !outcome.Created?)
      && (outcome.Created? ==> TotalOf(e.rows, order, line.item.position)
                               == TotalOf(d.rows, order, line.item.position) + Stored(line.quantity))
  {
    CreateAnswers(d, order, [line], line.item.position);
    var f := (x: Ask) => if x.item.position == line.item.position then Stored(x.quantity) else 0;
    SumSnoc([], line, f);
    assert [] + [line] == [line];
  }

  // ----- the tolerance, in figures -----

  /** An item's quantity with its tolerance, in thousandths of a thousandth. */
  function WithTolerance(item: OrderItem): int {
    item.requested * (1000 + item.tolerance)
  }

  /** No limited item of any order has had more than half a thousandth above that. */
  ghost predicate WithinFigures(d: Desk) {
    forall order :: order in d.items ==> OrderWithinFigures(d, order)
  }

  /** Positions are an order's keys, and numbers are ahead of their use. */
  ghost predicate Tidy(d: Desk) {
    Numbered(d) && forall order :: order in d.items ==> PositionsUnique(d.items[order])
  }

  ghost predicate OrderWithinFigures(d: Desk, order: string)
    requires order in d.items
  {
    forall i :: 0 <= i < |d.items[order]| && !d.items[order][i].unlimited ==>
      2 * (1000 * TotalOf(d.rows, order, d.items[order][i].position) - WithTolerance(d.items[order][i])) <= 1000
  }

  ghost predicate NothingNegativeOrdered(d: Desk) {
    forall order, item :: order in d.items && item in d.items[order] ==> item.requested >= 0 && item.tolerance >= 0
  }

  lemma {:induction false} AllowedFigures(item: OrderItem, total: int)
    requires WithTolerance(item) >= 0
    ensures total <= Allowed(item) <==> 2 * (1000 * total - WithTolerance(item)) <= 1000
  {
    var n := WithTolerance(item);
    var q := (2 * n + 1000) / 2000;
    assert 2 * n + 1000 == 2000 * q + (2 * n + 1000) % 2000;
  }

  lemma {:induction false} FiguresAre(d: Desk)
    requires NothingNegativeOrdered(d)
    ensures Tolerated(d) <==> WithinFigures(d) && Tidy(d)
  {
    hide Allowed, TotalOf, WithTolerance;
    forall order, i | order in d.items && 0 <= i < |d.items[order]|
      ensures var item, total := d.items[order][i], TotalOf(d.rows, order, d.items[order][i].position);
        total <= Allowed(item) <==> 2 * (1000 * total - WithTolerance(item)) <= 1000
    {
      var item := d.items[order][i];
      assert item in d.items[order];
      NotNegative(item);
      AllowedFigures(item, TotalOf(d.rows, order, item.position));
    }
    if Tolerated(d) {
      forall order | order in d.items ensures OrderWithinFigures(d, order) {
        assert Within(d, order);
      }
    }
    if WithinFigures(d) && Tidy(d) {
      forall order | order in d.items ensures Within(d, order) {
        assert OrderWithinFigures(d, order);
      }
    }
  }

  lemma {:induction false} NotNegative(item: OrderItem)
    requires item.requested >= 0 && item.tolerance >= 0
    ensures WithTolerance(item) >= 0
  {
  }

  /** Over any run no limited item has more than its quantity and tolerance by over half a thousandth,
      and without a tolerance none has more than its quantity. */
  lemma {:induction false} RunWithinFigures(d: Desk, calls: seq<Call>)
    requires Tidy(d) && WithinFigures(d) && NothingNegativeOrdered(d) && CallsOfOrders(d, calls)
    ensures WithinFigures(Run(d, calls))
    ensures forall order, i :: order in d.items && 0 <= i < |d.items[order]| && !d.items[order][i].unlimited
                               && d.items[order][i].tolerance == 0
              ==> TotalOf(Run(d, calls).rows, order, d.items[order][i].position) <= d.items[order][i].requested
  {
    hide TotalOf, Allowed;
    FiguresAre(d);
    RunTolerated(d, calls);
    var e := Run(d, calls);
    FiguresAre(e);
    forall order, i | order in d.items && 0 <= i < |d.items[order]| && !d.items[order][i].unlimited
                      && d.items[order][i].tolerance == 0
      ensures TotalOf(e.rows, order, d.items[order][i].position) <= d.items[order][i].requested
    {
      assert OrderWithinFigures(e, order);
    }
  }

  /** A desk nothing has been sent from starts within them. */
  lemma {:induction false} NothingSentYet(d: Desk)
    requires d.rows == [] && NothingNegativeOrdered(d)
    ensures WithinFigures(d)
  {
    forall order | order in d.items ensures OrderWithinFigures(d, order) {
      forall i | 0 <= i < |d.items[order]|
        ensures 2 * (1000 * TotalOf(d.rows, order, d.items[order][i].position) - WithTolerance(d.items[order][i])) <= 1000
      {
        assert d.items[order][i] in d.items[order];
        NotNegative(d.items[order][i]);
      }
    }
  }

  /** One line for a limited item is refused just when it would bring the item above the whole number of
      thousandths `most` nearest to its quantity with tolerance, a half counted up. */
  lemma {:induction false} RefusedByFigures(d: Desk, order: string, item: OrderItem, q: Quantity, most: int)
    requires order in d.items && Numbered(d) && !item.unlimited && item.requested >= 0 && item.tolerance >= 0
    requires -1000 <= 2 * (item.requested * (1000 + item.tolerance) - 1000 * most) < 1000
    ensures Create(d, order, [Ask(item, q)]).1.Refused?
       <==> TotalOf(d.rows, order, item.position) * q.den + q.num > most * q.den
    ensures Create(d, order, [Ask(item, q)]).1.Refused? ==> Create(d, order, [Ask(item, q)]).0 == d
  {
    hide TotalOf, Numbered;
    NotNegative(item);
    HalfUpUnique(WithTolerance(item), 1000, most);
    OneLine(d, order, Ask(item, q));
    var lines := [Ask(item, q)];
    CreateAnswers(d, order, lines, item.position);
  }

  /** A row written for a line: its quantity the whole number of thousandths nearest to the one asked
      for, a half going outwards. */
  ghost predicate WrittenFor(row: Shipped, delivery: nat, order: string, line: Ask) {
    var q, n := line.quantity, row.quantity;
    && row.delivery == delivery && row.order == order && row.position == line.item.position
    && -q.den <= 2 * (q.den * n - q.num) <= q.den
    && (2 * (q.den * n - q.num) == q.den ==> q.num > 0) && (2 * (q.den * n - q.num) == -q.den ==> q.num < 0)
  }

  lemma {:induction false} StoredIsNearest(q: Quantity)
    ensures var n := Stored(q);
      && -q.den <= 2 * (q.den * n - q.num) <= q.den
      && (2 * (q.den * n - q.num) == q.den ==> q.num > 0) && (2 * (q.den * n - q.num) == -q.den ==> q.num < 0)
  {
    hide HalfUp;
    HalfUpNearest(q.num, q.den);
  }

  lemma {:induction false} LinesWritten(rows: seq<Shipped>, number: nat, order: string, lines: seq<Ask>)
    requires InsertLines(rows, number, order, lines).whole
    ensures var r := InsertLines(rows, number, order, lines).rows;
      && |r| == |rows| + |lines| && r[..|rows|] == rows
      && forall i :: 0 <= i < |lines| ==> WrittenFor(r[|rows| + i], number, order, lines[i])
  {
    hide Stored, HasRow;
    if |lines| > 0 {
      var n := |lines| - 1;
      LinesWritten(rows, number, order, lines[..n]);
      StoredIsNearest(lines[n].quantity);
    }
  }

  /** Fully if there are items and every one has had its quantity; partly if not, but one has had some. */
  ghost predicate StatusSays(d: Desk, order: string, status: Status)
    requires order in d.items
  {
    var items := d.items[order];
    var all := items != [] && forall i :: 0 <= i < |items| ==> items[i].requested <= TotalOf(d.rows, order, items[i].position);
    var some := exists i :: 0 <= i < |items| && TotalOf(d.rows, order, items[i].position) > 0;
    && (status == Fully <==> all) && (status == Partly <==> !all && some) && (status == NotYet <==> !all && !some)
  }

  /** A call that goes through numbers one delivery, writes a row for each line and nothing else, and
      gives the order the status its totals have now. */
  lemma {:induction false} CallWrites(d: Desk, order: string, lines: seq<Ask>)
    requires order in d.items && Create(d, order, lines).1.Created?
    ensures var (e, outcome) := Create(d, order, lines);
      && outcome.number == d.next && e.next == d.next + 1 && e.headers == d.headers + [d.next] && e.items == d.items
      && |e.rows| == |d.rows| + |lines| && e.rows[..|d.rows|] == d.rows
      && (forall i :: 0 <= i < |lines| ==> WrittenFor(e.rows[|d.rows| + i], d.next, order, lines[i]))
      && order in e.status && e.status - {order} == d.status - {order} && StatusSays(e, order, e.status[order])
  {
    hide InsertLines, FirstRefused, WrittenFor, TotalOf;
    LinesWritten(d.rows, d.next, order, lines);
  }

  // ----- it never goes backwards -----

  function Rank(s: Status): nat {
    match s case NotYet => 0 case Partly => 1 case Fully => 2
  }

  ghost predicate MoreOf(items: seq<OrderItem>, order: string, rows: seq<Shipped>, later: seq<Shipped>) {
    forall i :: 0 <= i < |items| ==> TotalOf(rows, order, items[i].position) <= TotalOf(later, order, items[i].position)
  }

  lemma {:induction false} StatusGrows(items: seq<OrderItem>, order: string, rows: seq<Shipped>, later: seq<Shipped>)
    requires MoreOf(items, order, rows, later)
    ensures Rank(StatusOf(items, rows, order)) <= Rank(StatusOf(items, later, order))
  {
    if Started(items, rows, order) {
      var i :| 0 <= i < |items| && TotalOf(rows, order, items[i].position) > 0;
      assert TotalOf(later, order, items[i].position) > 0;
    }
    if Complete(items, rows, order) {
      assert Complete(items, later, order);
    }
  }

  ghost predicate NothingTakenBack(calls: seq<Call>) {
    forall k :: 0 <= k < |calls| ==> NonNegative(calls[k].lines)
  }

  ghost predicate NonNegative(lines: seq<Ask>) {
    forall i :: 0 <= i < |lines| ==> lines[i].quantity.num >= 0
  }

  lemma {:induction false} DoAdds(d: Desk, call: Call, order: string)
    requires order in d.items && NonNegative(call.lines) && Numbered(d)
    ensures MoreOf(d.items[order], order, d.rows, Do(d, call).rows)
  {
    if call.order != order {
      OtherDo(d, call, order);
    } else {
      forall i | 0 <= i < |d.items[order]|
        ensures TotalOf(d.rows, order, d.items[order][i].position) <= TotalOf(Do(d, call).rows, order, d.items[order][i].position)
      {
        assert New(d.rows, d.next);
        var k := WritesOnce(d.rows, d.next, order, call.lines, d.items[order][i].position);
      }
    }
  }

  /** The column is never ahead of the deliveries. */
  ghost predicate NotAhead(d: Desk, order: string)
    requires order in d.items
  {
    order in d.status && Rank(d.status[order]) <= Rank(StatusOf(d.items[order], d.rows, order))
  }

  lemma {:induction false} DoForward(d: Desk, call: Call, order: string)
    requires Numbered(d) && order in d.items && NotAhead(d, order) && NonNegative(call.lines)
    ensures NotAhead(Do(d, call), order) && Rank(d.status[order]) <= Rank(Do(d, call).status[order])
  {
    var e := Do(d, call);
    DoAdds(d, call, order);
    StatusGrows(d.items[order], order, d.rows, e.rows);
    if call.order != order {
      OtherDo(d, call, order);
    }
  }

  /** Over a run that takes nothing back an order's status never goes backwards. */
  lemma {:induction false} NeverBackwards(d: Desk, calls: seq<Call>, order: string, n: nat)
    requires Numbered(d) && order in d.items && NotAhead(d, order) && NothingTakenBack(calls) && n <= |calls|
    ensures NotAhead(Run(d, calls), order) && NotAhead(Run(d, calls[..n]), order) && Numbered(Run(d, calls))
    ensures Rank(Run(d, calls[..n]).status[order]) <= Rank(Run(d, calls).status[order])
    decreases |calls|
  {
    if n == |calls| {
      assert calls[..n] == calls;
      if n > 0 {
        var m := n - 1;
        assert forall k :: 0 <= k < m ==> calls[..m][k] == calls[k];
        NeverBackwards(d, calls[..m], order, m);
        DoNumbered(Run(d, calls[..m]), calls[m]);
        DoForward(Run(d, calls[..m]), calls[m], order);
      }
    } else {
      var m := |calls| - 1;
      assert calls[..m][..n] == calls[..n];
      assert forall k :: 0 <= k < m ==> calls[..m][k] == calls[k];
      NeverBackwards(d, calls[..m], order, n);
      DoNumbered(Run(d, calls[..m]), calls[m]);
      DoForward(Run(d, calls[..m]), calls[m], order);
    }
  }
}
