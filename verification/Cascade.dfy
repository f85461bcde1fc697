/** Deleting a row takes with it every row reachable from it along to-many navigations, and logs
    each of them once. */
module Cascade {
  import opened Common

  /** `fields` are the columns that are not null. */
  datatype Row = Row(entity: string, key: string, fields: map<string, string>)

  datatype Join = Join(local: string, remote: string)

  datatype Nav = Nav(target: string, many: bool, on: seq<Join>)

  type Schema = map<string, seq<Nav>>

  datatype Gone = Gone(entity: string, key: string)

  function NavsOf(schema: Schema, row: Row): seq<Nav> {
    if row.entity in schema then schema[row.entity] else []
  }

  /** Two columns agree; a null agrees with nothing. */
  predicate Agree(row: Row, local: string, other: Row, remote: string) {
    local in row.fields && remote in other.fields && row.fields[local] == other.fields[remote]
  }

  predicate Joins(nav: Nav, row: Row, other: Row) {
    nav.many && other.entity == nav.target
    && forall k :: 0 <= k < |nav.on| ==> Agree(row, nav.on[k].local, other, nav.on[k].remote)
  }

  ghost predicate IsChild(schema: Schema, row: Row, other: Row) {
    exists i :: 0 <= i < |NavsOf(schema, row)| && Joins(NavsOf(schema, row)[i], row, other)
  }

  // ----- what is reachable -----

  /** Each row of the path is in the table and a child of the one before it. */
  ghost predicate Path(schema: Schema, table: set<Row>, root: Row, p: seq<Row>)
    decreases |p|
  {
    |p| == 0 || (p[0] in table && IsChild(schema, root, p[0]) && Path(schema, table, p[0], p[1..]))
  }

  ghost predicate Reaches(schema: Schema, table: set<Row>, root: Row, row: Row) {
    exists p :: p != [] && Path(schema, table, root, p) && p[|p| - 1] == row
  }

  lemma {:induction false} PathGrows(schema: Schema, table: set<Row>, larger: set<Row>, root: Row, p: seq<Row>)
    requires table <= larger && Path(schema, table, root, p)
    ensures Path(schema, larger, root, p)
    decreases |p|
  {
    if |p| > 0 {
      PathGrows(schema, table, larger, p[0], p[1..]);
    }
  }

  /** A child is reached, and so is whatever is reached from it. */
  lemma {:induction false} ReachesThrough(schema: Schema, table: set<Row>, larger: set<Row>, root: Row, child: Row, row: Row)
    requires table <= larger && child in larger && IsChild(schema, root, child)
    requires row == child || Reaches(schema, table, child, row)
    ensures Reaches(schema, larger, root, row)
  {
    if row == child {
      assert Path(schema, larger, root, [child]);
    } else {
      var p :| p != [] && Path(schema, table, child, p) && p[|p| - 1] == row;
      PathGrows(schema, table, larger, child, p);
      var q := [child] + p;
      assert q[1..] == p;
      assert Path(schema, larger, root, q) && q[|q| - 1] == row;
    }
  }

  /** No row left is a child of this one. */
  ghost predicate Childless(schema: Schema, table: set<Row>, row: Row) {
    forall other :: other in table ==> !IsChild(schema, row, other)
  }

  ghost predicate AllChildless(schema: Schema, table: set<Row>, gone: seq<Row>) {
    forall row :: row in gone ==> Childless(schema, table, row)
  }

  /** Where no removed row has a child left, a path of rows that were there ends in a removed one. */
  lemma {:induction false} PathIsGone(schema: Schema, before: set<Row>, table: set<Row>, gone: seq<Row>, root: Row, p: seq<Row>)
    requires p != [] && Path(schema, before, root, p)
    requires forall row :: row in before ==> row in table || row in gone
    requires Childless(schema, table, root) && AllChildless(schema, table, gone)
    ensures p[|p| - 1] in gone
    decreases |p|
  {
    assert p[0] in gone;
    if |p| > 1 {
      PathIsGone(schema, before, table, gone, p[0], p[1..]);
    }
  }

  // ----- deleting -----

  /** The rows there were are the rows left, the rows gone, each once, and the rows still to go. */
  ghost predicate Split(before: set<Row>, table: set<Row>, gone: seq<Row>, left: set<Row>) {
    && (forall row :: row in before <==> row in table || row in gone || row in left)
    && (forall row :: row in table ==> row !in gone && row !in left)
    && (forall row :: row in left ==> row !in gone)
    && Distinct(gone)
  }

  ghost predicate AllReached(schema: Schema, before: set<Row>, root: Row, gone: seq<Row>) {
    forall row :: row in gone ==> Reaches(schema, before, root, row)
  }

  /** A row goes after the row it is a child of. */
  ghost predicate AfterParent(schema: Schema, root: Row, gone: seq<Row>, i: nat)
    requires i < |gone|
  {
    IsChild(schema, root, gone[i]) || exists j :: 0 <= j < i && IsChild(schema, gone[j], gone[i])
  }

  ghost predicate ParentsFirst(schema: Schema, root: Row, gone: seq<Row>) {
    forall i :: 0 <= i < |gone| ==> AfterParent(schema, root, gone, i)
  }

  lemma {:induction false} ParentsFirstMore(schema: Schema, root: Row, gone: seq<Row>, child: Row, below: seq<Row>)
    requires ParentsFirst(schema, root, gone) && IsChild(schema, root, child) && ParentsFirst(schema, child, below)
    ensures ParentsFirst(schema, root, gone + [child] + below)
  {
    hide IsChild;
    var all, n := gone + [child] + below, |gone|;
    forall i | 0 <= i < |all| ensures AfterParent(schema, root, all, i) {
      if i < n {
        assert AfterParent(schema, root, gone, i);
        if !IsChild(schema, root, gone[i]) {
          var j :| 0 <= j < i && IsChild(schema, gone[j], gone[i]);
          assert all[j] == gone[j];
        }
      } else if i > n {
        var k := i - n - 1;
        assert all[i] == below[k] && AfterParent(schema, child, below, k);
        if IsChild(schema, child, below[k]) {
          assert all[n] == child;
        } else {
          var j :| 0 <= j < k && IsChild(schema, below[j], below[k]);
          assert all[n + 1 + j] == below[j];
        }
      }
    }
  }

  /** What deleting a row's children leaves of a table. */
  ghost predicate Cascaded(schema: Schema, before: set<Row>, table: set<Row>, root: Row, gone: seq<Row>) {
    && ParentsFirst(schema, root, gone)
    && Split(before, table, gone, {})
    && AllReached(schema, before, root, gone)
    && Childless(schema, table, root) && AllChildless(schema, table, gone)
  }

  /** No row left is a child by the first `n` navigations. */
  ghost predicate ChildlessUpTo(schema: Schema, table: set<Row>, row: Row, n: nat)
    requires n <= |NavsOf(schema, row)|
  {
    forall other, i :: other in table && 0 <= i < n ==> !Joins(NavsOf(schema, row)[i], row, other)
  }

  ghost predicate AllChildren(schema: Schema, before: set<Row>, root: Row, rows: set<Row>) {
    forall row :: row in rows ==> row in before && IsChild(schema, root, row)
  }

  /** Part of the way through: `left` are children not yet gone into. */
  ghost predicate Underway(schema: Schema, before: set<Row>, table: set<Row>, root: Row, gone: seq<Row>, left: set<Row>) {
    && ParentsFirst(schema, root, gone)
    && Split(before, table, gone, left)
    && AllReached(schema, before, root, gone) && AllChildless(schema, table, gone)
    && AllChildren(schema, before, root, left)
  }

  lemma {:induction false} TakesChildren(schema: Schema, before: set<Row>, table: set<Row>, root: Row, gone: seq<Row>, n: nat, left: set<Row>)
    requires Underway(schema, before, table, root, gone, {}) && n < |NavsOf(schema, root)|
    requires left == set row | row in table && Joins(NavsOf(schema, root)[n], root, row)
    ensures Underway(schema, before, table - left, root, gone, left)
    ensures ChildlessUpTo(schema, table, root, n) ==> ChildlessUpTo(schema, table - left, root, n + 1)
  {
    forall row | row in left ensures row in before && IsChild(schema, root, row) {
      assert row in table;
    }
    forall row | row in gone ensures Childless(schema, table - left, row) {
      assert Childless(schema, table, row);
    }
  }

  /** A child and everything below it gone, the rest is as far on as it was. */
  lemma {:induction false} OneChildDone(schema: Schema, before: set<Row>, table: set<Row>, after: set<Row>, root: Row, gone: seq<Row>, left: set<Row>,
                     child: Row, below: seq<Row>)
    requires Underway(schema, before, table, root, gone, left) && child in left
    requires Cascaded(schema, table, after, child, below)
    ensures Underway(schema, before, after, root, gone + [child] + below, left - {child})
    ensures after <= table
  {
    var all := gone + [child] + below;
    ParentsFirstMore(schema, root, gone, child, below);
    SplitOn(before, table, after, gone, left, child, below);
    MemberOfAll(gone, child, below);
    forall row | row in all ensures Reaches(schema, before, root, row) {
      if row !in gone {
        assert row == child || Reaches(schema, table, child, row);
        ReachesThrough(schema, table, before, root, child, row);
      }
    }
    forall row | row in all ensures Childless(schema, after, row) {
      if row in gone {
        assert Childless(schema, table, row);
      }
    }
  }

  lemma {:induction false} MemberOfAll(gone: seq<Row>, child: Row, below: seq<Row>)
    ensures forall row :: row in gone + [child] + below <==> row in gone || row == child || row in below
  {
  }

  lemma {:induction false} SplitOn(before: set<Row>, table: set<Row>, after: set<Row>, gone: seq<Row>, left: set<Row>, child: Row, below: seq<Row>)
    requires Split(before, table, gone, left) && child in left && Split(table, after, below, {})
    ensures Split(before, after, gone + [child] + below, left - {child}) && after <= table
  {
    var all := gone + [child] + below;
    MemberOfAll(gone, child, below);
    forall row | row in below ensures row in table && row !in gone && row !in left {
    }
    forall i, j | 0 <= i < j < |all| ensures all[i] != all[j] {
      if j < |gone| {
      } else if j == |gone| {
        assert all[i] in gone;
      } else {
        assert all[j] == below[j - |gone| - 1] && all[j] in below;
        if i < |gone| {
          assert all[i] in gone;
        } else if i > |gone| {
          assert all[i] == below[i - |gone| - 1];
        }
      }
    }
  }

  lemma {:induction false} AllDone(schema: Schema, before: set<Row>, table: set<Row>, root: Row, gone: seq<Row>)
    requires Underway(schema, before, table, root, gone, {})
    requires ChildlessUpTo(schema, table, root, |NavsOf(schema, root)|)
    ensures Cascaded(schema, before, table, root, gone)
  {
  }

  function Notes(gone: seq<Row>): (r: seq<Gone>)
    ensures |r| == |gone|
  {
    Map(gone, (row: Row) => Gone(row.entity, row.key))
  }

  lemma {:induction false} NotesMore(base: seq<Gone>, gone: seq<Row>, child: Row, below: seq<Row>)
    ensures base + Notes(gone + [child] + below)
         == base + Notes(gone) + [Gone(child.entity, child.key)] + Notes(below)
  {
    assert Notes(gone + [child] + below) == Notes(gone) + [Gone(child.entity, child.key)] + Notes(below);
  }

  lemma {:induction false} LeftIsOut(schema: Schema, before: set<Row>, table: set<Row>, root: Row, gone: seq<Row>, left: set<Row>,
                                     child: Row)
    requires Underway(schema, before, table, root, gone, left) && child in left
    ensures child in before && child !in table
  {
  }

  lemma {:induction false} ChildlessShrinks(schema: Schema, table: set<Row>, smaller: set<Row>, root: Row, n: nat)
    requires n <= |NavsOf(schema, root)| && ChildlessUpTo(schema, table, root, n) && smaller <= table
    ensures ChildlessUpTo(schema, smaller, root, n)
  {
  }

  class Tables {
    const schema: Schema
    var table: set<Row>
    var log: seq<Gone>

    constructor (schema: Schema, table: set<Row>)
      ensures this.schema == schema && this.table == table && log == []
    {
      this.schema, this.table, log := schema, table, [];
    }

    method RecordDeletion(row: Row)
      modifies this`log
      ensures log == old(log) + [Gone(row.entity, row.key)]
    {
      log := log + [Gone(row.entity, row.key)];
    }

    /** Along each to-many navigation the children go, then what is below each of them. */
    method DeleteChildren(row: Row) returns (ghost gone: seq<Row>)
      modifies this`table, this`log
      ensures table <= old(table) && Cascaded(schema, old(table), table, row, gone)
      ensures log == old(log) + Notes(gone)
      decreases table
    {
      gone := [];
      var navs := NavsOf(schema, row);
      for i := 0 to |navs|
        invariant table <= old(table) && Underway(schema, old(table), table, row, gone, {})
        invariant ChildlessUpTo(schema, table, row, i)
        invariant log == old(log) + Notes(gone)
      {
        var children := set other | other in table && Joins(navs[i], row, other);
        TakesChildren(schema, old(table), table, row, gone, i, children);
        table := table - children;
        gone := DeleteThese(row, children, old(table), old(log), gone, i + 1);
      }
      AllDone(schema, old(table), table, row, gone);
    }

    /** The children taken out of the table, and what is below them. */
    method DeleteThese(row: Row, children: set<Row>, ghost before: set<Row>, ghost base: seq<Gone>, ghost gone: seq<Row>, ghost n: nat)
      returns (ghost gone': seq<Row>)
      requires table <= before && Underway(schema, before, table, row, gone, children)
      requires n <= |NavsOf(schema, row)| && ChildlessUpTo(schema, table, row, n)
      requires log == base + Notes(gone)
      modifies this`table, this`log
      ensures table <= old(table) && Underway(schema, before, table, row, gone', {})
      ensures ChildlessUpTo(schema, table, row, n)
      ensures log == base + Notes(gone')
      decreases before, 1
    {
      gone' := gone;
      var left := children;
      while left != {}
        invariant table <= old(table) && Underway(schema, before, table, row, gone', left)
        invariant log == base + Notes(gone')
        decreases left
      {
        var child :| child in left;
        gone' := DeleteChild(row, child, before, base, gone', left);
        left := left - {child};
      }
      ChildlessShrinks(schema, old(table), table, row, n);
    }

    method DeleteChild(row: Row, child: Row, ghost before: set<Row>, ghost base: seq<Gone>, ghost gone: seq<Row>, ghost left: set<Row>)
      returns (ghost gone': seq<Row>)
      requires table <= before && Underway(schema, before, table, row, gone, left) && child in left
      requires log == base + Notes(gone)
      modifies this`table, this`log
      ensures table <= old(table) && Underway(schema, before, table, row, gone', left - {child})
      ensures log == base + Notes(gone')
      decreases before, 0
    {
      LeftIsOut(schema, before, table, row, gone, left, child);
      RecordDeletion(child);
      ghost var below := DeleteChildren(child);
      OneChildDone(schema, before, old(table), table, row, gone, left, child, below);
      NotesMore(base, gone, child, below);
      gone' := gone + [child] + below;
    }

    /** The row itself, and everything below it. */
    method Delete(entity: string, key: string) returns (found: bool, ghost gone: seq<Row>)
      modifies this`table, this`log
      ensures found <==> exists row :: row in old(table) && row.entity == entity && row.key == key
      ensures !found ==> table == old(table) && log == old(log)
      ensures found ==> Deleted(schema, old(table), table, entity, key, gone) && log == old(log) + Notes(gone)
      ensures found ==> LinksDecide(schema, old(table), table, entity, key, gone)
    {
      var existing := set row | row in table && row.entity == entity && row.key == key;
      if existing == {} {
        assert forall row :: row in table && row.entity == entity && row.key == key ==> row in existing;
        return false, [];
      }
      var row :| row in existing;
      RecordDeletion(row);
      table := table - {row};
      ghost var taken := table;
      ghost var below := DeleteChildren(row);
      gone := [row] + below;
      NotesMore(old(log), [], row, below);
      assert [] + [row] + below == gone;
      DeletedIs(schema, old(table), taken, table, row, below);
      LinksAre(schema, old(table), taken, table, row, below);
      found := true;
    }
  }

  /** One row of the key, and every row that was reachable from it, and no other, are gone; each is
      logged once, though more than one path may have led to it. */
  ghost predicate Deleted(schema: Schema, before: set<Row>, table: set<Row>, entity: string, key: string, gone: seq<Row>) {
    && gone != [] && gone[0].entity == entity && gone[0].key == key && gone[0] in before
    && Distinct(gone)
    && (forall row :: row in gone <==> row == gone[0] || Reaches(schema, before, gone[0], row))
    && (forall row :: row in table <==> row in before && row !in gone)
  }

  /** A to-many navigation of the one row's entity leads to the other: it targets its entity, and every
      pair of columns it joins on is there on both and equal. */
  ghost predicate Linked(schema: Schema, q: Row, row: Row) {
    q.entity in schema
    && exists nav :: nav in schema[q.entity] && nav.many && nav.target == row.entity
         && forall on :: on in nav.on ==>
              on.local in q.fields && on.remote in row.fields && q.fields[on.local] == row.fields[on.remote]
  }

  lemma {:induction false} ChildIsLinked(schema: Schema, q: Row, row: Row)
    ensures IsChild(schema, q, row) <==> Linked(schema, q, row)
  {
    var navs := NavsOf(schema, q);
    if IsChild(schema, q, row) {
      var i :| 0 <= i < |navs| && Joins(navs[i], q, row);
      assert navs[i] in schema[q.entity];
    }
    if Linked(schema, q, row) {
      var nav :| nav in schema[q.entity] && nav.many && nav.target == row.entity
        && forall on :: on in nav.on ==>
             on.local in q.fields && on.remote in row.fields && q.fields[on.local] == row.fields[on.remote];
      var i :| 0 <= i < |navs| && navs[i] == nav;
      forall k | 0 <= k < |nav.on| ensures Agree(q, nav.on[k].local, row, nav.on[k].remote) {
        assert nav.on[k] in nav.on;
      }
      assert Joins(navs[i], q, row);
    }
  }

  /** Each row gone after the first is linked to one gone before it; a row that was there and is linked
      to a row gone is gone; and nothing else is. */
  ghost predicate LinksDecide(schema: Schema, before: set<Row>, table: set<Row>, entity: string, key: string, gone: seq<Row>) {
    && gone != [] && gone[0] in before && gone[0].entity == entity && gone[0].key == key
    && (forall i :: 0 < i < |gone| ==> LinkedBefore(schema, gone, i))
    && (forall row, q :: row in before && q in gone && Linked(schema, q, row) ==> row in gone)
    && (forall row :: row in table <==> row in before && row !in gone)
  }

  ghost predicate LinkedBefore(schema: Schema, gone: seq<Row>, i: nat)
    requires i < |gone|
  {
    exists j :: 0 <= j < i && Linked(schema, gone[j], gone[i])
  }

  lemma {:induction false} LinksAre(schema: Schema, before: set<Row>, taken: set<Row>, table: set<Row>, root: Row, below: seq<Row>)
    requires root in before && taken == before - {root} && Cascaded(schema, taken, table, root, below)
    ensures LinksDecide(schema, before, table, root.entity, root.key, [root] + below)
  {
    hide IsChild, Linked, Reaches;
    var gone := [root] + below;
    assert forall row :: row in gone <==> row == root || row in below;
    forall i | 0 < i < |gone| ensures LinkedBefore(schema, gone, i) {
      assert AfterParent(schema, root, below, i - 1) && gone[i] == below[i - 1];
      if IsChild(schema, root, below[i - 1]) {
        ChildIsLinked(schema, gone[0], gone[i]);
      } else {
        var j :| 0 <= j < i - 1 && IsChild(schema, below[j], below[i - 1]);
        ChildIsLinked(schema, gone[j + 1], gone[i]);
      }
    }
    forall row, q | row in before && q in gone && Linked(schema, q, row) ensures row in gone {
      ChildIsLinked(schema, q, row);
      assert Childless(schema, table, q);
    }
  }

  /** A to-many navigation leads to the entity. */
  ghost predicate Targeted(schema: Schema, entity: string) {
    exists source, nav :: source in schema && nav in schema[source] && nav.many && nav.target == entity
  }

  /** Only a row some to-many navigation leads to goes without being named: any other stays. */
  lemma {:induction false} GoneIsTargeted(schema: Schema, before: set<Row>, table: set<Row>, entity: string, key: string, gone: seq<Row>,
                                          row: Row)
    requires LinksDecide(schema, before, table, entity, key, gone) && row in before && row !in table
    ensures row == gone[0] || Targeted(schema, row.entity)
  {
    var i :| 0 <= i < |gone| && gone[i] == row;
    if i > 0 {
      assert LinkedBefore(schema, gone, i);
      var j :| 0 <= j < i && Linked(schema, gone[j], gone[i]);
    }
  }

  lemma {:induction false} DeletedIs(schema: Schema, before: set<Row>, taken: set<Row>, table: set<Row>, root: Row, below: seq<Row>)
    requires root in before && taken == before - {root} && Cascaded(schema, taken, table, root, below)
    ensures Deleted(schema, before, table, root.entity, root.key, [root] + below)
  {
    var gone := [root] + below;
    assert forall row :: row in gone <==> row == root || row in below;
    forall row | row in below ensures Reaches(schema, before, root, row) {
      var p :| p != [] && Path(schema, taken, root, p) && p[|p| - 1] == row;
      PathGrows(schema, taken, before, root, p);
    }
    forall row | Reaches(schema, before, root, row) ensures row in gone {
      var p :| p != [] && Path(schema, before, root, p) && p[|p| - 1] == row;
      PathIsGone(schema, before, table, gone, root, p);
    }
    forall i, j | 0 <= i < j < |gone| ensures gone[i] != gone[j] {
      assert gone[j] == below[j - 1] && gone[j] in below;
      if i > 0 {
        assert gone[i] == below[i - 1];
      }
    }
  }
}
