/** Posting a statement's entries one payee at a time: every document finds its items open,
    and totals over the groups are totals over the entries. */
module Grouping {
  import opened Common
  import opened Money
  import opened Text
  import opened Terms
  import opened Books
  import opened Totals
  import opened Matching
  import opened Posting
  import opened Statements

  // ----- payees -----

  lemma {:induction false} PayeesAre(entries: seq<Entry>)
    ensures Distinct(Payees(entries))
    ensures forall p :: p in Payees(entries) <==> exists i :: 0 <= i < |entries| && PayeeOf(entries[i].what.item) == p
  {
    if |entries| > 0 {
      var rest, last := entries[..|entries| - 1], entries[|entries| - 1];
      PayeesAre(rest);
      forall p ensures p in Payees(entries) <==> exists i :: 0 <= i < |entries| && PayeeOf(entries[i].what.item) == p {
        if p in Payees(rest) {
          var i :| 0 <= i < |rest| && PayeeOf(rest[i].what.item) == p;
          assert PayeeOf(entries[i].what.item) == p;
        }
        if p in Payees(entries) && p !in Payees(rest) {
          assert PayeeOf(entries[|rest|].what.item) == p;
        }
        if i :| 0 <= i < |entries| && PayeeOf(entries[i].what.item) == p {
          if i < |rest| {
            assert PayeeOf(rest[i].what.item) == p;
          }
        }
      }
    }
  }

  // ----- sums -----

  ghost function SumGroups(entries: seq<Entry>, payees: seq<Payee>, g: Entry -> int): int {
    if |payees| == 0 then 0
    else SumGroups(entries, payees[..|payees| - 1], g) + Sum(GroupOf(entries, payees[|payees| - 1]), g)
  }

  lemma {:induction false} FilterSum<T>(s: seq<T>, p: T -> bool, f: T -> int, g: T -> int)
    requires forall x :: g(x) == if p(x) then f(x) else 0
    ensures Sum(Filter(s, p), f) == Sum(s, g)
  {
    if |s| > 0 {
      var rest, x := s[..|s| - 1], s[|s| - 1];
      FilterSum(rest, p, f, g);
      if p(x) {
        SumSnoc(Filter(rest, p), x, f);
      } else {
        assert Filter(s, p) == Filter(rest, p);
      }
    }
  }

  lemma {:induction false} GroupsSum(entries: seq<Entry>, payees: seq<Payee>, g: Entry -> int)
    requires Distinct(payees)
    ensures SumGroups(entries, payees, g) == Sum(entries, (e: Entry) => if PayeeOf(e.what.item) in payees then g(e) else 0)
  {
    hide PayeeOf, Filter, Sum;
    var all := (e: Entry) => if PayeeOf(e.what.item) in payees then g(e) else 0;
    if |payees| == 0 {
      SumZero(entries, all);
    } else {
      var rest, p := payees[..|payees| - 1], payees[|payees| - 1];
      var before := (e: Entry) => if PayeeOf(e.what.item) in rest then g(e) else 0;
      var here := (e: Entry) => if PayeeOf(e.what.item) == p then g(e) else 0;
      GroupsSum(entries, rest, g);
      FilterSum(entries, (e: Entry) => PayeeOf(e.what.item) == p, g, here);
      assert payees == rest + [p] && p !in rest;
      SumAdd(entries, before, here, all);
    }
  }

  /** Summing group by group is summing over every entry. */
  lemma {:induction false} GroupsSumAll(entries: seq<Entry>, g: Entry -> int)
    ensures SumGroups(entries, Payees(entries), g) == Sum(entries, g)
  {
    PayeesAre(entries);
    GroupsSum(entries, Payees(entries), g);
    SumAgree(entries, (e: Entry) => if PayeeOf(e.what.item) in Payees(entries) then g(e) else 0, entries, g);
  }

  // ----- readiness -----

  ghost predicate Pending(b: Book, side: Side, entries: seq<Entry>) {
    EntriesDiffer(entries) && forall i :: 0 <= i < |entries| ==> ReadyAt(b, entries[i].what.item, side)
  }

  ghost predicate Done(entries: seq<Entry>, payees: seq<Payee>, key: Key) {
    exists i :: 0 <= i < |entries| && entries[i].what.item.key == key && PayeeOf(entries[i].what.item) in payees
  }

  lemma {:induction false} GroupDiffers(entries: seq<Entry>, p: Entry -> bool)
    requires EntriesDiffer(entries)
    ensures EntriesDiffer(Filter(entries, p))
  {
    if |entries| > 0 {
      var rest, last := entries[..|entries| - 1], entries[|entries| - 1];
      GroupDiffers(rest, p);
      FilterMembers(rest, p);
      forall e | e in Filter(rest, p) ensures e.what.item.key != last.what.item.key {
        var i :| 0 <= i < |rest| && rest[i] == e;
        assert entries[i] == e;
      }
    }
  }

  /** The document posted so far has cleared the entries of the payees so far, and no other. */
  ghost predicate DoneSoFar(b: Book, c: Book, entries: seq<Entry>, payees: seq<Payee>) {
    forall key :: HasKey(b, key) ==>
      && (IsCleared(c, key) <==> IsCleared(b, key) || Done(entries, payees, key))
      && (IsOpen(c, key) <==> IsOpen(b, key) && !Done(entries, payees, key))
  }

  lemma {:induction false} CurrentGrows(b: Book, c: Book, it: Item)
    requires Grows(b, c) && Current(b, it)
    ensures Current(c, it)
  {
    var i :| 0 <= i < |b.items| && RowIs(b.items[i], it);
    assert SameFacts(b.items[i], c.items[i]);
    assert RowIs(c.items[i], it);
  }

  lemma {:induction false} GroupReady(b: Book, c: Book, side: Side, entries: seq<Entry>, payees: seq<Payee>, p: Payee)
    requires Pending(b, side, entries) && Grows(b, c) && DoneSoFar(b, c, entries, payees)
    requires p !in payees && GroupOf(entries, p) != []
    ensures Ready(c, Bare(GroupOf(entries, p)), side)
  {
    var mine := (e: Entry) => PayeeOf(e.what.item) == p;
    var group := GroupOf(entries, p);
    var bare := Bare(group);
    GroupDiffers(entries, mine);
    FilterMembers(entries, mine);
    forall i | 0 <= i < |bare| ensures ReadyAt(c, bare[i].item, side) && PayeeOf(bare[i].item) == p {
      assert group[i] in entries;
      var j :| 0 <= j < |entries| && entries[j] == group[i];
      assert ReadyAt(b, entries[j].what.item, side);
      CurrentGrows(b, c, bare[i].item);
      var key := bare[i].item.key;
      assert HasKey(b, key) && !Done(entries, payees, key);
    }
    SamePayee(bare, p, side, c);
  }

  lemma {:induction false} SamePayee(bare: seq<Settling>, p: Payee, side: Side, c: Book)
    requires bare != [] && forall i :: 0 <= i < |bare| ==> ReadyAt(c, bare[i].item, side) && PayeeOf(bare[i].item) == p
    ensures forall i :: 0 <= i < |bare| ==> bare[i].item.line.currency == bare[0].item.line.currency
                                            && bare[i].item.key.company == bare[0].item.key.company
  {
    forall i | 0 <= i < |bare| ensures bare[i].item.line.currency == bare[0].item.line.currency
                                            && bare[i].item.key.company == bare[0].item.key.company {
      assert ReadyAt(c, bare[i].item, side) && ReadyAt(c, bare[0].item, side);
      assert PayeeOf(bare[i].item) == PayeeOf(bare[0].item);
    }
  }

  lemma {:induction false} PostGroupKeeps(b: Book, side: Side, group: seq<Settling>, posting: Date, statement: string)
    requires side != GLLine && Valid(b) && Ready(b, group, side)
    ensures var c := PostGroup(b, side, group, posting, statement);
      Valid(c) && Grows(b, c) && (CentsOnly(b) ==> CentsOnly(c)) && Clears(b, c, group) && c.next == b.next + 1
  {
    ReadyChanges(b, group, side, posting);
    if side == SupplierLine {
      PayKeeps(b, group, posting, statement);
      SettleClears(b, HeadingOf(group[0].item, "ZP", posting, statement), PayLines(group), group, posting, side, None);
      SettleIs(b, HeadingOf(group[0].item, "ZP", posting, statement), PayLines(group), SettlingChanges(group, b.next, posting), side, None);
    } else {
      CollectKeeps(b, group, posting, statement);
      SettleClears(b, HeadingOf(group[0].item, "DZ", posting, statement), CollectLines(group), group, posting, side, Some(|group|));
      SettleIs(b, HeadingOf(group[0].item, "DZ", posting, statement), CollectLines(group), SettlingChanges(group, b.next, posting), side, Some(|group|));
    }
  }

  lemma {:induction false} DoneOneMore(b: Book, c: Book, d: Book, entries: seq<Entry>, payees: seq<Payee>, p: Payee)
    requires Grows(b, c) && DoneSoFar(b, c, entries, payees) && Clears(c, d, Bare(GroupOf(entries, p)))
    ensures DoneSoFar(b, d, entries, payees + [p])
  {
    var group := GroupOf(entries, p);
    FilterMembers(entries, (e: Entry) => PayeeOf(e.what.item) == p);
    forall key | HasKey(b, key)
      ensures IsCleared(d, key) <==> IsCleared(b, key) || Done(entries, payees + [p], key)
      ensures IsOpen(d, key) <==> IsOpen(b, key) && !Done(entries, payees + [p], key)
    {
      HasKeyGrows(b, c, key);
      SettledInGroup(entries, p, key);
      DoneWith(entries, payees, p, key);
    }
  }

  lemma {:induction false} HasKeyGrows(b: Book, c: Book, key: Key)
    requires Grows(b, c) && HasKey(b, key)
    ensures HasKey(c, key)
  {
    var i :| 0 <= i < |b.items| && b.items[i].key == key;
    assert SameFacts(b.items[i], c.items[i]);
  }

  lemma {:induction false} SettledInGroup(entries: seq<Entry>, p: Payee, key: Key)
    ensures Settled(Bare(GroupOf(entries, p)), key)
       <==> exists i :: 0 <= i < |entries| && entries[i].what.item.key == key && PayeeOf(entries[i].what.item) == p
  {
    var group := GroupOf(entries, p);
    FilterMembers(entries, (e: Entry) => PayeeOf(e.what.item) == p);
    if Settled(Bare(group), key) {
      var i :| 0 <= i < |group| && Bare(group)[i].item.key == key;
      assert group[i] in entries;
    }
    forall i | 0 <= i < |entries| && entries[i].what.item.key == key && PayeeOf(entries[i].what.item) == p
      ensures Settled(Bare(group), key)
    {
      assert entries[i] in group;
      var k :| 0 <= k < |group| && group[k] == entries[i];
      assert Bare(group)[k].item.key == key;
    }
  }

  lemma {:induction false} DoneWith(entries: seq<Entry>, payees: seq<Payee>, p: Payee, key: Key)
    ensures Done(entries, payees + [p], key)
       <==> (Done(entries, payees, key)
             || exists i :: 0 <= i < |entries| && entries[i].what.item.key == key && PayeeOf(entries[i].what.item) == p)
  {
  }

  /** Posting group by group keeps the ledger's invariant and clears exactly the groups' items. */
  lemma {:induction false} PostGroupsKeep(b: Book, side: Side, entries: seq<Entry>, payees: seq<Payee>, posting: Date, statement: string)
    requires side != GLLine && Valid(b) && Pending(b, side, entries) && Distinct(payees)
    requires forall p :: p in payees ==> GroupOf(entries, p) != []
    ensures var c := PostGroups(b, side, entries, payees, posting, statement).book;
      Valid(c) && Grows(b, c) && (CentsOnly(b) ==> CentsOnly(c)) && DoneSoFar(b, c, entries, payees)
  {
    hide PostGroup, Filter;
    if |payees| > 0 {
      var rest, p := payees[..|payees| - 1], payees[|payees| - 1];
      PostGroupsKeep(b, side, entries, rest, posting, statement);
      var c := PostGroups(b, side, entries, rest, posting, statement).book;
      var group := Bare(GroupOf(entries, p));
      assert payees == rest + [p] && p !in rest;
      GroupReady(b, c, side, entries, rest, p);
      PostGroupKeeps(c, side, group, posting, statement);
      var d := PostGroup(c, side, group, posting, statement);
      GrowsChain(b, c, d);
      DoneOneMore(b, c, d, entries, rest, p);
    }
  }

  lemma {:induction false} GroupsExist(entries: seq<Entry>)
    ensures forall p :: p in Payees(entries) ==> GroupOf(entries, p) != []
  {
    PayeesAre(entries);
    forall p | p in Payees(entries) ensures GroupOf(entries, p) != [] {
      var i :| 0 <= i < |entries| && PayeeOf(entries[i].what.item) == p;
      FilterMember(entries, (e: Entry) => PayeeOf(e.what.item) == p, entries[i]);
    }
  }

  ghost predicate Entered(entries: seq<Entry>, key: Key) {
    exists i :: 0 <= i < |entries| && entries[i].what.item.key == key
  }

  /** Posting them all clears, of the items there were, the entries' and no other. */
  ghost predicate ClearsEntries(b: Book, c: Book, entries: seq<Entry>) {
    forall key :: HasKey(b, key) ==>
      && (IsCleared(c, key) <==> IsCleared(b, key) || Entered(entries, key))
      && (IsOpen(c, key) <==> IsOpen(b, key) && !Entered(entries, key))
  }

  lemma {:induction false} PostAllKeeps(b: Book, side: Side, entries: seq<Entry>, posting: Date, statement: string)
    requires side != GLLine && Valid(b) && Pending(b, side, entries)
    ensures var c := PostAll(b, side, entries, posting, statement).book;
      Valid(c) && Grows(b, c) && (CentsOnly(b) ==> CentsOnly(c)) && ClearsEntries(b, c, entries)
  {
    PayeesAre(entries);
    GroupsExist(entries);
    PostGroupsKeep(b, side, entries, Payees(entries), posting, statement);
    forall key ensures Entered(entries, key) <==> Done(entries, Payees(entries), key) {
      if Entered(entries, key) {
        var i :| 0 <= i < |entries| && entries[i].what.item.key == key;
        assert PayeeOf(entries[i].what.item) in Payees(entries);
      }
    }
  }

  /** Anything each document adds to, group by group, the whole posting adds to entry by entry. */
  lemma {:induction false} RowsSum(b: Book, side: Side, entries: seq<Entry>, payees: seq<Payee>, posting: Date, statement: string,
                                   f: Row -> int, g: Entry -> int)
    requires forall e: Entry, doc: nat :: f(RowOf(side, e, doc)) == g(e)
    ensures Sum(PostGroups(b, side, entries, payees, posting, statement).rows, f) == SumGroups(entries, payees, g)
  {
    if |payees| > 0 {
      var rest, p := payees[..|payees| - 1], payees[|payees| - 1];
      RowsSum(b, side, entries, rest, posting, statement, f, g);
      var before := PostGroups(b, side, entries, rest, posting, statement);
      var group := GroupOf(entries, p);
      var rows := RowsOf(side, group, before.book.next);
      SumAgree(rows, f, group, g);
      SumAppend(before.rows, rows, f);
    }
  }

  /** The rows reported for a posting are one for each entry. */
  lemma {:induction false} PostAllRows(b: Book, side: Side, entries: seq<Entry>, posting: Date, statement: string,
                                       f: Row -> int, g: Entry -> int)
    requires forall e: Entry, doc: nat :: f(RowOf(side, e, doc)) == g(e)
    ensures Sum(PostAll(b, side, entries, posting, statement).rows, f) == Sum(entries, g)
  {
    RowsSum(b, side, entries, Payees(entries), posting, statement, f, g);
    GroupsSumAll(entries, g);
  }

  lemma {:induction false} MemberOfGroup(entries: seq<Entry>, payee: Payee, i: nat) returns (j: nat)
    requires i < |GroupOf(entries, payee)|
    ensures j < |entries| && entries[j] == GroupOf(entries, payee)[i]
  {
    FilterMembers(entries, (e: Entry) => PayeeOf(e.what.item) == payee);
    j :| 0 <= j < |entries| && entries[j] == GroupOf(entries, payee)[i];
  }
}
