/** The clearings and reversals of one item, over statements: they alternate. */
module History {
  import opened Common
  import opened Text
  import opened Terms
  import opened Search
  import opened Books
  import opened Totals
  import opened Matching
  import opened Posting
  import opened Statements
  import opened Grouping
  import opened Returning

  datatype Event = Clear(item: Key) | Reverse(item: Key)

  /** Whether an item is cleared after these events, or None if one was a clearing of a cleared
      item or a reversal of an open one. */
  ghost function Play(events: seq<Event>, key: Key, cleared: bool): Option<bool> {
    if |events| == 0 then Some(cleared)
    else
      var before, last := Play(events[..|events| - 1], key, cleared), events[|events| - 1];
      if before == None || last.item != key then before
      else if before.value == last.Clear? then None
      else Some(last.Clear?)
  }

  lemma {:induction false} PlayAppend(s: seq<Event>, t: seq<Event>, key: Key, cleared: bool)
    ensures Play(s + t, key, cleared)
         == match Play(s, key, cleared) case None => None case Some(mid) => Play(t, key, mid)
  {
    if t == [] {
      assert s + t == s;
    } else {
      var u, e := t[..|t| - 1], t[|t| - 1];
      assert s + t == (s + u) + [e];
      SnocParts(s + u, e);
      PlayAppend(s, u, key, cleared);
    }
  }

  function Count(events: seq<Event>, e: Event): int {
    Sum(events, (x: Event) => if x == e then 1 else 0)
  }

  /** Where the events can be played at all, clearings outnumber reversals by what they changed. */
  lemma {:induction false} PlayCounts(events: seq<Event>, key: Key, cleared: bool)
    requires Play(events, key, cleared).Some?
    ensures Count(events, Clear(key)) - Count(events, Reverse(key))
         == (if Play(events, key, cleared).value then 1 else 0) - (if cleared then 1 else 0)
  {
    if |events| > 0 {
      PlayCounts(events[..|events| - 1], key, cleared);
    }
  }

  lemma {:induction false} PlayPrefix(events: seq<Event>, key: Key, cleared: bool, n: nat)
    requires n <= |events| && Play(events, key, cleared).Some?
    ensures Play(events[..n], key, cleared).Some?
  {
    assert events == events[..n] + events[n..];
    PlayAppend(events[..n], events[n..], key, cleared);
  }

  // ----- the events of a statement -----

  function Clearings(rows: seq<Row>): (r: seq<Event>)
    ensures |r| == |rows|
  {
    Map(rows, (row: Row) => Clear(row.item))
  }

  function Reversals(rows: seq<Row>): (r: seq<Event>)
    ensures |r| == |rows|
  {
    Map(rows, (row: Row) => Reverse(row.item))
  }

  /** In the order they are posted: everything a statement clears, then everything it reverses. */
  function EventsOf(out: Outcome): seq<Event> {
    Clearings(out.cleared) + Reversals(out.reopened)
  }

  lemma {:induction false} PlayClearings(rows: seq<Row>, key: Key, cleared: bool)
    requires forall i, j :: 0 <= i < j < |rows| ==> rows[i].item != rows[j].item
    requires (exists i :: 0 <= i < |rows| && rows[i].item == key) ==> !cleared
    ensures Play(Clearings(rows), key, cleared) == Some(cleared || exists i :: 0 <= i < |rows| && rows[i].item == key)
  {
    if |rows| > 0 {
      var rest, last := rows[..|rows| - 1], rows[|rows| - 1];
      assert forall i :: 0 <= i < |rest| ==> rest[i] == rows[i];
      PlayClearings(rest, key, cleared);
      assert Clearings(rows)[..|rows| - 1] == Clearings(rest);
      assert Clearings(rows)[|rows| - 1] == Clear(last.item);
      if last.item == key {
        assert rows[|rows| - 1].item == key;
      }
    }
  }

  lemma {:induction false} RowKeys(side: Side, group: seq<Entry>, doc: nat, key: Key)
    requires KeysDiffer(Bare(group))
    ensures var rows := RowsOf(side, group, doc);
      && (forall i, j :: 0 <= i < j < |rows| ==> rows[i].item != rows[j].item)
      && (Settled(Bare(group), key) <==> exists i :: 0 <= i < |rows| && rows[i].item == key)
  {
    var rows, bare := RowsOf(side, group, doc), Bare(group);
    assert forall i :: 0 <= i < |rows| ==> rows[i].item == bare[i].item.key;
    if i :| 0 <= i < |rows| && rows[i].item == key {
      assert bare[i].item.key == key;
    }
    if Settled(bare, key) {
      var i :| 0 <= i < |bare| && bare[i].item.key == key;
      assert rows[i].item == key;
    }
  }

  lemma {:induction false} GroupEvents(b: Book, side: Side, group: seq<Entry>, posting: Date, statement: string, key: Key)
    requires side != GLLine && Valid(b) && Ready(b, Bare(group), side) && HasKey(b, key)
    ensures Play(Clearings(RowsOf(side, group, b.next)), key, IsCleared(b, key))
         == Some(IsCleared(PostGroup(b, side, Bare(group), posting, statement), key))
  {
    var bare := Bare(group);
    var rows := RowsOf(side, group, b.next);
    PostGroupKeeps(b, side, bare, posting, statement);
    RowKeys(side, group, b.next, key);
    if Settled(bare, key) {
      var i :| 0 <= i < |bare| && bare[i].item.key == key;
      assert ReadyAt(b, bare[i].item, side);
      OpenOrCleared(b, key);
    }
    PlayClearings(rows, key, IsCleared(b, key));
  }

  lemma {:induction false} ClearingsAppend(s: seq<Row>, t: seq<Row>)
    ensures Clearings(s + t) == Clearings(s) + Clearings(t) && Reversals(s + t) == Reversals(s) + Reversals(t)
  {
  }

  lemma {:induction false} GroupsEvents(b: Book, side: Side, entries: seq<Entry>, payees: seq<Payee>, posting: Date,
                                        statement: string, key: Key)
    requires side != GLLine && Valid(b) && Pending(b, side, entries) && Distinct(payees) && HasKey(b, key)
    requires forall p :: p in payees ==> GroupOf(entries, p) != []
    ensures var p := PostGroups(b, side, entries, payees, posting, statement);
      Play(Clearings(p.rows), key, IsCleared(b, key)) == Some(IsCleared(p.book, key))
  {
    hide Collect, Map;
    if |payees| > 0 {
      var rest, p := payees[..|payees| - 1], payees[|payees| - 1];
      GroupsEvents(b, side, entries, rest, posting, statement, key);
      var before := PostGroups(b, side, entries, rest, posting, statement);
      var group := GroupOf(entries, p);
      assert payees == rest + [p] && p !in rest;
      PostGroupsKeep(b, side, entries, rest, posting, statement);
      GroupReady(b, before.book, side, entries, rest, p);
      HasKeyGrows(b, before.book, key);
      GroupEvents(before.book, side, group, posting, statement, key);
      ClearingsAppend(before.rows, RowsOf(side, group, before.book.next));
      PlayAppend(Clearings(before.rows), Clearings(RowsOf(side, group, before.book.next)), key, IsCleared(b, key));
    }
  }

  lemma {:induction false} PostAllEvents(b: Book, side: Side, entries: seq<Entry>, posting: Date, statement: string, key: Key)
    requires side != GLLine && Valid(b) && Pending(b, side, entries) && HasKey(b, key)
    ensures var p := PostAll(b, side, entries, posting, statement);
      Play(Clearings(p.rows), key, IsCleared(b, key)) == Some(IsCleared(p.book, key))
  {
    PayeesAre(entries);
    GroupsExist(entries);
    GroupsEvents(b, side, entries, Payees(entries), posting, statement, key);
  }

  // ----- reversals -----

  lemma {:induction false} OneReversal(row: Row, key: Key, cleared: bool)
    requires row.item == key ==> cleared
    ensures Play(Reversals([row]), key, cleared) == Some(cleared && row.item != key)
  {
    assert Reversals([row])[..0] == [];
    assert Play(Reversals([row])[..0], key, cleared) == Some(cleared);
  }

  lemma {:induction false} ReopenEvent(b: Book, n: Noted, it: Item, reference: string, posting: Date, key: Key)
    requires Valid(b) && Current(b, it) && IsCleared(b, it.key) && HasKey(b, key)
    ensures Play(Reversals([ReturnRow(n, it, reference, b.next)]), key, IsCleared(b, key))
         == Some(IsCleared(Reopen(b, it, n.line, posting), key))
  {
    ReopenState(b, it, n.line, posting, key);
    OneReversal(ReturnRow(n, it, reference, b.next), key, IsCleared(b, key));
  }

  lemma {:induction false} ReturnOneEvents(r: Returns, n: Noted, posting: Date, key: Key, start: bool)
    requires Valid(r.book) && HasKey(r.book, key)
    requires Play(Reversals(r.rows), key, start) == Some(IsCleared(r.book, key))
    ensures var r' := ReturnOne(r, n, posting);
      Play(Reversals(r'.rows), key, start) == Some(IsCleared(r'.book, key))
  {
    var candidates := ClearedItems(r.book, SupplierLine);
    MatchAnswers(r.book, n.line, candidates);
    ClearedItemsAre(r.book, SupplierLine);
    match Match(r.book, n.line, candidates) {
      case Refused(_) =>
      case Found(it, reference) =>
        var row := ReturnRow(n, it, reference, r.book.next);
        RowIsCurrent(r.book, it);
        ReopenEvent(r.book, n, it, reference, posting, key);
        ClearingsAppend(r.rows, [row]);
        PlayAppend(Reversals(r.rows), Reversals([row]), key, start);
    }
  }

  lemma {:induction false} ReturnAllEvents(b: Book, noted: seq<Noted>, posting: Date, key: Key)
    requires Valid(b) && HasKey(b, key)
    ensures var r := ReturnAll(b, noted, posting);
      Play(Reversals(r.rows), key, IsCleared(b, key)) == Some(IsCleared(r.book, key))
  {
    if |noted| > 0 {
      var rest, n := noted[..|noted| - 1], noted[|noted| - 1];
      ReturnAllEvents(b, rest, posting, key);
      ReturnAllKeeps(b, rest, posting);
      var r := ReturnAll(b, rest, posting);
      HasKeyGrows(b, r.book, key);
      ReturnOneEvents(r, n, posting, key, IsCleared(b, key));
    }
  }

  /** While the items of one transfer are reopened, those still to come stay cleared. */
  lemma {:induction false} ReopenAllEvents(b: Book, n: Noted, items: seq<Quote>, posting: Date, currency: string, key: Key)
    requires Valid(b) && Reopenable(b, items, currency) && HasKey(b, key)
    requires forall i :: 0 <= i < |items| ==> IsCleared(b, items[i].item.key)
    ensures var p := ReopenAll(b, n, items, posting);
      && Play(Reversals(p.rows), key, IsCleared(b, key)) == Some(IsCleared(p.book, key))
      && ((forall i :: 0 <= i < |items| ==> items[i].item.key != key) ==> (IsCleared(p.book, key) <==> IsCleared(b, key)))
  {
    hide Reopen, Grows, ValidItem, KeysUnique;
    if |items| > 0 {
      var rest, q := items[..|items| - 1], items[|items| - 1];
      assert forall i :: 0 <= i < |rest| ==> rest[i] == items[i];
      ReopenAllEvents(b, n, rest, posting, currency, key);
      assert ReopenableAt(b, q.item, currency);
      RowOfKey(b, q.item);
      ReopenAllEvents(b, n, rest, posting, currency, q.item.key);
      ReopenAllKeeps(b, n, rest, posting, currency);
      var before := ReopenAll(b, n, rest, posting);
      var row := ReturnRow(n, q.item, q.reference, before.book.next);
      CurrentGrows(b, before.book, q.item);
      HasKeyGrows(b, before.book, key);
      ReopenEvent(before.book, n, q.item, q.reference, posting, key);
      ReopenState(before.book, q.item, n.line, posting, key);
      ClearingsAppend(before.rows, [row]);
      PlayAppend(Reversals(before.rows), Reversals([row]), key, IsCleared(b, key));
    }
  }

  lemma {:induction false} RowOfKey(b: Book, it: Item)
    requires Current(b, it)
    ensures HasKey(b, it.key)
  {
    var k :| 0 <= k < |b.items| && RowIs(b.items[k], it);
  }

  lemma {:induction false} RefundOneEvents(r: Returns, n: Noted, posting: Date, key: Key, start: bool)
    requires Valid(r.book) && HasKey(r.book, key)
    requires Play(Reversals(r.rows), key, start) == Some(IsCleared(r.book, key))
    ensures var r' := RefundOne(r, n, posting);
      Play(Reversals(r'.rows), key, start) == Some(IsCleared(r'.book, key))
  {
    match MatchReturnedReceipt(r.book, n.line, ClearedItems(r.book, CustomerLine)) {
      case Stays(_) =>
      case Reopens(items) =>
        RefundIsReopenable(r.book, n.line, items);
        forall i | 0 <= i < |items| ensures IsCleared(r.book, items[i].item.key) {
          RowIsCurrent(r.book, items[i].item);
        }
        ReopenAllEvents(r.book, n, items, posting, Currency(n.line.currency), key);
        var p := ReopenAll(r.book, n, items, posting);
        ClearingsAppend(r.rows, p.rows);
        PlayAppend(Reversals(r.rows), Reversals(p.rows), key, start);
    }
  }

  lemma {:induction false} RefundAllEvents(b: Book, noted: seq<Noted>, posting: Date, key: Key)
    requires Valid(b) && HasKey(b, key)
    ensures var r := RefundAll(b, noted, posting);
      Play(Reversals(r.rows), key, IsCleared(b, key)) == Some(IsCleared(r.book, key))
  {
    if |noted| > 0 {
      var rest, n := noted[..|noted| - 1], noted[|noted| - 1];
      RefundAllEvents(b, rest, posting, key);
      RefundAllKeeps(b, rest, posting);
      var r := RefundAll(b, rest, posting);
      HasKeyGrows(b, r.book, key);
      RefundOneEvents(r, n, posting, key, IsCleared(b, key));
    }
  }

  /** A statement's clearings and reversals of an item alternate, starting from whether it was
      cleared and ending at whether it is. */
  lemma {:induction false} StatementAlternates(b: Book, lines: seq<StatementLine>, posting: Date, statement: string, key: Key)
    requires Valid(b) && HasKey(b, key)
    ensures var out := Apply(b, lines, posting, statement);
      Play(EventsOf(out), key, IsCleared(b, key)) == Some(IsCleared(out.book, key))
  {
    hide PostAll, ReturnAll, RefundAll, Pending, Valid, Grows, ReadLines, IsCleared, ClearsEntries, ReadingOk;
    var s := StagesOf(b, lines, posting, statement);
    var start := IsCleared(b, key);
    StagesKeep(b, lines, posting, statement);
    HasKeyGrows(b, s.paid.book, key);
    HasKeyGrows(s.paid.book, s.received.book, key);
    HasKeyGrows(s.received.book, s.returned.book, key);
    PostAllEvents(b, SupplierLine, s.read.settling, posting, statement, key);
    PostAllEvents(s.paid.book, CustomerLine, s.read.receiving, posting, statement, key);
    ReturnAllEvents(s.received.book, s.read.returning, posting, key);
    RefundAllEvents(s.returned.book, s.read.refunding, posting, key);
    ClearingsAppend(s.paid.rows, s.received.rows);
    ClearingsAppend(s.returned.rows, s.refunded.rows);
    PlayAppend(Clearings(s.paid.rows), Clearings(s.received.rows), key, start);
    var mid := IsCleared(s.received.book, key);
    PlayAppend(Reversals(s.returned.rows), Reversals(s.refunded.rows), key, mid);
    PlayAppend(Clearings(s.paid.rows + s.received.rows), Reversals(s.returned.rows + s.refunded.rows), key, start);
  }
}
