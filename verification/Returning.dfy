/** From what a statement says to what may be posted: entries find their items open, and what
    came back finds its items cleared. */
module Returning {
  import opened Common
  import opened Money
  import opened Text
  import opened Terms
  import opened Search
  import opened Books
  import opened Totals
  import opened Matching
  import opened Posting
  import opened Statements
  import opened Grouping

  // ----- from what was read to what may be posted -----

  lemma {:induction false} ReadIsPending(b: Book, r: Statements.Reading, lines: seq<StatementLine>, posting: Date)
    requires Valid(b) && ReadingOk(b, r, lines, posting)
    ensures Pending(b, SupplierLine, r.settling) && Pending(b, CustomerLine, r.receiving)
  {
    forall i | 0 <= i < |r.settling| ensures ReadyAt(b, r.settling[i].what.item, SupplierLine) {
      assert ReadsPayment(b, r.settling[i], lines);
      ReadIsReady(b, r.settling[i], lines, SupplierLine);
    }
    forall i | 0 <= i < |r.receiving| ensures ReadyAt(b, r.receiving[i].what.item, CustomerLine) {
      assert ReadsReceipt(b, r.receiving[i], lines, posting);
      ReadIsReady(b, r.receiving[i], lines, CustomerLine);
    }
  }

  lemma {:induction false} ReadIsReady(b: Book, e: Entry, lines: seq<StatementLine>, side: Side)
    requires Reads(b, e, lines, side)
    ensures ReadyAt(b, e.what.item, side)
  {
    var it := e.what.item;
    var k :| 0 <= k < |b.items| && b.items[k] == it;
    assert RowIs(b.items[k], it);
    assert Currency("") == "";
  }

  /** Posting the payments leaves every receivable as it was. */
  lemma {:induction false} StillPending(b: Book, c: Book, paid: seq<Entry>, entries: seq<Entry>)
    requires Valid(b) && Grows(b, c) && ClearsEntries(b, c, paid)
    requires Pending(b, SupplierLine, paid) && Pending(b, CustomerLine, entries)
    ensures Pending(c, CustomerLine, entries)
  {
    forall i | 0 <= i < |entries| ensures ReadyAt(c, entries[i].what.item, CustomerLine) {
      var it := entries[i].what.item;
      assert ReadyAt(b, it, CustomerLine);
      CurrentGrows(b, c, it);
      assert HasKey(b, it.key);
      SidesApart(b, paid, it);
    }
  }

  lemma {:induction false} SidesApart(b: Book, paid: seq<Entry>, it: Item)
    requires Valid(b) && Pending(b, SupplierLine, paid) && ReadyAt(b, it, CustomerLine)
    ensures !Entered(paid, it.key)
  {
    forall j | 0 <= j < |paid| ensures paid[j].what.item.key != it.key {
      assert ReadyAt(b, paid[j].what.item, SupplierLine);
      var k :| 0 <= k < |b.items| && RowIs(b.items[k], it);
      var l :| 0 <= l < |b.items| && RowIs(b.items[l], paid[j].what.item);
    }
  }

  // ----- what came back -----

  lemma {:induction false} ClearedItemsAre(b: Book, side: Side)
    requires Valid(b)
    ensures forall it :: it in ClearedItems(b, side) <==> it in b.items && it.line.side == side && it.clearing.Cleared?
    ensures KeysUnique(ClearedItems(b, side))
  {
    FilterMembers(b.items, (it: Item) => it.line.side == side && it.clearing.Cleared?);
    FilterKeysUnique(b.items, (it: Item) => it.line.side == side && it.clearing.Cleared?);
  }

  lemma {:induction false} RowIsCurrent(b: Book, it: Item)
    requires it in b.items
    ensures Current(b, it) && HasKey(b, it.key) && (it.clearing.Cleared? ==> IsCleared(b, it.key))
  {
    var k :| 0 <= k < |b.items| && b.items[k] == it;
    assert RowIs(b.items[k], it);
  }

  // ----- returned receipts -----

  ghost predicate IsFrom(quoted: seq<Quote>, index: nat, q: Quote) {
    exists k :: index <= k < |quoted| && q == quoted[k]
  }

  lemma {:induction false} SetOfMembers(quoted: seq<Quote>, index: nat, mask: nat)
    requires index <= |quoted| && QuotesUnique(quoted)
    ensures var s := SetOf(quoted, index, mask);
      QuotesUnique(s) && forall q :: q in s ==> IsFrom(quoted, index, q)
    decreases |quoted| - index
  {
    if index < |quoted| {
      SetOfMembers(quoted, index + 1, mask / 2);
      var rest, s := SetOf(quoted, index + 1, mask / 2), SetOf(quoted, index, mask);
      assert forall q :: q in rest ==> IsFrom(quoted, index, q) && q.item.key != quoted[index].item.key;
      if mask % 2 == 1 {
        assert s == [quoted[index]] + rest;
        assert IsFrom(quoted, index, quoted[index]);
        forall i, j | 0 <= i < j < |s| ensures s[i].item.key != s[j].item.key {
          assert s[j] == rest[j - 1] && s[j] in rest;
        }
      } else {
        assert s == rest;
      }
    }
  }

  ghost predicate ReturnsCandidate(b: Book, line: StatementLine, candidates: seq<Item>, q: Quote) {
    && q.item in candidates && q.reference == ReferenceOf(b, q.item) && Quotes(q.reference, line)
    && Currency(q.item.line.currency) == Currency(line.currency)
    && (q.item.clearing.Cleared? ==> !PaidNet(b, q.item))
  }

  /** What an answered return of a receipt takes back: cleared items the line quotes, each once
      and none of a receipt that took a discount, together worth exactly the line. */
  lemma {:induction false} RefundTakes(b: Book, line: StatementLine, candidates: seq<Item>)
    requires MatchReturnedReceipt(b, line, candidates).Reopens? && KeysUnique(candidates)
    ensures var items := MatchReturnedReceipt(b, line, candidates).items;
      && line.amount.Some? && Currency(line.currency) != "" && QuotesUnique(items)
      && (forall i :: 0 <= i < |items| ==> ReturnsCandidate(b, line, candidates, items[i]))
      && Sum(items, (q: Quote) => Abs(q.item.line.amount)) == Abs(line.amount.value)
  {
    var quoted := QuotedBy(b, line, candidates);
    var same := InCurrency(quoted, Currency(line.currency));
    var items := MatchReturnedReceipt(b, line, candidates).items;
    var sets := ReturnedSets(same, line);
    assert items == sets[0] && items in sets;
    var mask := SetsBelowSound(same, (q: Quote) => Abs(q.item.line.amount), Abs(line.amount.value), Pow2(|same|), items);
    QuotedMembers(b, line, candidates);
    var here := (q: Quote) => Currency(q.item.line.currency) == Currency(line.currency);
    FilterMembers(quoted, here);
    FilterQuotesUnique(quoted, here);
    SetOfMembers(same, 0, mask);
    forall i | 0 <= i < |items| ensures ReturnsCandidate(b, line, candidates, items[i]) {
      assert items[i] in items && IsFrom(same, 0, items[i]);
      assert items[i] in same && items[i] in quoted;
    }
  }

  ghost predicate Reopenable(b: Book, items: seq<Quote>, currency: string) {
    QuotesUnique(items) && forall i :: 0 <= i < |items| ==> ReopenableAt(b, items[i].item, currency)
  }

  ghost predicate ReopenableAt(b: Book, it: Item, currency: string) {
    && Current(b, it) && it.line.side == CustomerLine
    && Currency(it.line.currency) == currency && it.line.currency != ""
  }

  lemma {:induction false} RefundIsReopenable(b: Book, line: StatementLine, items: seq<Quote>)
    requires Valid(b) && MatchReturnedReceipt(b, line, ClearedItems(b, CustomerLine)) == Reopens(items)
    ensures Reopenable(b, items, Currency(line.currency)) && line.amount.Some?
    ensures forall i :: 0 <= i < |items| ==> items[i].item in b.items && items[i].item.clearing.Cleared? && !PaidNet(b, items[i].item)
    ensures Sum(items, (q: Quote) => Abs(q.item.line.amount)) == Abs(line.amount.value)
  {
    var candidates := ClearedItems(b, CustomerLine);
    ClearedItemsAre(b, CustomerLine);
    RefundTakes(b, line, candidates);
    forall i | 0 <= i < |items|
      ensures ReopenableAt(b, items[i].item, Currency(line.currency))
      ensures items[i].item in b.items && items[i].item.clearing.Cleared? && !PaidNet(b, items[i].item)
    {
      assert ReturnsCandidate(b, line, candidates, items[i]);
      RowIsCurrent(b, items[i].item);
      assert Currency("") == "";
    }
  }

  // ----- the invariant over returns -----

  lemma {:induction false} ReturnOneKeeps(r: Returns, n: Noted, posting: Date)
    requires Valid(r.book)
    ensures var r' := ReturnOne(r, n, posting); Valid(r'.book) && Grows(r.book, r'.book)
  {
    MatchAnswers(r.book, n.line, ClearedItems(r.book, SupplierLine));
    ClearedItemsAre(r.book, SupplierLine);
    match Match(r.book, n.line, ClearedItems(r.book, SupplierLine)) {
      case Refused(_) =>
      case Found(it, _) =>
        RowIsCurrent(r.book, it);
        ReopenKeeps(r.book, it, n.line, posting);
    }
  }

  lemma {:induction false} ReturnAllKeeps(b: Book, noted: seq<Noted>, posting: Date)
    requires Valid(b)
    ensures var c := ReturnAll(b, noted, posting).book; Valid(c) && Grows(b, c)
  {
    if |noted| > 0 {
      var rest, n := noted[..|noted| - 1], noted[|noted| - 1];
      ReturnAllKeeps(b, rest, posting);
      var r := ReturnAll(b, rest, posting);
      ReturnOneKeeps(r, n, posting);
      GrowsChain(b, r.book, ReturnOne(r, n, posting).book);
    }
  }

  lemma {:induction false} ReopenAllKeeps(b: Book, n: Noted, items: seq<Quote>, posting: Date, currency: string)
    requires Valid(b) && Reopenable(b, items, currency)
    ensures var c := ReopenAll(b, n, items, posting).book; Valid(c) && Grows(b, c)
  {
    if |items| > 0 {
      var rest, q := items[..|items| - 1], items[|items| - 1];
      assert forall i :: 0 <= i < |rest| ==> rest[i] == items[i];
      ReopenAllKeeps(b, n, rest, posting, currency);
      var c := ReopenAll(b, n, rest, posting).book;
      assert ReopenableAt(b, q.item, currency);
      CurrentGrows(b, c, q.item);
      ReopenKeeps(c, q.item, n.line, posting);
      GrowsChain(b, c, Reopen(c, q.item, n.line, posting));
    }
  }

  lemma {:induction false} RefundOneKeeps(r: Returns, n: Noted, posting: Date)
    requires Valid(r.book)
    ensures var r' := RefundOne(r, n, posting); Valid(r'.book) && Grows(r.book, r'.book)
  {
    match MatchReturnedReceipt(r.book, n.line, ClearedItems(r.book, CustomerLine)) {
      case Stays(_) =>
      case Reopens(items) =>
        RefundIsReopenable(r.book, n.line, items);
        ReopenAllKeeps(r.book, n, items, posting, Currency(n.line.currency));
    }
  }

  lemma {:induction false} RefundAllKeeps(b: Book, noted: seq<Noted>, posting: Date)
    requires Valid(b)
    ensures var c := RefundAll(b, noted, posting).book; Valid(c) && Grows(b, c)
  {
    if |noted| > 0 {
      var rest, n := noted[..|noted| - 1], noted[|noted| - 1];
      RefundAllKeeps(b, rest, posting);
      var r := RefundAll(b, rest, posting);
      RefundOneKeeps(r, n, posting);
      GrowsChain(b, r.book, RefundOne(r, n, posting).book);
    }
  }

  // ----- the four stages of a statement -----

  datatype Stages = Stages(read: Statements.Reading, paid: Posted, received: Posted, returned: Returns, refunded: Returns)

  ghost function StagesOf(b: Book, lines: seq<StatementLine>, posting: Date, statement: string): Stages {
    var r := ReadLines(b, lines, posting);
    var paid := PostAll(b, SupplierLine, r.settling, posting, statement);
    var received := PostAll(paid.book, CustomerLine, r.receiving, posting, statement);
    var returned := ReturnAll(received.book, r.returning, posting);
    Stages(r, paid, received, returned, RefundAll(returned.book, r.refunding, posting))
  }

  /** Every stage starts from a valid ledger, with its entries still to be posted. */
  lemma {:induction false} StagesKeep(b: Book, lines: seq<StatementLine>, posting: Date, statement: string)
    requires Valid(b)
    ensures var s := StagesOf(b, lines, posting, statement);
      && ReadingOk(b, s.read, lines, posting)
      && Pending(b, SupplierLine, s.read.settling) && Pending(b, CustomerLine, s.read.receiving)
      && Valid(s.paid.book) && Grows(b, s.paid.book) && ClearsEntries(b, s.paid.book, s.read.settling)
      && Pending(s.paid.book, CustomerLine, s.read.receiving)
      && Valid(s.received.book) && Grows(s.paid.book, s.received.book)
      && ClearsEntries(s.paid.book, s.received.book, s.read.receiving)
      && Valid(s.returned.book) && Grows(s.received.book, s.returned.book)
      && Valid(s.refunded.book) && Grows(s.returned.book, s.refunded.book)
  {
    var s := StagesOf(b, lines, posting, statement);
    ReadLinesOk(b, lines, posting);
    ReadIsPending(b, s.read, lines, posting);
    PostAllKeeps(b, SupplierLine, s.read.settling, posting, statement);
    StillPending(b, s.paid.book, s.read.settling, s.read.receiving);
    PostAllKeeps(s.paid.book, CustomerLine, s.read.receiving, posting, statement);
    ReturnAllKeeps(s.received.book, s.read.returning, posting);
    RefundAllKeeps(s.returned.book, s.read.refunding, posting);
  }

  /** A statement keeps the ledger's invariant, and only adds to it. */
  lemma {:induction false} StatementKeeps(b: Book, lines: seq<StatementLine>, posting: Date, statement: string)
    requires Valid(b)
    ensures var c := Apply(b, lines, posting, statement).book; Valid(c) && Grows(b, c)
  {
    var s := StagesOf(b, lines, posting, statement);
    StagesKeep(b, lines, posting, statement);
    GrowsChain(b, s.paid.book, s.received.book);
    GrowsChain(b, s.received.book, s.returned.book);
    GrowsChain(b, s.returned.book, s.refunded.book);
  }
}
