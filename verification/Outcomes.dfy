/** What the outcome of a statement reports: what each row says of the ledger, and which items share
    a document. */
module Outcomes {
  import opened Common
  import opened Money
  import opened Text
  import opened Terms
  import opened Search
  import opened Books
  import opened Totals
  import opened Matching
  import opened Posting
  import opened Statements
  import opened Grouping
  import opened Returning
  import opened Claims
  import opened Later
  import opened Quoting
  import opened Discounts
  import opened Vouchers
  import opened Remittance

  // ----- what was cleared -----

  ghost predicate ClearedUnder(c: Book, key: Key, doc: nat, posting: Date) {
    exists i :: 0 <= i < |c.items| && c.items[i].key == key && ClearedOn(c.items[i].clearing, doc, posting)
  }

  ghost predicate ClearedOn(clearing: Clearing, doc: nat, posting: Date) {
    clearing.Cleared? && clearing.doc == doc && clearing.year == posting.year && clearing.on == posting
  }

  ghost predicate HasHeader(c: Book, doc: nat, docType: string, posting: Date, reference: string) {
    exists i :: 0 <= i < |c.headers| && IsHeader(c.headers[i], doc, docType, posting, reference)
  }

  ghost predicate IsHeader(h: Header, doc: nat, docType: string, posting: Date, reference: string) {
    h.doc == doc && h.docType == docType && h.posting == posting && h.reference == reference
  }

  /** A row reported as cleared: an open item of before that its line names by the row's reference,
      cleared now by the row's document, which is a payment of the statement for a payable and a
      receipt for a receivable. What it brought is the item's amount, or less the discount its terms give. */
  ghost predicate ClearsRow(b: Book, c: Book, lines: seq<StatementLine>, posting: Date, statement: string, row: Row, it: Item) {
    && it in b.items && it.key == row.item && it.clearing.Open? && it.line.side != GLLine
    && row.at < |lines| && row.line == lines[row.at].id && NamesItem(b, lines[row.at], it, row.reference)
    && GoesOn(lines[row.at], it)
    && ClearedUnder(c, row.item, row.document, posting)
    && HasHeader(c, row.document, if it.line.side == SupplierLine then "ZP" else "DZ", posting, statement)
    && var owed := Abs(it.line.amount);
       if it.line.side == SupplierLine then row.amount == owed && AbsOf(lines[row.at].amount) == owed
       else row.amount == owed || TermsGive(it, owed - row.amount)
  }

  /** A payable is settled by money going out, a receivable by money declared to arrive. */
  ghost predicate GoesOn(line: StatementLine, it: Item) {
    && line.amount.Some?
    && if it.line.side == SupplierLine then line.amount.value < 0 && line.action != ComesBack
       else line.amount.value > 0 && line.action == Arrives
  }

  /** A payable is opened again by money declared to come back in, a receivable by money going back out. */
  ghost predicate ComesBackFor(line: StatementLine, it: Item) {
    && line.amount.Some? && line.action == ComesBack
    && if it.line.side == SupplierLine then line.amount.value > 0 else line.amount.value < 0
  }

  ghost predicate RowCleared(b: Book, c: Book, lines: seq<StatementLine>, posting: Date, statement: string, row: Row) {
    exists it :: ClearsRow(b, c, lines, posting, statement, row, it)
  }

  /** A row of one entry, in the ledger as it is by then. */
  ghost predicate EntryRow(c: Book, side: Side, e: Entry, row: Row, posting: Date, statement: string) {
    && row.at == e.at && row.line == e.what.line.id && row.reference == e.what.reference && row.item == e.what.item.key
    && row.amount == (if side == SupplierLine then AmountOf(e.what.line) else Abs(e.what.item.line.amount) - TakenOff(e.what))
    && ClearedUnder(c, row.item, row.document, posting)
    && HasHeader(c, row.document, if side == SupplierLine then "ZP" else "DZ", posting, statement)
  }

  /** Nothing cleared is touched, no header lost. */
  ghost predicate KeepsCleared(c: Book, d: Book) {
    && |c.items| <= |d.items| && c.headers <= d.headers
    && forall i :: 0 <= i < |c.items| ==> StaysCleared(c.items[i], d.items[i])
  }

  ghost predicate StaysCleared(it: Item, later: Item) {
    later.key == it.key && (it.clearing.Cleared? ==> later.clearing == it.clearing)
  }

  lemma {:induction false} KeepsClearedChain(b: Book, c: Book, d: Book)
    requires KeepsCleared(b, c) && KeepsCleared(c, d)
    ensures KeepsCleared(b, d)
  {
    forall i | 0 <= i < |b.items| ensures StaysCleared(b.items[i], d.items[i]) {
      assert StaysCleared(b.items[i], c.items[i]) && StaysCleared(c.items[i], d.items[i]);
    }
  }

  lemma {:induction false} EntryRowLater(c: Book, d: Book, side: Side, e: Entry, row: Row, posting: Date, statement: string)
    requires EntryRow(c, side, e, row, posting, statement) && KeepsCleared(c, d)
    ensures EntryRow(d, side, e, row, posting, statement)
  {
    var i :| 0 <= i < |c.items| && c.items[i].key == row.item && ClearedOn(c.items[i].clearing, row.document, posting);
    assert StaysCleared(c.items[i], d.items[i]);
    var docType := if side == SupplierLine then "ZP" else "DZ";
    var j :| 0 <= j < |c.headers| && IsHeader(c.headers[j], row.document, docType, posting, statement);
    assert d.headers[j] == c.headers[j];
  }

  lemma {:induction false} HeadsHeader(b: Book, c: Book, v: Voucher, docType: string, reference: string)
    requires Heads(b, c, v, docType, reference)
    ensures HasHeader(c, v.doc, docType, v.posting, reference) && b.headers <= c.headers
  {
    assert IsHeader(c.headers[|b.headers|], v.doc, docType, v.posting, reference);
  }

  lemma {:induction false} ClearedIsOther(b: Book, group: seq<Settling>, side: Side, i: nat, k: nat)
    requires Valid(b) && Ready(b, group, side) && i < |b.items| && b.items[i].clearing.Cleared? && k < |group|
    ensures group[k].item.key != b.items[i].key
  {
    hide ValidItem, ReadyAt;
    var j := ReadyItem(b, group, side, k);
  }

  lemma {:induction false} ClearsTheirsKeeps(b: Book, c: Book, v: Voucher, group: seq<Settling>, side: Side)
    requires Valid(b) && Ready(b, group, side) && ClearsTheirs(b, c, v, group) && b.headers <= c.headers
    ensures KeepsCleared(b, c)
    ensures forall k :: 0 <= k < |group| ==> ClearedUnder(c, group[k].item.key, v.doc, v.posting)
  {
    hide Valid, Ready, ClearedUnder;
    forall i | 0 <= i < |b.items| ensures StaysCleared(b.items[i], c.items[i]) {
      assert ClearedAs(b.items[i], c.items[i], v, group);
      if b.items[i].clearing.Cleared? {
        forall k | 0 <= k < |group| ensures group[k].item.key != b.items[i].key {
          ClearedIsOther(b, group, side, i, k);
        }
      }
    }
    forall k | 0 <= k < |group| ensures ClearedUnder(c, group[k].item.key, v.doc, v.posting) {
      var j := ReadyItem(b, group, side, k);
      assert ClearedAs(b.items[j], c.items[j], v, group);
      RowCarries(c, j, group[k].item.key, v);
    }
  }

  lemma {:induction false} RowCarries(c: Book, j: nat, key: Key, v: Voucher)
    requires j < |c.items| && c.items[j].key == key && ClearedOn(c.items[j].clearing, v.doc, v.posting)
    ensures ClearedUnder(c, key, v.doc, v.posting)
  {
  }

  /** A group's document: its header, what it clears, and that it disturbs nothing cleared before. */
  lemma {:induction false} GroupClears(b: Book, side: Side, group: seq<Settling>, posting: Date, statement: string)
    requires side != GLLine && Valid(b) && Ready(b, group, side)
    ensures var c := PostGroup(b, side, group, posting, statement);
      && KeepsCleared(b, c) && HasHeader(c, b.next, if side == SupplierLine then "ZP" else "DZ", posting, statement)
      && forall k :: 0 <= k < |group| ==> ClearedUnder(c, group[k].item.key, b.next, posting)
  {
    hide Settle, Valid, Ready, KeepsCleared, ClearsTheirs, Heads, PayLines, CollectLines, HasHeader, ClearedUnder;
    ReadyChanges(b, group, side, posting);
    SomeReady(b, group, side);
    var h := HeadingOf(group[0].item, if side == SupplierLine then "ZP" else "DZ", posting, statement);
    var lines, only := if side == SupplierLine then PayLines(group) else CollectLines(group), if side == SupplierLine then None else Some(|group|);
    var changes := SettlingChanges(group, b.next, posting);
    var c := Settle(b, h, lines, changes, side, only);
    SettledHead(b, h, lines, changes, side, only);
    SettledTheirs(b, h, lines, group, side, only);
    HeadsHeader(b, c, VoucherOf(b.next, h), h.docType, statement);
    ClearsTheirsKeeps(b, c, VoucherOf(b.next, h), group, side);
  }

  lemma {:induction false} SomeReady(b: Book, group: seq<Settling>, side: Side)
    requires Ready(b, group, side)
    ensures group != []
  {
  }

  /** Every row reported so far is an entry's, as the ledger is by now; and the documents are numbered
      in the order of their payees. */
  ghost predicate RowsStand(b: Book, p: Posted, side: Side, entries: seq<Entry>, payees: seq<Payee>, posting: Date, statement: string) {
    && KeepsCleared(b, p.book) && p.book.next == b.next + |payees|
    && forall row :: row in p.rows ==> RowStands(b, p.book, side, entries, payees, posting, statement, row)
  }

  ghost predicate RowStands(b: Book, c: Book, side: Side, entries: seq<Entry>, payees: seq<Payee>, posting: Date, statement: string,
                            row: Row)
  {
    exists e, k :: StandsAt(b, c, side, entries, payees, posting, statement, row, e, k)
  }

  ghost predicate StandsAt(b: Book, c: Book, side: Side, entries: seq<Entry>, payees: seq<Payee>, posting: Date, statement: string,
                           row: Row, e: Entry, k: nat)
  {
    && e in entries && k < |payees| && payees[k] == PayeeOf(e.what.item) && row.document == b.next + k
    && EntryRow(c, side, e, row, posting, statement)
  }

  lemma {:induction false} GroupsStand(b: Book, side: Side, entries: seq<Entry>, payees: seq<Payee>, posting: Date, statement: string)
    requires side != GLLine && Valid(b) && Pending(b, side, entries) && Distinct(payees)
    requires forall p :: p in payees ==> GroupOf(entries, p) != []
    ensures RowsStand(b, PostGroups(b, side, entries, payees, posting, statement), side, entries, payees, posting, statement)
  {
    hide Valid, Pending, PostGroup, EntryRow, KeepsCleared, GroupOf, RowsOf, Ready, DoneSoFar, Grows;
    if |payees| == 0 {
      KeepsClearedSelf(b);
    } else {
      var rest, p := payees[..|payees| - 1], payees[|payees| - 1];
      GroupsStand(b, side, entries, rest, posting, statement);
      PostGroupsKeep(b, side, entries, rest, posting, statement);
      var before := PostGroups(b, side, entries, rest, posting, statement);
      assert payees == rest + [p] && p !in rest;
      GroupReady(b, before.book, side, entries, rest, p);
      OneMoreStands(b, before, side, entries, rest, p, posting, statement);
    }
  }

  lemma {:induction false} KeepsClearedSelf(b: Book)
    ensures KeepsCleared(b, b)
  {
  }

  lemma {:induction false} OneMoreStands(b: Book, before: Posted, side: Side, entries: seq<Entry>, payees: seq<Payee>, p: Payee,
                                         posting: Date, statement: string)
    requires side != GLLine && RowsStand(b, before, side, entries, payees, posting, statement)
    requires Valid(before.book) && Ready(before.book, Bare(GroupOf(entries, p)), side)
    ensures var group := GroupOf(entries, p);
      RowsStand(b, Posted(PostGroup(before.book, side, Bare(group), posting, statement), before.rows + RowsOf(side, group, before.book.next)),
                side, entries, payees + [p], posting, statement)
  {
    hide Valid, Ready, PostGroup, KeepsCleared, GroupOf, EntryRow, Grows, Clears;
    var group, c := GroupOf(entries, p), before.book;
    var d, rows := PostGroup(c, side, Bare(group), posting, statement), RowsOf(side, group, c.next);
    GroupClears(c, side, Bare(group), posting, statement);
    PostGroupKeeps(c, side, Bare(group), posting, statement);
    KeepsClearedChain(b, c, d);
    forall row | row in before.rows + rows ensures RowStands(b, d, side, entries, payees + [p], posting, statement, row) {
      if row in before.rows {
        var e, k :| StandsAt(b, c, side, entries, payees, posting, statement, row, e, k);
        EntryRowLater(c, d, side, e, row, posting, statement);
        assert StandsAt(b, d, side, entries, payees + [p], posting, statement, row, e, k);
      } else {
        var i :| 0 <= i < |rows| && rows[i] == row;
        GroupMember(entries, p, i);
        NewRowStands(d, side, group, i, posting, statement, c.next);
        assert StandsAt(b, d, side, entries, payees + [p], posting, statement, row, group[i], |payees|);
      }
    }
  }

  lemma {:induction false} GroupMember(entries: seq<Entry>, p: Payee, i: nat)
    requires i < |GroupOf(entries, p)|
    ensures GroupOf(entries, p)[i] in entries && PayeeOf(GroupOf(entries, p)[i].what.item) == p
  {
    FilterMembers(entries, (e: Entry) => PayeeOf(e.what.item) == p);
    assert GroupOf(entries, p)[i] in GroupOf(entries, p);
  }

  lemma {:induction false} NewRowStands(d: Book, side: Side, group: seq<Entry>, i: nat, posting: Date, statement: string, doc: nat)
    requires i < |group| && ClearedUnder(d, Bare(group)[i].item.key, doc, posting)
    requires HasHeader(d, doc, if side == SupplierLine then "ZP" else "DZ", posting, statement)
    ensures EntryRow(d, side, group[i], RowsOf(side, group, doc)[i], posting, statement)
  {
  }

  lemma {:induction false} AllStand(b: Book, side: Side, entries: seq<Entry>, posting: Date, statement: string)
    requires side != GLLine && Valid(b) && Pending(b, side, entries)
    ensures RowsStand(b, PostAll(b, side, entries, posting, statement), side, entries, Payees(entries), posting, statement)
  {
    hide RowsStand, Valid, Pending;
    PayeesAre(entries);
    GroupsExist(entries);
    GroupsStand(b, side, entries, Payees(entries), posting, statement);
  }

  /** What a row's entry says, in the terms of the statement and the ledger of before. */
  lemma {:induction false} EntryRowIs(b: Book, c: Book, side: Side, e: Entry, row: Row, lines: seq<StatementLine>, posting: Date, statement: string)
    requires EntryRow(c, side, e, row, posting, statement)
    requires (side == SupplierLine && ReadsPayment(b, e, lines)) || (side == CustomerLine && ReadsReceipt(b, e, lines, posting))
    ensures ClearsRow(b, c, lines, posting, statement, row, e.what.item)
  {
    hide ReferenceOf, Quotes, Says, KnownAs, Upper, Strip, HasHeader, ClearedUnder, DiscountOffered, TermsGive;
    ReadSays(b, e, lines, side);
    OfferedIs(e.what.item, posting);
  }

  lemma {:induction false} StageClears(b: Book, c: Book, d: Book, side: Side, entries: seq<Entry>, rows: seq<Row>, lines: seq<StatementLine>,
                                       posting: Date, statement: string, row: Row)
    requires RowsStand(c, Posted(d, rows), side, entries, Payees(entries), posting, statement) && row in rows
    requires (side == SupplierLine && PaymentsOk(b, entries, lines)) || (side == CustomerLine && ReceiptsOk(b, entries, lines, posting))
    ensures RowCleared(b, d, lines, posting, statement, row)
  {
    hide ReadsPayment, ReadsReceipt, EntryRow, ClearsRow, KeepsCleared;
    var e, k :| StandsAt(c, d, side, entries, Payees(entries), posting, statement, row, e, k);
    var i :| 0 <= i < |entries| && entries[i] == e;
    EntryRowIs(b, d, side, e, row, lines, posting, statement);
  }

  lemma {:induction false} RowClearedLater(b: Book, c: Book, d: Book, lines: seq<StatementLine>, posting: Date, statement: string, row: Row)
    requires RowCleared(b, c, lines, posting, statement, row) && KeepsCleared(c, d)
    ensures RowCleared(b, d, lines, posting, statement, row)
  {
    hide NamesItem, TermsGive, AbsOf;
    var it :| ClearsRow(b, c, lines, posting, statement, row, it);
    var i :| 0 <= i < |c.items| && c.items[i].key == row.item && ClearedOn(c.items[i].clearing, row.document, posting);
    assert StaysCleared(c.items[i], d.items[i]);
    var docType := if it.line.side == SupplierLine then "ZP" else "DZ";
    var j :| 0 <= j < |c.headers| && IsHeader(c.headers[j], row.document, docType, posting, statement);
    assert d.headers[j] == c.headers[j];
    assert ClearsRow(b, d, lines, posting, statement, row, it);
  }

  /** Every row a statement reports as cleared stands on the ledger as it is once payments and receipts
      are posted. What comes back after that is reported as reopened. */
  lemma {:induction false} StatementClears(b: Book, lines: seq<StatementLine>, posting: Date, statement: string, row: Row)
    requires Valid(b) && row in Apply(b, lines, posting, statement).cleared
    ensures var c, d := StagesOf(b, lines, posting, statement).received.book, Apply(b, lines, posting, statement).book;
      RowCleared(b, c, lines, posting, statement, row) && Follows(c, d)
  {
    hide ReadLines, Valid, Follows, Pending, RowsStand, RowCleared, PaymentsOk, ReceiptsOk, KeepsCleared, PostAll, ReturnAll, RefundAll,
         ClaimsOk, ReturnsOk, RefundsOk, RefusalsOk, Grows, ClearsEntries;
    var s := StagesOf(b, lines, posting, statement);
    StagesKeep(b, lines, posting, statement);
    StagesFollow(b, lines, posting, statement);
    FollowsChain(s.received.book, s.returned.book, s.refunded.book);
    AllStand(b, SupplierLine, s.read.settling, posting, statement);
    AllStand(s.paid.book, CustomerLine, s.read.receiving, posting, statement);
    StandKeeps(s.paid.book, s.received, CustomerLine, s.read.receiving, posting, statement);
    if row in s.paid.rows {
      StageClears(b, b, s.paid.book, SupplierLine, s.read.settling, s.paid.rows, lines, posting, statement, row);
      RowClearedLater(b, s.paid.book, s.received.book, lines, posting, statement, row);
    } else {
      StageClears(b, s.paid.book, s.received.book, CustomerLine, s.read.receiving, s.received.rows, lines, posting, statement, row);
    }
  }

  lemma {:induction false} StandKeeps(b: Book, p: Posted, side: Side, entries: seq<Entry>, posting: Date, statement: string)
    requires RowsStand(b, p, side, entries, Payees(entries), posting, statement)
    ensures KeepsCleared(b, p.book)
  {
  }

  // ----- one document for each payee -----

  /** What decides it: the side, the supplier or customer there, the company and the currency. */
  ghost predicate SettledTogether(x: Item, y: Item) {
    && x.line.side == y.line.side && x.key.company == y.key.company && x.line.currency == y.line.currency
    && if x.line.side == SupplierLine then x.line.supplier == y.line.supplier else x.line.customer == y.line.customer
  }

  lemma {:induction false} PayeesOfItems(b: Book, x: Item, y: Item, side: Side)
    requires Valid(b) && x in b.items && y in b.items && x.line.side == side && y.line.side == side && side != GLLine
    requires x.line.currency != "" && y.line.currency != ""
    ensures PayeeOf(x) == PayeeOf(y) <==> SettledTogether(x, y)
  {
    var i :| 0 <= i < |b.items| && b.items[i] == x;
    var j :| 0 <= j < |b.items| && b.items[j] == y;
    assert ValidItem(b.items[i], b.next) && ValidItem(b.items[j], b.next);
  }

  lemma {:induction false} DistinctAt<T>(s: seq<T>, i: nat, j: nat)
    requires Distinct(s) && i < |s| && j < |s|
    ensures s[i] == s[j] <==> i == j
  {
  }

  /** The entry of a row, by its item. */
  lemma {:induction false} RowPlaced(b: Book, c: Book, p: Posted, side: Side, entries: seq<Entry>, posting: Date, statement: string,
                                     row: Row, it: Item) returns (k: nat)
    requires Valid(b) && it in b.items && it.key == row.item && row in p.rows
    requires RowsStand(c, p, side, entries, Payees(entries), posting, statement)
    requires OpenEntries(b, entries, side)
    ensures k < |Payees(entries)| && Payees(entries)[k] == PayeeOf(it) && row.document == c.next + k
    ensures it.line.side == side && it.line.currency != "" && p.book.next == c.next + |Payees(entries)|
  {
    hide KeepsCleared, PayeeOf, Payees, ValidItem;
    var e, n :| StandsAt(c, p.book, side, entries, Payees(entries), posting, statement, row, e, n);
    var i :| 0 <= i < |entries| && entries[i] == e;
    KeyNames(b, e.what.item, it);
    k := n;
  }

  lemma {:induction false} KeyNames(b: Book, x: Item, y: Item)
    requires Valid(b) && x in b.items && y in b.items && x.key == y.key
    ensures x == y
  {
    var i :| 0 <= i < |b.items| && b.items[i] == x;
    var j :| 0 <= j < |b.items| && b.items[j] == y;
  }

  ghost predicate OpenEntries(b: Book, entries: seq<Entry>, side: Side) {
    forall i :: 0 <= i < |entries| ==>
      entries[i].what.item in b.items && OpenOn(entries[i].what.item, side) && entries[i].what.item.line.currency != ""
  }

  lemma {:induction false} EntriesStand(b: Book, lines: seq<StatementLine>, posting: Date)
    requires Valid(b)
    ensures var r := ReadLines(b, lines, posting);
      OpenEntries(b, r.settling, SupplierLine) && OpenEntries(b, r.receiving, CustomerLine)
  {
    hide ReadLines, Quotes, ReferenceOf;
    var r := ReadLines(b, lines, posting);
    ReadLinesOk(b, lines, posting);
    assert Currency("") == "";
    forall i | 0 <= i < |r.settling| ensures ReadsPayment(b, r.settling[i], lines) {
    }
    forall i | 0 <= i < |r.receiving| ensures ReadsReceipt(b, r.receiving[i], lines, posting) {
    }
  }

  /** Two items a statement clears share a document just when they are of one side, party, company
      and currency. */
  lemma {:induction false} OneDocumentEach(b: Book, lines: seq<StatementLine>, posting: Date, statement: string,
                                           r: Row, s: Row, x: Item, y: Item)
    requires Valid(b)
    requires r in Apply(b, lines, posting, statement).cleared && s in Apply(b, lines, posting, statement).cleared
    requires x in b.items && x.key == r.item && y in b.items && y.key == s.item
    ensures r.document == s.document <==> SettledTogether(x, y)
  {
    hide ReadLines, Valid, Pending, RowsStand, PostAll, ReturnAll, RefundAll, PayeeOf, Payees, SettledTogether, OpenEntries, Grows, ClearsEntries,
         ClaimsOk, PaymentsOk, ReceiptsOk, ReturnsOk, RefundsOk, RefusalsOk;
    var g := StagesOf(b, lines, posting, statement);
    StagesKeep(b, lines, posting, statement);
    EntriesStand(b, lines, posting);
    AllStand(b, SupplierLine, g.read.settling, posting, statement);
    AllStand(g.paid.book, CustomerLine, g.read.receiving, posting, statement);
    var j := StagePlaced(b, g, posting, statement, r, x);
    var k := StagePlaced(b, g, posting, statement, s, y);
    if x.line.side == y.line.side {
      var entries := if x.line.side == SupplierLine then g.read.settling else g.read.receiving;
      PayeesAre(entries);
      DistinctAt(Payees(entries), j, k);
      PayeesOfItems(b, x, y, x.line.side);
    } else {
      SidesDiffer(x, y);
    }
  }

  lemma {:induction false} SidesDiffer(x: Item, y: Item)
    requires x.line.side != y.line.side
    ensures !SettledTogether(x, y)
  {
  }

  lemma {:induction false} StagePlaced(b: Book, g: Stages, posting: Date, statement: string, row: Row, it: Item) returns (k: nat)
    requires Valid(b) && it in b.items && it.key == row.item && row in g.paid.rows + g.received.rows
    requires RowsStand(b, g.paid, SupplierLine, g.read.settling, Payees(g.read.settling), posting, statement)
    requires RowsStand(g.paid.book, g.received, CustomerLine, g.read.receiving, Payees(g.read.receiving), posting, statement)
    requires OpenEntries(b, g.read.settling, SupplierLine) && OpenEntries(b, g.read.receiving, CustomerLine)
    ensures it.line.currency != "" && it.line.side != GLLine
    ensures var payees := Payees(if it.line.side == SupplierLine then g.read.settling else g.read.receiving);
      && k < |payees| && payees[k] == PayeeOf(it)
      && row.document == k + (if it.line.side == SupplierLine then b.next else g.paid.book.next)
      && (it.line.side == SupplierLine ==> row.document < g.paid.book.next)
  {
    hide RowsStand, Valid, OpenEntries, PayeeOf, Payees;
    if row in g.paid.rows {
      k := RowPlaced(b, b, g.paid, SupplierLine, g.read.settling, posting, statement, row, it);
    } else {
      k := RowPlaced(b, g.paid.book, g.received, CustomerLine, g.read.receiving, posting, statement, row, it);
    }
  }

  // ----- what was reopened -----

  ghost predicate OpenAgain(d: Book, key: Key) {
    exists i :: 0 <= i < |d.items| && d.items[i].key == key && d.items[i].clearing == Open(true)
  }

  /** A row reported as reopened: the line found, in the ledger `at`, a cleared item that it names by the
      row's reference. The row's document came after, dated the posting day and quoting the line, and
      the item is open again in the ledger `d`. */
  ghost predicate ReopensRow(at: Book, d: Book, n: Noted, posting: Date, row: Row, it: Item) {
    && it in at.items && it.key == row.item && it.clearing.Cleared? && it.line.side != GLLine
    && row.at == n.at && row.line == n.line.id && NamesItem(at, n.line, it, row.reference) && ComesBackFor(n.line, it)
    && row.amount == Abs(it.line.amount) && at.next <= row.document
    && HasHeader(d, row.document, if it.line.side == CustomerLine then "DZ" else "ZP", posting, n.line.reference)
    && OpenAgain(d, row.item)
  }

  ghost predicate RowReopened(b: Book, d: Book, lines: seq<StatementLine>, posting: Date, row: Row) {
    exists at, n, it :: Grows(b, at) && Grows(at, d) && ReopensRow(at, d, n, posting, row, it)
                        && n.at < |lines| && lines[n.at] == n.line
  }

  /** Nothing that was reopened is touched, no header lost. */
  ghost predicate KeepsOpen(c: Book, d: Book) {
    && Grows(c, d) && forall i :: 0 <= i < |c.items| ==> StaysOpen(c.items[i], d.items[i])
  }

  ghost predicate StaysOpen(it: Item, later: Item) {
    later.key == it.key && (it.clearing == Open(true) ==> later.clearing == Open(true))
  }

  lemma {:induction false} KeepsOpenSelf(b: Book)
    ensures KeepsOpen(b, b)
  {
  }

  lemma {:induction false} KeepsOpenChain(b: Book, c: Book, d: Book)
    requires KeepsOpen(b, c) && KeepsOpen(c, d)
    ensures KeepsOpen(b, d)
  {
    hide Grows;
    GrowsChain(b, c, d);
    GrowsLonger(b, c);
    GrowsLonger(c, d);
    forall i | 0 <= i < |b.items| ensures StaysOpen(b.items[i], d.items[i]) {
      assert StaysOpen(b.items[i], c.items[i]) && StaysOpen(c.items[i], d.items[i]);
    }
  }

  lemma {:induction false} GrowsLonger(b: Book, c: Book)
    requires Grows(b, c)
    ensures |b.items| <= |c.items| && b.headers <= c.headers && b.next <= c.next
  {
  }

  lemma {:induction false} HeaderLater(c: Book, d: Book, doc: nat, docType: string, posting: Date, reference: string)
    requires HasHeader(c, doc, docType, posting, reference) && c.headers <= d.headers
    ensures HasHeader(d, doc, docType, posting, reference)
  {
    var j :| 0 <= j < |c.headers| && IsHeader(c.headers[j], doc, docType, posting, reference);
    assert d.headers[j] == c.headers[j];
  }

  lemma {:induction false} ReopensRowLater(at: Book, c: Book, d: Book, n: Noted, posting: Date, row: Row, it: Item)
    requires ReopensRow(at, c, n, posting, row, it) && KeepsOpen(c, d)
    ensures ReopensRow(at, d, n, posting, row, it)
  {
    hide NamesItem, Grows, HasHeader;
    GrowsLonger(c, d);
    var i :| 0 <= i < |c.items| && c.items[i].key == row.item && c.items[i].clearing == Open(true);
    assert StaysOpen(c.items[i], d.items[i]);
    HeaderLater(c, d, row.document, if it.line.side == CustomerLine then "DZ" else "ZP", posting, n.line.reference);
  }

  lemma {:induction false} RowReopenedLater(b: Book, c: Book, d: Book, lines: seq<StatementLine>, posting: Date, row: Row)
    requires RowReopened(b, c, lines, posting, row) && KeepsOpen(c, d)
    ensures RowReopened(b, d, lines, posting, row)
  {
    hide ReopensRow, KeepsOpen, Grows;
    var at, n, it :| Grows(b, at) && Grows(at, c) && ReopensRow(at, c, n, posting, row, it) && n.at < |lines| && lines[n.at] == n.line;
    ReopensRowLater(at, c, d, n, posting, row, it);
    KeepsGrows(c, d);
    GrowsChain(at, c, d);
  }

  lemma {:induction false} KeepsGrows(c: Book, d: Book)
    requires KeepsOpen(c, d)
    ensures Grows(c, d)
  {
  }

  /** One item reopened. */
  lemma {:induction false} ReopenedOnce(c: Book, it: Item, line: StatementLine, posting: Date)
    requires Valid(c) && Current(c, it)
    ensures var d := Reopen(c, it, line, posting);
      && Valid(d) && KeepsOpen(c, d) && OpenAgain(d, it.key)
      && HasHeader(d, c.next, if it.line.side == CustomerLine then "DZ" else "ZP", posting, line.reference)
  {
    hide Settle, KeysUnique, ValidItem, Grows, HasHeader, ReopenLines;
    var h, lines, side := ReopenHeading(it, line, posting), ReopenLines(it), ReopenSide(it);
    var changes := [Change(it.key, Open(true))];
    var d := Reopen(c, it, line, posting);
    ReopenKeeps(c, it, line, posting);
    GrowsLonger(c, d);
    var k :| 0 <= k < |c.items| && RowIs(c.items[k], it);
    KeyIsOld(c, k);
    SettledHead(c, h, lines, changes, side, None);
    HeadsHeader(c, d, VoucherOf(c.next, h), h.docType, line.reference);
    assert changes[0].key == it.key;
    forall i | 0 <= i < |c.items| ensures StaysOpen(c.items[i], d.items[i]) {
      SettleStates(c, h, lines, changes, side, None, i);
    }
    SettleStates(c, h, lines, changes, side, None, k);
    assert d.items[k].key == it.key && d.items[k].clearing == Open(true);
  }

  lemma {:induction false} KeyIsOld(c: Book, k: nat)
    requires Valid(c) && k < |c.items|
    ensures c.items[k].key.doc < c.next
  {
    assert ValidItem(c.items[k], c.next);
  }

  ghost predicate RowsReopened(b: Book, r: Returns, lines: seq<StatementLine>, posting: Date) {
    Valid(r.book) && KeepsOpen(b, r.book) && forall row :: row in r.rows ==> RowReopened(b, r.book, lines, posting, row)
  }

  lemma {:induction false} MoreReopened(b: Book, r: Returns, d: Book, more: seq<Row>, refused: seq<Refusal>, lines: seq<StatementLine>,
                                        posting: Date)
    requires RowsReopened(b, r, lines, posting) && Valid(d) && KeepsOpen(r.book, d)
    requires forall row :: row in more ==> RowReopened(b, d, lines, posting, row)
    ensures RowsReopened(b, Returns(d, r.rows + more, refused), lines, posting)
  {
    hide RowReopened, KeepsOpen, Valid;
    KeepsOpenChain(b, r.book, d);
    forall row | row in r.rows + more ensures RowReopened(b, d, lines, posting, row) {
      if row in r.rows {
        RowReopenedLater(b, r.book, d, lines, posting, row);
      }
    }
  }

  lemma {:induction false} ReturnOneReopens(b: Book, r: Returns, n: Noted, lines: seq<StatementLine>, posting: Date)
    requires RowsReopened(b, r, lines, posting) && NotedFrom(n, lines) && IsReturn(n.line)
    ensures RowsReopened(b, ReturnOne(r, n, posting), lines, posting)
  {
    hide RowReopened, KeepsOpen, Valid, Match, NamesItem, Reopen, OpenAgain, HasHeader, Grows;
    var candidates := ClearedItems(r.book, SupplierLine);
    ClearedItemsAre(r.book, SupplierLine);
    match Match(r.book, n.line, candidates) {
      case Refused(reason) =>
      case Found(it, reference) =>
        MatchSays(r.book, n.line, candidates);
        RowIsCurrent(r.book, it);
        ReopenedOnce(r.book, it, n.line, posting);
        var d, row := Reopen(r.book, it, n.line, posting), ReturnRow(n, it, reference, r.book.next);
        assert ReopensRow(r.book, d, n, posting, row, it);
        RowReopenedFrom(b, r.book, d, n, lines, posting, row, it);
        MoreReopened(b, r, d, [row], r.refused, lines, posting);
    }
  }

  lemma {:induction false} RowReopenedFrom(b: Book, at: Book, d: Book, n: Noted, lines: seq<StatementLine>, posting: Date, row: Row, it: Item)
    requires KeepsOpen(b, at) && KeepsOpen(at, d) && ReopensRow(at, d, n, posting, row, it) && NotedFrom(n, lines)
    ensures RowReopened(b, d, lines, posting, row)
  {
    hide ReopensRow, Grows;
  }

  lemma {:induction false} ReturnAllReopens(b: Book, noted: seq<Noted>, lines: seq<StatementLine>, posting: Date)
    requires Valid(b) && ReturnsOk(noted, lines)
    ensures RowsReopened(b, ReturnAll(b, noted, posting), lines, posting)
  {
    hide RowReopened, ReturnOne, KeepsOpen, Valid;
    if |noted| == 0 {
      KeepsOpenSelf(b);
    } else {
      ReturnAllReopens(b, noted[..|noted| - 1], lines, posting);
      ReturnOneReopens(b, ReturnAll(b, noted[..|noted| - 1], posting), noted[|noted| - 1], lines, posting);
    }
  }

  /** The items of one transfer, all found in the ledger `at`. */
  lemma {:induction false} ReopenAllReopens(at: Book, n: Noted, items: seq<Quote>, posting: Date)
    requires Valid(at) && forall i :: 0 <= i < |items| ==> GivesBack(at, n, items[i])
    ensures var p := ReopenAll(at, n, items, posting);
      && Valid(p.book) && KeepsOpen(at, p.book) && |p.rows| == |items|
      && forall i :: 0 <= i < |items| ==> ReopensRow(at, p.book, n, posting, p.rows[i], items[i].item)
  {
    hide GivesBack, ReopensRow, KeepsOpen, Valid, Reopen, Grows;
    if |items| == 0 {
      KeepsOpenSelf(at);
    } else {
      var rest, q := items[..|items| - 1], items[|items| - 1];
      ReopenAllReopens(at, n, rest, posting);
      var before := ReopenAll(at, n, rest, posting);
      LastReopened(at, before.book, n, q, posting);
      var d, row := Reopen(before.book, q.item, n.line, posting), ReturnRow(n, q.item, q.reference, before.book.next);
      KeepsOpenChain(at, before.book, d);
      forall i | 0 <= i < |items| ensures ReopensRow(at, d, n, posting, (before.rows + [row])[i], items[i].item) {
        if i < |rest| {
          ReopensRowLater(at, before.book, d, n, posting, before.rows[i], rest[i].item);
        }
      }
    }
  }

  ghost predicate GivesBack(at: Book, n: Noted, q: Quote) {
    && q.item in at.items && q.item.clearing.Cleared? && q.item.line.side == CustomerLine
    && NamesItem(at, n.line, q.item, q.reference) && ComesBackFor(n.line, q.item)
  }

  lemma {:induction false} LastReopened(at: Book, c: Book, n: Noted, q: Quote, posting: Date)
    requires Valid(c) && KeepsOpen(at, c) && GivesBack(at, n, q)
    ensures var d := Reopen(c, q.item, n.line, posting);
      && Valid(d) && KeepsOpen(c, d) && ReopensRow(at, d, n, posting, ReturnRow(n, q.item, q.reference, c.next), q.item)
  {
    hide Valid, Reopen, Grows, NamesItem, OpenAgain, HasHeader;
    RowIsCurrent(at, q.item);
    GrowsLonger(at, c);
    CurrentGrows(at, c, q.item);
    ReopenedOnce(c, q.item, n.line, posting);
  }

  lemma {:induction false} RefundOneReopens(b: Book, r: Returns, n: Noted, lines: seq<StatementLine>, posting: Date)
    requires RowsReopened(b, r, lines, posting) && NotedFrom(n, lines) && IsRefund(n.line)
    ensures RowsReopened(b, RefundOne(r, n, posting), lines, posting)
  {
    hide RowReopened, KeepsOpen, Valid, MatchReturnedReceipt, NamesItem, Reopen, OpenAgain, HasHeader, Grows, ReopensRow, KeysUnique;
    var candidates := ClearedItems(r.book, CustomerLine);
    ClearedItemsAre(r.book, CustomerLine);
    match MatchReturnedReceipt(r.book, n.line, candidates) {
      case Stays(reason) =>
      case Reopens(items) =>
        forall i | 0 <= i < |items| ensures GivesBack(r.book, n, items[i]) {
          RefundSays(r.book, n.line, candidates, items[i]);
        }
        ReopenAllReopens(r.book, n, items, posting);
        var p := ReopenAll(r.book, n, items, posting);
        forall row | row in p.rows ensures RowReopened(b, p.book, lines, posting, row) {
          var i :| 0 <= i < |p.rows| && p.rows[i] == row;
          RowReopenedFrom(b, r.book, p.book, n, lines, posting, row, items[i].item);
        }
        MoreReopened(b, r, p.book, p.rows, r.refused, lines, posting);
    }
  }

  lemma {:induction false} RefundAllReopens(b: Book, noted: seq<Noted>, lines: seq<StatementLine>, posting: Date)
    requires Valid(b) && RefundsOk(noted, lines)
    ensures RowsReopened(b, RefundAll(b, noted, posting), lines, posting)
  {
    hide RowReopened, RefundOne, KeepsOpen, Valid;
    if |noted| == 0 {
      KeepsOpenSelf(b);
    } else {
      RefundAllReopens(b, noted[..|noted| - 1], lines, posting);
      RefundOneReopens(b, RefundAll(b, noted[..|noted| - 1], posting), noted[|noted| - 1], lines, posting);
    }
  }

  lemma {:induction false} ReopenedSince(b: Book, c: Book, d: Book, lines: seq<StatementLine>, posting: Date, row: Row)
    requires Grows(b, c) && RowReopened(c, d, lines, posting, row)
    ensures RowReopened(b, d, lines, posting, row)
  {
    hide ReopensRow, Grows;
    var at, n, it :| Grows(c, at) && Grows(at, d) && ReopensRow(at, d, n, posting, row, it) && n.at < |lines| && lines[n.at] == n.line;
    GrowsChain(b, c, at);
  }

  /** Every row a statement reports as reopened names an item its line names, and that is open again
      when the statement is done. */
  lemma {:induction false} StatementReopens(b: Book, lines: seq<StatementLine>, posting: Date, statement: string, row: Row)
    requires Valid(b) && row in Apply(b, lines, posting, statement).reopened
    ensures RowReopened(b, Apply(b, lines, posting, statement).book, lines, posting, row)
  {
    hide ReadLines, Valid, Pending, RowReopened, KeepsOpen, PaymentsOk, ReceiptsOk, PostAll, ReturnAll, RefundAll, ClaimsOk, RefusalsOk,
         Grows, ClearsEntries;
    var s := StagesOf(b, lines, posting, statement);
    StagesKeep(b, lines, posting, statement);
    GrowsChain(b, s.paid.book, s.received.book);
    GrowsChain(b, s.received.book, s.returned.book);
    ReturnAllReopens(s.received.book, s.read.returning, lines, posting);
    RefundAllReopens(s.returned.book, s.read.refunding, lines, posting);
    if row in s.returned.rows {
      RowReopenedLater(s.received.book, s.returned.book, s.refunded.book, lines, posting, row);
      ReopenedSince(b, s.received.book, s.refunded.book, lines, posting, row);
    } else {
      ReopenedSince(b, s.returned.book, s.refunded.book, lines, posting, row);
    }
  }

  // ----- each document of a statement -----

  /** Every payment of a statement is posted as a payment is, and so is every receipt. */
  lemma {:induction false} StatementPays(b: Book, lines: seq<StatementLine>, posting: Date, statement: string, k: nat,
                                         at: Book, group: seq<Settling>)
    requires Valid(b) && CentsOnly(b) && PaysIn(b, lines, posting, statement, k, at, group)
    ensures group != [] && PaysBy(at, Pay(at, group, posting, statement), group, posting, statement)
    ensures Follows(Pay(at, group, posting, statement), Apply(b, lines, posting, statement).book)
  {
    hide Valid, ReadyAt, Pay, Apply, PaysIn, CentsOnly, Follows, PaysBy;
    PaymentFollowed(b, lines, posting, statement, k, at, group);
    StatementPaysWhole(b, lines, posting, statement, k, at, group);
    PaymentIs(at, group, posting, statement);
  }

  lemma {:induction false} StatementCollects(b: Book, lines: seq<StatementLine>, posting: Date, statement: string, k: nat,
                                             at: Book, group: seq<Settling>)
    requires Valid(b) && CentsOnly(b) && CollectsIn(b, lines, posting, statement, k, at, group)
    ensures group != [] && CollectsBy(at, Collect(at, group, posting, statement), group, posting, statement)
    ensures Follows(Collect(at, group, posting, statement), Apply(b, lines, posting, statement).book)
  {
    hide Valid, ReadyAt, Collect, Apply, CollectsIn, CentsOnly, Follows, CollectsBy, AllExact, AsOffered;
    ReceiptFollowed(b, lines, posting, statement, k, at, group);
    StatementOffers(b, lines, posting, statement, k, at, group);
    ReceiptIs(at, group, posting, statement);
  }

  // ----- lines that say too little -----

  /** A line is refused for its side just when it moves nothing, and for its kind just when it is money
      in that does not say which kind it is. */
  lemma {:induction false} RefusedForKind(b: Book, lines: seq<StatementLine>, posting: Date, at: nat)
    requires at < |lines|
    ensures var refused, line := ReadLines(b, lines, posting).unprocessed, lines[at];
      && (Refusal(at, line, NoSide) in refused <==> line.amount == None || line.amount == Some(0))
      && (Refusal(at, line, KindUnsaid) in refused <==> line.amount.Some? && line.amount.value > 0 && line.action == Unsaid)
  {
    hide Match, MatchReceipt, Candidates, EntriesOf, KeysOf;
    var before, last := lines[..|lines| - 1], |lines| - 1;
    NoLaterRefusal(b, before, posting, last);
    if at < last {
      RefusedForKind(b, before, posting, at);
    }
    MatchReasons(b, lines[last], Candidates(b, SupplierLine, ReadLines(b, before, posting).claimed));
    ReceiptReasons(b, lines[last], Candidates(b, CustomerLine, ReadLines(b, before, posting).claimed), posting);
  }

  lemma {:induction false} MatchReasons(b: Book, line: StatementLine, candidates: seq<Item>)
    ensures Match(b, line, candidates) != Refused(NoSide) && Match(b, line, candidates) != Refused(KindUnsaid)
  {
    hide QuotedBy, Paying, EqualTo, ClaimedOf;
  }

  lemma {:induction false} ReceiptReasons(b: Book, line: StatementLine, candidates: seq<Item>, posting: Date)
    ensures MatchReceipt(b, line, candidates, posting) != Unsettled(NoSide)
    ensures MatchReceipt(b, line, candidates, posting) != Unsettled(KindUnsaid)
  {
    hide Match, QuotedBy, InCurrency, WaysCount, WaysOfPaying, ReceiptReadings;
    MatchReasons(b, line, candidates);
  }

  lemma {:induction false} NoLaterRefusal(b: Book, lines: seq<StatementLine>, posting: Date, at: nat)
    requires at >= |lines|
    ensures forall u :: u in ReadLines(b, lines, posting).unprocessed ==> u.at != at
  {
    hide Match, MatchReceipt, Candidates, EntriesOf, KeysOf;
    if |lines| > 0 {
      NoLaterRefusal(b, lines[..|lines| - 1], posting, at);
    }
  }
}
