/** Which payment run has an item in flight, and whether it may be paid: one decision, kept on
    two rows - the supplier invoice and the open item of the document it posted. */
module Claims {
  import opened Common
  import opened Text
  import opened Terms
  import opened Search
  import opened Books
  import opened Totals
  import opened Matching
  import opened Posting
  import opened Statements
  import opened Grouping
  import opened Returning

  predicate SameBill(x: Bill, y: Bill) {
    x.doc.Some? && x.doc == y.doc && x.company == y.company && x.year == y.year
  }

  ghost predicate BillsUnique(invoices: seq<Invoice>) {
    forall i, j :: 0 <= i < j < |invoices| ==> !SameBill(invoices[i].bill, invoices[j].bill)
  }

  predicate AgreesWith(inv: Invoice, it: Item) {
    BillOf(inv.bill, it.key) && it.line.side == SupplierLine ==> it.block == inv.block && it.claim == inv.claim
  }

  /** Block, run and run date are the same on an invoice and on every supplier line it posted. */
  ghost predicate Agrees(b: Book) {
    && BillsUnique(b.invoices)
    && forall i, j :: 0 <= i < |b.invoices| && 0 <= j < |b.items| ==> AgreesWith(b.invoices[i], b.items[j])
  }

  /** An item whose clearing moved is claimed by nobody. */
  ghost predicate MovedIsFree(b: Book, c: Book) {
    |b.items| <= |c.items| && forall i :: 0 <= i < |b.items| && c.items[i].clearing != b.items[i].clearing
                                         ==> c.items[i].claim == NO_CLAIM
  }

  // ----- one run let go of -----

  /** The row of a document whose run is let go of: its claim is gone, and nothing else of it. */
  ghost predicate LetGo(it: Item, later: Item, key: Key) {
    && later.key == it.key && later.line == it.line && later.block == it.block && later.clearing == it.clearing
    && later.claim == if SameDoc(it.key, key) then NO_CLAIM else it.claim
  }

  ghost predicate BillLetGo(inv: Invoice, later: Invoice, key: Key) {
    && later.bill == inv.bill && later.block == inv.block
    && later.claim == if BillOf(inv.bill, key) then NO_CLAIM else inv.claim
  }

  ghost predicate AllLetGo(b: Book, c: Book, key: Key) {
    && |c.items| == |b.items| && (forall i :: 0 <= i < |b.items| ==> LetGo(b.items[i], c.items[i], key))
    && |c.invoices| == |b.invoices| && (forall i :: 0 <= i < |b.invoices| ==> BillLetGo(b.invoices[i], c.invoices[i], key))
  }

  /** Letting go of a run on both rows that say it leaves them agreeing. */
  lemma {:induction false} LetGoAgrees(b: Book, c: Book, key: Key)
    requires AllLetGo(b, c, key) && Agrees(b)
    ensures Agrees(c)
  {
    forall i, j | 0 <= i < |c.invoices| && 0 <= j < |c.items| ensures AgreesWith(c.invoices[i], c.items[j]) {
      assert AgreesWith(b.invoices[i], b.items[j]) && BillLetGo(b.invoices[i], c.invoices[i], key) && LetGo(b.items[j], c.items[j], key);
    }
    forall i, j | 0 <= i < j < |c.invoices| ensures !SameBill(c.invoices[i].bill, c.invoices[j].bill) {
      assert BillLetGo(b.invoices[i], c.invoices[i], key) && BillLetGo(b.invoices[j], c.invoices[j], key);
    }
  }

  // ----- one document -----

  lemma {:induction false} TouchAgrees(inv: Invoice, it: Item, changes: seq<Change>)
    requires AgreesWith(inv, it)
    ensures AgreesWith(ReleaseAll(inv, changes), TouchAll(it, changes))
  {
    TouchAllKeeps(it, changes);
    ReleaseAllKeeps(inv, changes);
    if BillOf(inv.bill, it.key) {
      assert forall j :: 0 <= j < |changes| ==> (SameDoc(it.key, changes[j].key) <==> BillOf(inv.bill, changes[j].key));
    }
  }

  lemma {:induction false} TouchFrees(it: Item, changes: seq<Change>)
    requires TouchAll(it, changes).clearing != it.clearing
    ensures TouchAll(it, changes).claim == NO_CLAIM
  {
    TouchAllKeeps(it, changes);
    var j :| 0 <= j < |changes| && changes[j].key == it.key;
    assert SameDoc(it.key, changes[j].key);
  }

  lemma {:induction false} SettleAgrees(b: Book, h: Heading, lines: seq<PostLine>, changes: seq<Change>, side: Side, only: Option<nat>)
    requires Valid(b) && ChangesOld(b, changes) && Agrees(b)
    ensures Agrees(Settle(b, h, lines, changes, side, only))
  {
    var c := Settle(b, h, lines, changes, side, only);
    SettleIs(b, h, lines, changes, side, only);
    var n := |b.items|;
    forall i | 0 <= i < |b.invoices| ensures c.invoices[i].bill == b.invoices[i].bill {
      ReleaseAllKeeps(b.invoices[i], changes);
    }
    forall i, j | 0 <= i < |c.invoices| && 0 <= j < |c.items| ensures AgreesWith(c.invoices[i], c.items[j]) {
      if j < n {
        assert AgreesWith(b.invoices[i], b.items[j]);
        TouchAgrees(b.invoices[i], b.items[j], changes);
      } else {
        assert c.items[j].key.doc == b.next;
      }
    }
  }

  lemma {:induction false} SettleFrees(b: Book, h: Heading, lines: seq<PostLine>, changes: seq<Change>, side: Side, only: Option<nat>)
    requires Valid(b) && ChangesOld(b, changes)
    ensures MovedIsFree(b, Settle(b, h, lines, changes, side, only))
  {
    var c := Settle(b, h, lines, changes, side, only);
    SettleIs(b, h, lines, changes, side, only);
    forall i | 0 <= i < |b.items| && c.items[i].clearing != b.items[i].clearing ensures c.items[i].claim == NO_CLAIM {
      TouchFrees(b.items[i], changes);
    }
  }

  // ----- a statement, as the documents it posts one after the other -----

  datatype Doc = Doc(h: Heading, lines: seq<PostLine>, changes: seq<Change>, side: Side, only: Option<nat>)

  ghost function PostDoc(b: Book, d: Doc): Book {
    Settle(b, d.h, d.lines, d.changes, d.side, d.only)
  }

  ghost function PostDocs(b: Book, docs: seq<Doc>): Book {
    if |docs| == 0 then b else PostDoc(PostDocs(b, docs[..|docs| - 1]), docs[|docs| - 1])
  }

  ghost predicate DocOk(b: Book, d: Doc) {
    && ChangesDistinct(d.changes) && ChangesOld(b, d.changes)
    && forall j :: 0 <= j < |d.changes| && d.changes[j].clearing.Cleared? ==> d.changes[j].clearing.doc == b.next
  }

  ghost predicate DocsOk(b: Book, docs: seq<Doc>) {
    |docs| == 0 || (DocsOk(b, docs[..|docs| - 1]) && DocOk(PostDocs(b, docs[..|docs| - 1]), docs[|docs| - 1]))
  }

  lemma {:induction false} DocsSnoc(b: Book, docs: seq<Doc>, d: Doc)
    requires DocsOk(b, docs) && DocOk(PostDocs(b, docs), d)
    ensures DocsOk(b, docs + [d]) && PostDocs(b, docs + [d]) == PostDoc(PostDocs(b, docs), d)
  {
    SnocParts(docs, d);
  }

  lemma {:induction false} LastDoc(b: Book, docs: seq<Doc>)
    requires DocsOk(b, docs) && docs != []
    ensures var rest, d := docs[..|docs| - 1], docs[|docs| - 1];
      DocsOk(b, rest) && DocOk(PostDocs(b, rest), d) && PostDocs(b, docs) == PostDoc(PostDocs(b, rest), d)
  {
  }

  lemma {:induction false} DocsAppend(b: Book, s: seq<Doc>, t: seq<Doc>)
    requires DocsOk(b, s) && DocsOk(PostDocs(b, s), t)
    ensures DocsOk(b, s + t) && PostDocs(b, s + t) == PostDocs(PostDocs(b, s), t)
  {
    hide PostDoc, DocOk;
    if t == [] {
      assert s + t == s;
    } else {
      var u, d := t[..|t| - 1], t[|t| - 1];
      assert (s + u) + [d] == s + t;
      LastDoc(PostDocs(b, s), t);
      DocsAppend(b, s, u);
      DocsSnoc(b, s + u, d);
    }
  }

  lemma {:induction false} GroupDoc(b: Book, side: Side, group: seq<Settling>, posting: Date, statement: string) returns (d: Doc)
    requires side != GLLine && Valid(b) && Ready(b, group, side)
    ensures DocOk(b, d) && PostDoc(b, d) == PostGroup(b, side, group, posting, statement)
  {
    ReadyChanges(b, group, side, posting);
    d := if side == SupplierLine
      then Doc(HeadingOf(group[0].item, "ZP", posting, statement), PayLines(group),
               SettlingChanges(group, b.next, posting), SupplierLine, None)
      else Doc(HeadingOf(group[0].item, "DZ", posting, statement), CollectLines(group),
               SettlingChanges(group, b.next, posting), CustomerLine, Some(|group|));
  }

  lemma {:induction false} GroupsDocs(b: Book, side: Side, entries: seq<Entry>, payees: seq<Payee>, posting: Date, statement: string)
    returns (docs: seq<Doc>)
    requires side != GLLine && Valid(b) && Pending(b, side, entries) && Distinct(payees)
    requires forall p :: p in payees ==> GroupOf(entries, p) != []
    ensures DocsOk(b, docs) && PostDocs(b, docs) == PostGroups(b, side, entries, payees, posting, statement).book
  {
    hide PostGroup, PostDoc, DocOk, Ready, Pending, GroupOf, DoneSoFar, Grows, SameFacts;
    docs := [];
    if |payees| > 0 {
      var rest, p := payees[..|payees| - 1], payees[|payees| - 1];
      docs := GroupsDocs(b, side, entries, rest, posting, statement);
      var c := PostGroups(b, side, entries, rest, posting, statement).book;
      assert payees == rest + [p] && p !in rest;
      PostGroupsKeep(b, side, entries, rest, posting, statement);
      GroupReady(b, c, side, entries, rest, p);
      var d := GroupDoc(c, side, Bare(GroupOf(entries, p)), posting, statement);
      DocsSnoc(b, docs, d);
      docs := docs + [d];
    }
  }

  lemma {:induction false} AllDocs(b: Book, side: Side, entries: seq<Entry>, posting: Date, statement: string) returns (docs: seq<Doc>)
    requires side != GLLine && Valid(b) && Pending(b, side, entries)
    ensures DocsOk(b, docs) && PostDocs(b, docs) == PostAll(b, side, entries, posting, statement).book
  {
    PayeesAre(entries);
    GroupsExist(entries);
    docs := GroupsDocs(b, side, entries, Payees(entries), posting, statement);
  }

  lemma {:induction false} ReopenDoc(b: Book, it: Item, line: StatementLine, posting: Date) returns (d: Doc)
    requires Valid(b) && Current(b, it)
    ensures DocOk(b, d) && PostDoc(b, d) == Reopen(b, it, line, posting)
  {
    var k :| 0 <= k < |b.items| && RowIs(b.items[k], it);
    assert ValidItem(b.items[k], b.next);
    d := Doc(ReopenHeading(it, line, posting), ReopenLines(it), [Change(it.key, Open(true))], ReopenSide(it), None);
  }

  lemma {:induction false} ReturnDocs(b: Book, noted: seq<Noted>, posting: Date) returns (docs: seq<Doc>)
    requires Valid(b)
    ensures DocsOk(b, docs) && PostDocs(b, docs) == ReturnAll(b, noted, posting).book
  {
    docs := [];
    if |noted| > 0 {
      var rest, n := noted[..|noted| - 1], noted[|noted| - 1];
      docs := ReturnDocs(b, rest, posting);
      ReturnAllKeeps(b, rest, posting);
      var c := ReturnAll(b, rest, posting).book;
      MatchAnswers(c, n.line, ClearedItems(c, SupplierLine));
      ClearedItemsAre(c, SupplierLine);
      match Match(c, n.line, ClearedItems(c, SupplierLine)) {
        case Refused(_) =>
        case Found(it, _) =>
          RowIsCurrent(c, it);
          var d := ReopenDoc(c, it, n.line, posting);
          DocsSnoc(b, docs, d);
          docs := docs + [d];
      }
    }
  }

  lemma {:induction false} ReopenDocs(b: Book, n: Noted, items: seq<Quote>, posting: Date, currency: string) returns (docs: seq<Doc>)
    requires Valid(b) && Reopenable(b, items, currency)
    ensures DocsOk(b, docs) && PostDocs(b, docs) == ReopenAll(b, n, items, posting).book
  {
    docs := [];
    if |items| > 0 {
      var rest, q := items[..|items| - 1], items[|items| - 1];
      assert forall i :: 0 <= i < |rest| ==> rest[i] == items[i];
      docs := ReopenDocs(b, n, rest, posting, currency);
      ReopenAllKeeps(b, n, rest, posting, currency);
      var c := ReopenAll(b, n, rest, posting).book;
      assert ReopenableAt(b, q.item, currency);
      CurrentGrows(b, c, q.item);
      var d := ReopenDoc(c, q.item, n.line, posting);
      DocsSnoc(b, docs, d);
      docs := docs + [d];
    }
  }

  lemma {:induction false} RefundDocs(b: Book, noted: seq<Noted>, posting: Date) returns (docs: seq<Doc>)
    requires Valid(b)
    ensures DocsOk(b, docs) && PostDocs(b, docs) == RefundAll(b, noted, posting).book
  {
    docs := [];
    if |noted| > 0 {
      var rest, n := noted[..|noted| - 1], noted[|noted| - 1];
      docs := RefundDocs(b, rest, posting);
      RefundAllKeeps(b, rest, posting);
      var c := RefundAll(b, rest, posting).book;
      match MatchReturnedReceipt(c, n.line, ClearedItems(c, CustomerLine)) {
        case Stays(_) =>
        case Reopens(items) =>
          RefundIsReopenable(c, n.line, items);
          var more := ReopenDocs(c, n, items, posting, Currency(n.line.currency));
          DocsAppend(b, docs, more);
          docs := docs + more;
      }
    }
  }

  lemma {:induction false} StatementDocs(b: Book, lines: seq<StatementLine>, posting: Date, statement: string) returns (docs: seq<Doc>)
    requires Valid(b)
    ensures DocsOk(b, docs) && PostDocs(b, docs) == Apply(b, lines, posting, statement).book
  {
    var s := StagesOf(b, lines, posting, statement);
    StagesKeep(b, lines, posting, statement);
    docs := AllDocs(b, SupplierLine, s.read.settling, posting, statement);
    var more := AllDocs(s.paid.book, CustomerLine, s.read.receiving, posting, statement);
    DocsAppend(b, docs, more);
    docs := docs + more;
    more := ReturnDocs(s.received.book, s.read.returning, posting);
    DocsAppend(b, docs, more);
    docs := docs + more;
    more := RefundDocs(s.returned.book, s.read.refunding, posting);
    DocsAppend(b, docs, more);
    docs := docs + more;
  }

  lemma {:induction false} FreeChain(b: Book, c: Book, d: Book)
    requires Grows(b, c) && Grows(c, d) && MovedIsFree(b, c) && MovedIsFree(c, d)
    ensures MovedIsFree(b, d)
  {
    forall i | 0 <= i < |b.items| && d.items[i].clearing != b.items[i].clearing ensures d.items[i].claim == NO_CLAIM {
      assert SameFacts(c.items[i], d.items[i]);
    }
  }

  lemma {:induction false} DocsAgree(b: Book, docs: seq<Doc>)
    requires Valid(b) && DocsOk(b, docs)
    ensures var c := PostDocs(b, docs);
      Valid(c) && Grows(b, c) && MovedIsFree(b, c) && (Agrees(b) ==> Agrees(c))
  {
    if |docs| > 0 {
      var rest, d := docs[..|docs| - 1], docs[|docs| - 1];
      DocsAgree(b, rest);
      var c := PostDocs(b, rest);
      SettleKeeps(c, d.h, d.lines, d.changes, d.side, d.only);
      SettleFrees(c, d.h, d.lines, d.changes, d.side, d.only);
      GrowsChain(b, c, PostDoc(c, d));
      FreeChain(b, c, PostDoc(c, d));
      if Agrees(b) {
        SettleAgrees(c, d.h, d.lines, d.changes, d.side, d.only);
      }
    }
  }

  /** Nobody's claim is left on the invoices of an item. */
  ghost predicate InvoicesFree(b: Book, it: Item) {
    forall k :: 0 <= k < |b.invoices| && BillOf(b.invoices[k].bill, it.key) ==> b.invoices[k].claim == NO_CLAIM
  }

  ghost predicate MovedInvoicesFree(b: Book, c: Book)
    requires |b.items| <= |c.items|
  {
    forall i :: 0 <= i < |b.items| && PayableMoved(b.items[i], c.items[i]) ==> InvoicesFree(c, c.items[i])
  }

  ghost predicate PayableMoved(it: Item, later: Item) {
    later.clearing != it.clearing && later.line.side == SupplierLine
  }

  /** A statement leaves an invoice and its open items in agreement, and nobody's claim on a payable
      whose clearing it changed nor on that payable's invoice. */
  lemma {:induction false} StatementAgrees(b: Book, lines: seq<StatementLine>, posting: Date, statement: string)
    requires Valid(b) && Agrees(b)
    ensures var c := Apply(b, lines, posting, statement).book;
      Agrees(c) && MovedIsFree(b, c) && MovedInvoicesFree(b, c)
  {
    var docs := StatementDocs(b, lines, posting, statement);
    DocsAgree(b, docs);
    var c := Apply(b, lines, posting, statement).book;
    forall i | 0 <= i < |b.items| && PayableMoved(b.items[i], c.items[i])
      ensures InvoicesFree(c, c.items[i])
    {
      forall k | 0 <= k < |c.invoices| && BillOf(c.invoices[k].bill, c.items[i].key) ensures c.invoices[k].claim == NO_CLAIM {
        assert AgreesWith(c.invoices[k], c.items[i]);
      }
    }
  }
}
