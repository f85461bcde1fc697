/** The open-item ledger as a value: accounting document items, invoices, and the three
    ways a row of it changes - posted, cleared or reopened, and released from a payment run. */
module Books {
  import opened Common
  import opened Money
  import opened Text
  import opened Terms

  /** The account type a line posts to. Only the last two are owed to or by somebody. */
  datatype Side = GLLine | CustomerLine | SupplierLine

  /** The four fields that identify one accounting document item. */
  datatype Key = Key(doc: nat, company: string, year: int, pos: nat)

  /** Which payment run has an item in flight; a blank run is none. */
  datatype Claim = Claim(run: string, date: Option<Date>)

  const NO_CLAIM := Claim("", None)

  /** The clearing fields, which are only ever written together. */
  datatype Clearing =
    | Open(reversed: bool)
    | Cleared(doc: nat, pos: nat, year: int, on: Date)

  /** What a row says from the day it is posted; `amount` is absolute, in thousandths. */
  datatype Line = Line(side: Side, account: string, debit: bool, amount: int, currency: string,
                       supplier: string, customer: string, terms: string, baseline: Option<Date>)

  /** A row of the open-item cube. */
  datatype Item = Item(key: Key, line: Line, block: string, claim: Claim, clearing: Clearing)

  datatype Header = Header(doc: nat, company: string, year: int, docType: string, posting: Date,
                           currency: string, reference: string)

  datatype Bill = Bill(doc: Option<nat>, company: string, year: int, reference: string, gross: int)

  datatype Invoice = Invoice(bill: Bill, block: string, claim: Claim)

  datatype Billing = Billing(number: string, doc: Option<nat>, gross: int)

  /** `next` is the accounting document number range. */
  datatype Book = Book(items: seq<Item>, headers: seq<Header>, invoices: seq<Invoice>, billings: seq<Billing>,
                       next: nat)

  /** One line handed to the journal entry: + debit, - credit. */
  datatype PostLine = PostLine(account: string, supplier: string, customer: string, amount: int,
                               terms: string, baseline: Option<Date>, block: string)

  datatype Heading = Heading(company: string, docType: string, posting: Date, currency: string, reference: string)

  const BANK_ACCOUNT := "0000113100"
  const CASH_DISCOUNT_ACCOUNT := "0048000000"

  function Signed(line: Line): int {
    if line.debit then line.amount else -line.amount
  }

  // ----- posting a document -----

  function SideOf(line: PostLine): Side {
    if line.supplier != "" then SupplierLine
    else if line.customer != "" then CustomerLine
    else GLLine
  }

  function CompanyOf(h: Heading): string { Or(h.company, "1710") }
  function CurrencyOf(h: Heading): string { Or(h.currency, "EUR") }

  /** The row one line of a journal entry becomes: rounded to cents, its sign kept as
      debit or credit, and open if anybody owes it. */
  function NewItem(doc: nat, h: Heading, pos: nat, line: PostLine): Item {
    var amount := AtCents(line.amount);
    var side := SideOf(line);
    Item(Key(doc, CompanyOf(h), h.posting.year, pos),
         Line(side, line.account, amount >= 0, Abs(amount), CurrencyOf(h), line.supplier, line.customer,
              if side == GLLine then "" else line.terms,
              if side == GLLine then None
              else Some(match line.baseline case Some(d) => d case None => h.posting)),
         if side == GLLine then "" else line.block, NO_CLAIM, Open(false))
  }

  function NewItems(doc: nat, h: Heading, lines: seq<PostLine>): seq<Item> {
    seq(|lines|, i requires 0 <= i < |lines| => NewItem(doc, h, i + 1, lines[i]))
  }

  function NewHeader(doc: nat, h: Heading): Header {
    Header(doc, CompanyOf(h), h.posting.year, Or(h.docType, "SA"), h.posting, CurrencyOf(h), h.reference)
  }

  function Post(b: Book, h: Heading, lines: seq<PostLine>): Book {
    b.(items := b.items + NewItems(b.next, h, lines),
       headers := b.headers + [NewHeader(b.next, h)],
       next := b.next + 1)
  }

  /** A posted row is whole cents whatever its line was, and carries the rounded line's sign. */
  lemma {:induction false} NewItemAmount(doc: nat, h: Heading, pos: nat, line: PostLine)
    ensures var it := NewItem(doc, h, pos, line);
      && WholeCents(it.line.amount) && it.line.amount >= 0
      && Signed(it.line) == AtCents(line.amount)
      && (WholeCents(line.amount) ==> Signed(it.line) == line.amount)
  {
    AtCentsWhole(line.amount);
    if WholeCents(line.amount) {
      WholeCentsStay(line.amount);
    }
  }

  // ----- clearing an item, and letting go of the run that had it -----

  predicate SameDoc(a: Key, k: Key) {
    a.doc == k.doc && a.company == k.company && a.year == k.year
  }

  predicate BillOf(bill: Bill, k: Key) {
    bill.doc == Some(k.doc) && bill.company == k.company && bill.year == k.year
  }

  datatype Change = Change(key: Key, clearing: Clearing)

  /** Every row of the item's document forgets the run, not only the item. */
  function Touch(it: Item, change: Change): Item {
    var it := if it.key == change.key then it.(clearing := change.clearing) else it;
    if SameDoc(it.key, change.key) then it.(claim := NO_CLAIM) else it
  }

  function Release(inv: Invoice, change: Change): Invoice {
    if BillOf(inv.bill, change.key) then inv.(claim := NO_CLAIM) else inv
  }

  function SetClearing(b: Book, change: Change): Book {
    b.(items := seq(|b.items|, i requires 0 <= i < |b.items| => Touch(b.items[i], change)),
       invoices := seq(|b.invoices|, i requires 0 <= i < |b.invoices| => Release(b.invoices[i], change)))
  }

  function SetAll(b: Book, changes: seq<Change>): Book {
    if |changes| == 0 then b
    else SetClearing(SetAll(b, changes[..|changes| - 1]), changes[|changes| - 1])
  }

  // ----- a batch of clearings, row by row -----

  function TouchAll(it: Item, changes: seq<Change>): Item {
    if |changes| == 0 then it
    else Touch(TouchAll(it, changes[..|changes| - 1]), changes[|changes| - 1])
  }

  function ReleaseAll(inv: Invoice, changes: seq<Change>): Invoice {
    if |changes| == 0 then inv
    else Release(ReleaseAll(inv, changes[..|changes| - 1]), changes[|changes| - 1])
  }

  function TouchRows(items: seq<Item>, changes: seq<Change>): (r: seq<Item>)
    ensures |r| == |items|
  {
    seq(|items|, i requires 0 <= i < |items| => TouchAll(items[i], changes))
  }

  function ReleaseRows(invoices: seq<Invoice>, changes: seq<Change>): (r: seq<Invoice>)
    ensures |r| == |invoices|
  {
    seq(|invoices|, i requires 0 <= i < |invoices| => ReleaseAll(invoices[i], changes))
  }

  /** A batch of clearings changes the table one row at a time. */
  lemma {:induction false} SetAllRows(b: Book, changes: seq<Change>)
    ensures SetAll(b, changes)
         == b.(items := TouchRows(b.items, changes), invoices := ReleaseRows(b.invoices, changes))
  {
    if changes == [] {
      assert TouchRows(b.items, changes) == b.items;
      assert ReleaseRows(b.invoices, changes) == b.invoices;
    } else {
      var before, last := changes[..|changes| - 1], changes[|changes| - 1];
      SetAllRows(b, before);
      var c := SetAll(b, before);
      assert SetClearing(c, last).items == TouchRows(b.items, changes);
      assert SetClearing(c, last).invoices == ReleaseRows(b.invoices, changes);
    }
  }

  ghost predicate ChangesDistinct(changes: seq<Change>) {
    forall i, j :: 0 <= i < j < |changes| ==> changes[i].key != changes[j].key
  }

  ghost predicate Names(changes: seq<Change>, key: Key) {
    exists j :: 0 <= j < |changes| && changes[j].key == key
  }

  ghost predicate NamesDoc(changes: seq<Change>, key: Key) {
    exists j :: 0 <= j < |changes| && SameDoc(key, changes[j].key)
  }

  lemma {:induction false} TouchAllKeeps(it: Item, changes: seq<Change>)
    ensures var r := TouchAll(it, changes);
      && r.key == it.key && r.line == it.line && r.block == it.block
      && r.claim == (if NamesDoc(changes, it.key) then NO_CLAIM else it.claim)
      && (!Names(changes, it.key) ==> r.clearing == it.clearing)
  {
    if changes != [] {
      var before, last := changes[..|changes| - 1], changes[|changes| - 1];
      TouchAllKeeps(it, before);
      assert forall j :: 0 <= j < |before| ==> changes[j] == before[j];
      assert NamesDoc(changes, it.key) <==> NamesDoc(before, it.key) || SameDoc(it.key, last.key);
      assert Names(changes, it.key) <==> Names(before, it.key) || last.key == it.key;
    }
  }

  lemma {:induction false} TouchAllSets(it: Item, changes: seq<Change>, j: nat)
    requires ChangesDistinct(changes) && j < |changes| && changes[j].key == it.key
    ensures TouchAll(it, changes).clearing == changes[j].clearing
  {
    var before, last := changes[..|changes| - 1], changes[|changes| - 1];
    TouchAllKeeps(it, before);
    if j < |before| {
      TouchAllSets(it, before, j);
    }
  }

  lemma {:induction false} TouchAllOther(it: Item, changes: seq<Change>)
    requires !NamesDoc(changes, it.key)
    ensures TouchAll(it, changes) == it
  {
    TouchAllKeeps(it, changes);
    assert forall j :: 0 <= j < |changes| && changes[j].key == it.key ==> SameDoc(it.key, changes[j].key);
  }

  ghost predicate NamesBill(changes: seq<Change>, bill: Bill) {
    exists j :: 0 <= j < |changes| && BillOf(bill, changes[j].key)
  }

  lemma {:induction false} ReleaseAllKeeps(inv: Invoice, changes: seq<Change>)
    ensures var r := ReleaseAll(inv, changes);
      && r.bill == inv.bill && r.block == inv.block
      && r.claim == (if NamesBill(changes, inv.bill) then NO_CLAIM else inv.claim)
  {
    if changes != [] {
      var before, last := changes[..|changes| - 1], changes[|changes| - 1];
      ReleaseAllKeeps(inv, before);
      assert forall j :: 0 <= j < |before| ==> changes[j] == before[j];
      assert NamesBill(changes, inv.bill) <==> NamesBill(before, inv.bill) || BillOf(inv.bill, last.key);
    }
  }

  // ----- the invariant of a ledger built by posting -----

  ghost predicate KeysUnique(items: seq<Item>) {
    forall i, j :: 0 <= i < j < |items| ==> items[i].key != items[j].key
  }

  ghost predicate ValidItem(it: Item, next: nat) {
    && it.key.doc < next && it.key.company != "" && it.line.amount >= 0
    && (it.line.side == SupplierLine <==> it.line.supplier != "")
    && (it.line.side == CustomerLine ==> it.line.customer != "")
    && (it.clearing.Cleared? ==> it.clearing.doc < next)
  }

  /** Keys are unique, the number range is ahead of every document number in use, a row on
      the supplier or customer side names that party. */
  ghost predicate Valid(b: Book) {
    && KeysUnique(b.items)
    && (forall i :: 0 <= i < |b.items| ==> ValidItem(b.items[i], b.next))
    && (forall i :: 0 <= i < |b.invoices| && b.invoices[i].bill.doc.Some? ==> b.invoices[i].bill.doc.value < b.next)
    && (forall i :: 0 <= i < |b.billings| && b.billings[i].doc.Some? ==> b.billings[i].doc.value < b.next)
    && (forall i :: 0 <= i < |b.headers| ==> b.headers[i].doc < b.next)
  }

  ghost predicate CentsOnly(b: Book) {
    forall i :: 0 <= i < |b.items| ==> WholeCents(b.items[i].line.amount)
  }

  // ----- a document that clears: posted, its items cleared or reopened, its own lines cleared -----

  /** A line of document `doc` on `side`, at a position up to `only` where that is given. */
  predicate OwnLine(it: Item, doc: nat, company: string, year: int, side: Side, only: Option<nat>) {
    && it.key.doc == doc && it.key.company == company && it.key.year == year
    && it.line.side == side && (only.Some? ==> it.key.pos <= only.value)
  }

  function OwnLines(items: seq<Item>, doc: nat, company: string, year: int, side: Side, only: Option<nat>): seq<Item> {
    Filter(items, (it: Item) => OwnLine(it, doc, company, year, side, only))
  }

  /** The clearings a document makes of its own lines. */
  function OwnChanges(rows: seq<Item>, doc: nat, year: int, posting: Date): seq<Change> {
    seq(|rows|, i requires 0 <= i < |rows| => Change(rows[i].key, Cleared(doc, rows[i].key.pos, year, posting)))
  }

  function SelfClear(b: Book, doc: nat, company: string, year: int, posting: Date, side: Side, only: Option<nat>): Book {
    SetAll(b, OwnChanges(OwnLines(b.items, doc, company, year, side, only), doc, year, posting))
  }

  function Settle(b: Book, h: Heading, lines: seq<PostLine>, changes: seq<Change>, side: Side,
                  only: Option<nat>): Book
  {
    SelfClear(SetAll(Post(b, h, lines), changes), b.next, CompanyOf(h), h.posting.year, h.posting, side, only)
  }

  /** A row as its own document leaves it. */
  function OwnRow(it: Item, posting: Date, side: Side, only: Option<nat>): Item {
    if it.line.side == side && (only.Some? ==> it.key.pos <= only.value)
    then it.(clearing := Cleared(it.key.doc, it.key.pos, it.key.year, posting)) else it
  }

  function OwnRows(doc: nat, h: Heading, lines: seq<PostLine>, side: Side, only: Option<nat>): (r: seq<Item>)
    ensures |r| == |lines|
  {
    seq(|lines|, i requires 0 <= i < |lines| => OwnRow(NewItem(doc, h, i + 1, lines[i]), h.posting, side, only))
  }

  ghost predicate ChangesOld(b: Book, changes: seq<Change>) {
    forall j :: 0 <= j < |changes| ==> changes[j].key.doc < b.next
  }

  /** The whole new state of a settled document: the old rows under its clearings, then its own. */
  lemma {:induction false} SettleIs(b: Book, h: Heading, lines: seq<PostLine>, changes: seq<Change>, side: Side, only: Option<nat>)
    requires Valid(b) && ChangesOld(b, changes)
    ensures Settle(b, h, lines, changes, side, only)
         == b.(items := TouchRows(b.items, changes) + OwnRows(b.next, h, lines, side, only),
               headers := b.headers + [NewHeader(b.next, h)],
               invoices := ReleaseRows(b.invoices, changes), next := b.next + 1)
  {
    hide Filter;
    var p := Post(b, h, lines);
    var q := SetAll(p, changes);
    SetAllRows(p, changes);
    NewRowsUntouched(b, h, lines, changes);
    var own := OwnLines(q.items, b.next, CompanyOf(h), h.posting.year, side, only);
    var changes' := OwnChanges(own, b.next, h.posting.year, h.posting);
    SetAllRows(q, changes');
    var mine := (it: Item) => OwnLine(it, b.next, CompanyOf(h), h.posting.year, side, only);
    var prior, posted := TouchRows(b.items, changes), NewItems(b.next, h, lines);
    OldRowsNotMine(b, changes);
    FilterAppend(prior, posted, mine);
    FilterNone(prior, mine);
    assert own == OwnLines(posted, b.next, CompanyOf(h), h.posting.year, side, only);
    OwnRowsChange(b.next, h, lines, side, only);
    assert forall j :: 0 <= j < |changes'| ==> own[j] in own && changes'[j].key == own[j].key;
    TouchRowsAppend(prior, posted, changes');
    TouchRowsOther(prior, b.next, changes');
    OwnInvoices(b, changes, changes');
  }

  lemma {:induction false} OldRowsNotMine(b: Book, changes: seq<Change>)
    requires Valid(b)
    ensures forall it :: it in TouchRows(b.items, changes) ==> it.key.doc < b.next
  {
    forall i | 0 <= i < |b.items| ensures TouchRows(b.items, changes)[i].key.doc < b.next {
      TouchAllKeeps(b.items[i], changes);
      assert ValidItem(b.items[i], b.next);
    }
  }

  lemma {:induction false} NewRowsUntouched(b: Book, h: Heading, lines: seq<PostLine>, changes: seq<Change>)
    requires Valid(b) && ChangesOld(b, changes)
    ensures TouchRows(b.items + NewItems(b.next, h, lines), changes)
         == TouchRows(b.items, changes) + NewItems(b.next, h, lines)
  {
    var posted := NewItems(b.next, h, lines);
    forall k | 0 <= k < |posted| ensures TouchAll(posted[k], changes) == posted[k] {
      assert !NamesDoc(changes, posted[k].key);
      TouchAllOther(posted[k], changes);
    }
  }

  lemma {:induction false} TouchRowsAppend(s: seq<Item>, t: seq<Item>, changes: seq<Change>)
    ensures TouchRows(s + t, changes) == TouchRows(s, changes) + TouchRows(t, changes)
  {
  }

  lemma {:induction false} TouchRowsOther(items: seq<Item>, doc: nat, changes: seq<Change>)
    requires forall it :: it in items ==> it.key.doc != doc
    requires forall j :: 0 <= j < |changes| ==> changes[j].key.doc == doc
    ensures TouchRows(items, changes) == items
  {
    forall k | 0 <= k < |items| ensures TouchAll(items[k], changes) == items[k] {
      assert items[k] in items;
      TouchAllOther(items[k], changes);
    }
  }

  lemma {:induction false} OwnRowsChange(doc: nat, h: Heading, lines: seq<PostLine>, side: Side, only: Option<nat>)
    ensures var posted := NewItems(doc, h, lines);
      var mine := OwnLines(posted, doc, CompanyOf(h), h.posting.year, side, only);
      && TouchRows(posted, OwnChanges(mine, doc, h.posting.year, h.posting)) == OwnRows(doc, h, lines, side, only)
      && (forall it :: it in mine ==> it.key.doc == doc)
  {
    var posted := NewItems(doc, h, lines);
    var mine := OwnLines(posted, doc, CompanyOf(h), h.posting.year, side, only);
    var own := OwnChanges(mine, doc, h.posting.year, h.posting);
    var left, right := TouchRows(posted, own), OwnRows(doc, h, lines, side, only);
    forall k | 0 <= k < |lines| ensures left[k] == right[k] {
      OwnRowChange(doc, h, lines, side, only, k);
    }
    FilterMembers(posted, (it: Item) => OwnLine(it, doc, CompanyOf(h), h.posting.year, side, only));
  }

  lemma {:induction false} OwnRowChange(doc: nat, h: Heading, lines: seq<PostLine>, side: Side, only: Option<nat>, k: nat)
    requires k < |lines|
    ensures var posted := NewItems(doc, h, lines);
      var mine := OwnLines(posted, doc, CompanyOf(h), h.posting.year, side, only);
      TouchAll(posted[k], OwnChanges(mine, doc, h.posting.year, h.posting))
      == OwnRow(NewItem(doc, h, k + 1, lines[k]), h.posting, side, only)
  {
    var posted := NewItems(doc, h, lines);
    var mine := (it: Item) => OwnLine(it, doc, CompanyOf(h), h.posting.year, side, only);
    assert posted[k] == NewItem(doc, h, k + 1, lines[k]);
    if mine(posted[k]) {
      OwnRowCleared(posted, mine, doc, h.posting.year, h.posting, k);
    } else {
      OwnRowLeft(posted, mine, doc, h.posting.year, h.posting, k);
    }
  }

  lemma {:induction false} OwnRowLeft(posted: seq<Item>, mine: Item -> bool, doc: nat, year: int, posting: Date, k: nat)
    requires KeysUnique(posted) && k < |posted| && !mine(posted[k]) && posted[k].claim == NO_CLAIM
    ensures TouchAll(posted[k], OwnChanges(Filter(posted, mine), doc, year, posting)) == posted[k]
  {
    var rows := Filter(posted, mine);
    var own := OwnChanges(rows, doc, year, posting);
    FilterMembers(posted, mine);
    TouchAllKeeps(posted[k], own);
    forall j | 0 <= j < |own| ensures own[j].key != posted[k].key {
      var l :| 0 <= l < |posted| && posted[l] == rows[j];
      assert l != k;
    }
  }

  lemma {:induction false} OwnRowCleared(posted: seq<Item>, mine: Item -> bool, doc: nat, year: int, posting: Date, k: nat)
    requires KeysUnique(posted) && k < |posted| && mine(posted[k]) && posted[k].claim == NO_CLAIM
    ensures TouchAll(posted[k], OwnChanges(Filter(posted, mine), doc, year, posting))
         == posted[k].(clearing := Cleared(doc, posted[k].key.pos, year, posting))
  {
    var rows := Filter(posted, mine);
    var own := OwnChanges(rows, doc, year, posting);
    FilterMembers(posted, mine);
    FilterKeysUnique(posted, mine);
    var j :| 0 <= j < |rows| && rows[j] == posted[k];
    assert own[j].key == posted[k].key;
    TouchAllKeeps(posted[k], own);
    TouchAllSets(posted[k], own, j);
  }

  lemma {:induction false} FilterKeysUnique(items: seq<Item>, p: Item -> bool)
    requires KeysUnique(items)
    ensures KeysUnique(Filter(items, p))
  {
    if |items| > 0 {
      var rest, last := items[..|items| - 1], items[|items| - 1];
      FilterKeysUnique(rest, p);
      FilterMembers(rest, p);
      forall it | it in Filter(rest, p) ensures it.key != last.key {
        var i :| 0 <= i < |rest| && rest[i] == it;
        assert items[i] == it;
      }
    }
  }

  lemma {:induction false} OwnInvoices(b: Book, changes: seq<Change>, own: seq<Change>)
    requires Valid(b) && forall j :: 0 <= j < |own| ==> own[j].key.doc == b.next
    ensures ReleaseRows(ReleaseRows(b.invoices, changes), own) == ReleaseRows(b.invoices, changes)
  {
    var r := ReleaseRows(b.invoices, changes);
    forall i | 0 <= i < |r| ensures ReleaseAll(r[i], own) == r[i] {
      ReleaseAllKeeps(b.invoices[i], changes);
      ReleaseAllKeeps(r[i], own);
      assert r[i].bill == b.invoices[i].bill;
      assert !NamesBill(own, r[i].bill);
    }
  }

  // ----- what a settled document keeps -----

  /** `c` is `b` with rows of new documents added, none removed, and on the old rows only
      clearing fields changed and claims released. */
  ghost predicate Grows(b: Book, c: Book) {
    && |b.items| <= |c.items| && |b.invoices| == |c.invoices| && b.billings == c.billings
    && b.next <= c.next && b.headers <= c.headers
    && (forall i :: 0 <= i < |b.items| ==> SameFacts(b.items[i], c.items[i]))
    && (forall i :: |b.items| <= i < |c.items| ==> b.next <= c.items[i].key.doc < c.next)
    && (forall i :: 0 <= i < |b.invoices| ==> c.invoices[i].bill == b.invoices[i].bill
                                              && c.invoices[i].block == b.invoices[i].block)
  }

  /** `row` is `it`, whatever has happened to it since: only its clearing, claim and block may have moved. */
  ghost predicate RowIs(row: Item, it: Item) {
    row.key == it.key && row.line == it.line
  }

  /** `c` is `b` with rows of new documents added, none removed and none of the facts of the old
      ones changed, whatever became of invoices and billings. */
  ghost predicate Extends(b: Book, c: Book) {
    && |b.items| <= |c.items| && b.headers <= c.headers && b.next <= c.next
    && (forall i :: 0 <= i < |b.items| ==> RowIs(c.items[i], b.items[i]))
    && (forall i :: |b.items| <= i < |c.items| ==> b.next <= c.items[i].key.doc < c.next)
  }

  lemma {:induction false} GrowsExtends(b: Book, c: Book)
    requires Grows(b, c)
    ensures Extends(b, c)
  {
    forall i | 0 <= i < |b.items| ensures RowIs(c.items[i], b.items[i]) {
      assert SameFacts(b.items[i], c.items[i]);
    }
  }

  lemma {:induction false} ExtendsChain(a: Book, b: Book, c: Book)
    requires Extends(a, b) && Extends(b, c)
    ensures Extends(a, c)
  {
    forall i | 0 <= i < |a.items| ensures RowIs(c.items[i], a.items[i]) {
      assert RowIs(b.items[i], a.items[i]) && RowIs(c.items[i], b.items[i]);
    }
    forall i | |a.items| <= i < |c.items| ensures a.next <= c.items[i].key.doc < c.next {
      if i < |b.items| {
        assert RowIs(c.items[i], b.items[i]);
      }
    }
  }

  ghost predicate SameFacts(it: Item, later: Item) {
    && later.key == it.key && later.line == it.line && later.block == it.block
    && (later.claim == it.claim || later.claim == NO_CLAIM)
  }

  lemma {:induction false} GrowsChain(a: Book, b: Book, c: Book)
    requires Grows(a, b) && Grows(b, c)
    ensures Grows(a, c)
  {
    forall i | 0 <= i < |a.items| ensures SameFacts(a.items[i], c.items[i]) {
      assert SameFacts(a.items[i], b.items[i]) && SameFacts(b.items[i], c.items[i]);
    }
    forall i | |a.items| <= i < |c.items| ensures a.next <= c.items[i].key.doc < c.next {
      if i < |b.items| {
        assert SameFacts(b.items[i], c.items[i]);
      }
    }
  }

  ghost predicate ClearsByNext(b: Book, changes: seq<Change>) {
    forall j :: 0 <= j < |changes| && changes[j].clearing.Cleared? ==> changes[j].clearing.doc <= b.next
  }

  /** A row of before, after a settled document. */
  lemma {:induction false} SettledOld(b: Book, h: Heading, lines: seq<PostLine>, changes: seq<Change>, side: Side, only: Option<nat>, i: nat)
    requires Valid(b) && ChangesDistinct(changes) && ChangesOld(b, changes) && ClearsByNext(b, changes) && i < |b.items|
    ensures var c := Settle(b, h, lines, changes, side, only);
      |c.items| == |b.items| + |lines| && ValidItem(c.items[i], b.next + 1) && SameFacts(b.items[i], c.items[i])
  {
    SettleIs(b, h, lines, changes, side, only);
    OldRowKept(b, changes, i);
  }

  /** A row of its own. */
  lemma {:induction false} SettledNew(b: Book, h: Heading, lines: seq<PostLine>, changes: seq<Change>, side: Side, only: Option<nat>, i: nat)
    requires Valid(b) && ChangesOld(b, changes) && |b.items| <= i < |b.items| + |lines|
    ensures var c := Settle(b, h, lines, changes, side, only);
      && |c.items| == |b.items| + |lines| && ValidItem(c.items[i], b.next + 1)
      && c.items[i].key.doc == b.next && c.items[i].key.pos == i - |b.items| + 1 && WholeCents(c.items[i].line.amount)
  {
    hide Settle, NewItem, OwnRow, TouchAll, ValidItem, WholeCents;
    SettleIs(b, h, lines, changes, side, only);
    OwnRowIs(b.next, h, lines, side, only, i - |b.items|);
  }

  lemma {:induction false} OwnRowIs(doc: nat, h: Heading, lines: seq<PostLine>, side: Side, only: Option<nat>, k: nat)
    requires k < |lines|
    ensures var it := OwnRows(doc, h, lines, side, only)[k];
      ValidItem(it, doc + 1) && it.key.doc == doc && it.key.pos == k + 1 && WholeCents(it.line.amount)
  {
    NewItemAmount(doc, h, k + 1, lines[k]);
  }

  lemma {:induction false} SettledRest(b: Book, h: Heading, lines: seq<PostLine>, changes: seq<Change>, side: Side, only: Option<nat>)
    requires Valid(b) && ChangesOld(b, changes)
    ensures var c := Settle(b, h, lines, changes, side, only);
      && |c.items| == |b.items| + |lines| && c.next == b.next + 1 && c.billings == b.billings
      && c.headers == b.headers + [NewHeader(b.next, h)] && b.headers <= c.headers
      && |c.invoices| == |b.invoices|
      && (forall i :: 0 <= i < |b.invoices| ==> c.invoices[i].bill == b.invoices[i].bill
                                                && c.invoices[i].block == b.invoices[i].block)
  {
    SettleIs(b, h, lines, changes, side, only);
    forall i | 0 <= i < |b.invoices|
      ensures ReleaseRows(b.invoices, changes)[i].bill == b.invoices[i].bill
      ensures ReleaseRows(b.invoices, changes)[i].block == b.invoices[i].block
    {
      ReleaseAllKeeps(b.invoices[i], changes);
    }
  }

  /** A settled document keeps the invariant and only adds. */
  lemma {:induction false} SettleKeeps(b: Book, h: Heading, lines: seq<PostLine>, changes: seq<Change>, side: Side, only: Option<nat>)
    requires Valid(b) && ChangesDistinct(changes) && ChangesOld(b, changes)
    requires forall j :: 0 <= j < |changes| && changes[j].clearing.Cleared? ==> changes[j].clearing.doc <= b.next
    ensures var c := Settle(b, h, lines, changes, side, only);
      Valid(c) && Grows(b, c) && (CentsOnly(b) ==> CentsOnly(c))
  {
    hide Settle;
    var c, n := Settle(b, h, lines, changes, side, only), |b.items|;
    SettledRest(b, h, lines, changes, side, only);
    forall i | 0 <= i < |c.items|
      ensures ValidItem(c.items[i], c.next)
      ensures i < n ==> SameFacts(b.items[i], c.items[i])
      ensures i >= n ==> c.items[i].key.doc == b.next && c.items[i].key.pos == i - n + 1 && WholeCents(c.items[i].line.amount)
    {
      if i < n {
        SettledOld(b, h, lines, changes, side, only, i);
      } else {
        SettledNew(b, h, lines, changes, side, only, i);
      }
    }
    forall i, j | 0 <= i < j < |c.items| ensures c.items[i].key != c.items[j].key {
      if j < n {
        assert SameFacts(b.items[i], c.items[i]) && SameFacts(b.items[j], c.items[j]);
      } else if i < n {
        assert SameFacts(b.items[i], c.items[i]) && ValidItem(b.items[i], b.next);
      }
    }
    if CentsOnly(b) {
      forall i | 0 <= i < n ensures WholeCents(c.items[i].line.amount) {
        assert SameFacts(b.items[i], c.items[i]);
      }
    }
  }

  lemma {:induction false} OldRowKept(b: Book, changes: seq<Change>, i: nat)
    requires Valid(b) && ChangesDistinct(changes) && i < |b.items|
    requires forall j :: 0 <= j < |changes| && changes[j].clearing.Cleared? ==> changes[j].clearing.doc <= b.next
    ensures ValidItem(TouchAll(b.items[i], changes), b.next + 1) && SameFacts(b.items[i], TouchAll(b.items[i], changes))
  {
    var it := b.items[i];
    assert ValidItem(it, b.next);
    TouchAllKeeps(it, changes);
    if Names(changes, it.key) {
      var j :| 0 <= j < |changes| && changes[j].key == it.key;
      TouchAllSets(it, changes, j);
    }
  }
}
