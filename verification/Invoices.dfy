/** Posting a supplier's invoice, changing it, and billing a sales order: the other ways
    documents reach the ledger. */
module Invoices {
  import opened Common
  import opened Money
  import opened Text
  import opened Terms
  import opened Books
  import opened Totals
  import opened Claims

  datatype Error = NoSupplier | Unbalanced | NotFound

  datatype Result<+T> = Ok(value: T) | Err(error: Error)

  /** What an INVOIC says; amounts not stated are None. */
  datatype Incoming = Incoming(supplier: string, company: string, posting: Date, currency: string, gross: int,
                               net: Option<int>, tax: Option<int>, terms: string, baseline: Option<Date>,
                               reference: string, block: string, items: seq<Option<int>>)

  const EXPENSE_ACCOUNT := "0000400000"
  const INPUT_TAX_ACCOUNT := "0000154000"
  const RECEIVABLE_ACCOUNT := "0012100000"
  const REVENUE_ACCOUNT := "0041000000"
  const OUTPUT_TAX_ACCOUNT := "0022000000"

  function NetOf(inv: Incoming): int {
    match inv.net
    case Some(n) => AtCents(n)
    case None => AtCents(inv.gross) - AtCents(match inv.tax case Some(t) => t case None => 0)
  }

  function TaxOf(inv: Incoming): int {
    match inv.tax
    case Some(t) => AtCents(t)
    case None => AtCents(inv.gross) - NetOf(inv)
  }

  function GeneralLine(account: string, amount: int): PostLine {
    PostLine(account, "", "", amount, "", None, "")
  }

  function InvoiceLines(inv: Incoming): seq<PostLine> {
    [PostLine("", inv.supplier, "", -AtCents(inv.gross), inv.terms,
              Some(match inv.baseline case Some(d) => d case None => inv.posting), inv.block),
     GeneralLine(EXPENSE_ACCOUNT, NetOf(inv))]
    + (if TaxOf(inv) != 0 then [GeneralLine(INPUT_TAX_ACCOUNT, TaxOf(inv))] else [])
  }

  /** Items that all state an amount have to come to the net; one that states none claims nothing. */
  predicate ItemsAddUp(inv: Incoming) {
    inv.items != [] && (forall i :: 0 <= i < |inv.items| ==> inv.items[i].Some?)
    ==> Sum(inv.items, (x: Option<int>) => AtCents(match x case Some(a) => a case None => 0)) == NetOf(inv)
  }

  function PostInvoice(b: Book, inv: Incoming): Result<Book> {
    if inv.supplier == "" then Err(NoSupplier)
    else if BalanceOf(InvoiceLines(inv)) != 0 || !ItemsAddUp(inv) then Err(Unbalanced)
    else
      var h := Heading(inv.company, "RE", inv.posting, inv.currency, inv.reference);
      var c := Post(b, h, InvoiceLines(inv));
      Ok(c.(invoices := c.invoices
            + [Invoice(Bill(Some(b.next), CompanyOf(h), inv.posting.year, inv.reference, AtCents(inv.gross)),
                       inv.block, NO_CLAIM)]))
  }

  /** The fields a client changes on an invoice: None leaves one as it is. */
  datatype InvoiceChange = InvoiceChange(block: Option<string>, run: Option<string>, runDate: Option<Option<Date>>,
                                         reference: Option<string>)

  function GetOr<T>(o: Option<T>, default: T): T {
    match o case Some(v) => v case None => default
  }

  function Changed(inv: Invoice, change: InvoiceChange): Invoice {
    inv.(block := GetOr(change.block, inv.block),
         claim := Claim(GetOr(change.run, inv.claim.run), GetOr(change.runDate, inv.claim.date)),
         bill := inv.bill.(reference := GetOr(change.reference, inv.bill.reference)))
  }

  /** What an invoice decides reaches every supplier line of the document it posted. */
  function Reach(it: Item, inv: Invoice): Item {
    if BillOf(inv.bill, it.key) && it.line.side == SupplierLine then it.(block := inv.block, claim := inv.claim) else it
  }

  function UpdateInvoice(b: Book, at: nat, change: InvoiceChange): Result<Book> {
    if at >= |b.invoices| then Err(NotFound)
    else
      var inv := Changed(b.invoices[at], change);
      Ok(b.(invoices := b.invoices[at := inv],
            items := seq(|b.items|, i requires 0 <= i < |b.items| => Reach(b.items[i], inv))))
  }

  /** A sales order being billed: `number` is drawn from the billing number range. */
  datatype Order = Order(number: string, soldTo: string, currency: string, terms: string, today: Date, items: seq<int>)

  function OrderNet(order: Order): int {
    AtCents(Sum(order.items, (x: int) => x))
  }

  /** A rate of tax, as a fraction: 19% is 19/100, and any decimal is one. */
  datatype Ratio = Ratio(num: int, den: int)
  type Rate = r: Ratio | r.den > 0 witness Ratio(0, 1)

  /** Tax at `rate`, half up to the cent. */
  function OrderTax(order: Order, rate: Rate): int {
    10 * HalfUp(OrderNet(order) * rate.num, 10 * rate.den)
  }

  function BillingLines(order: Order, rate: Rate): seq<PostLine> {
    [PostLine(RECEIVABLE_ACCOUNT, "", order.soldTo, OrderNet(order) + OrderTax(order, rate), order.terms, None, ""),
     GeneralLine(REVENUE_ACCOUNT, -OrderNet(order)), GeneralLine(OUTPUT_TAX_ACCOUNT, -OrderTax(order, rate))]
  }

  function BillOrder(b: Book, order: Order, rate: Rate): Book {
    var c := Post(b, Heading("1710", "RV", order.today, order.currency, order.number), BillingLines(order, rate));
    c.(billings := c.billings + [Billing(order.number, Some(b.next), OrderNet(order) + OrderTax(order, rate))])
  }

  // ----- what posting keeps -----

  lemma {:induction false} PostKeeps(b: Book, h: Heading, lines: seq<PostLine>)
    requires Valid(b)
    ensures var c := Post(b, h, lines);
      && KeysUnique(c.items) && (forall i :: 0 <= i < |c.items| ==> ValidItem(c.items[i], c.next))
      && (CentsOnly(b) ==> CentsOnly(c))
  {
    var c, n := Post(b, h, lines), |b.items|;
    forall i | 0 <= i < |c.items| ensures ValidItem(c.items[i], c.next)
      && (i >= n ==> c.items[i].key.doc == b.next && c.items[i].key.pos == i - n + 1 && WholeCents(c.items[i].line.amount))
    {
      if i < n {
        assert ValidItem(b.items[i], b.next);
      } else {
        NewItemAmount(b.next, h, i - n + 1, lines[i - n]);
      }
    }
    forall i, j | 0 <= i < j < |c.items| ensures c.items[i].key != c.items[j].key {
      if i < n {
        assert ValidItem(b.items[i], b.next);
      }
    }
  }

  /** Posting only adds: the rows there were are there, as they were. */
  lemma {:induction false} PostExtends(b: Book, h: Heading, lines: seq<PostLine>)
    ensures var c := Post(b, h, lines);
      Extends(b, c) && c.items[..|b.items|] == b.items
      && forall i :: |b.items| <= i < |c.items| ==> c.items[i].clearing.Open?
  {
  }

  /** Only the new document is touched: what every other one comes to is as it was. */
  lemma {:induction false} PostLeavesOthers(b: Book, h: Heading, lines: seq<PostLine>, doc: nat)
    requires doc != b.next
    ensures DocumentBalance(Post(b, h, lines).items, doc) == DocumentBalance(b.items, doc)
  {
    hide NewItems, Signed, Sum;
    var g := (it: Item) => if it.key.doc == doc then Signed(it.line) else 0;
    var rows := NewItems(b.next, h, lines);
    SumAppend(b.items, rows, g);
    RowsOfDoc(b.next, h, lines);
    SumZero(rows, g);
  }

  lemma {:induction false} RowsOfDoc(doc: nat, h: Heading, lines: seq<PostLine>)
    ensures forall i :: 0 <= i < |NewItems(doc, h, lines)| ==> NewItems(doc, h, lines)[i].key.doc == doc
  {
  }

  lemma {:induction false} InvoiceKeeps(b: Book, inv: Incoming)
    requires Valid(b) && PostInvoice(b, inv).Ok?
    ensures var c := PostInvoice(b, inv).value;
      Valid(c) && (CentsOnly(b) ==> CentsOnly(c)) && (Agrees(b) ==> Agrees(c))
  {
    var h := Heading(inv.company, "RE", inv.posting, inv.currency, inv.reference);
    var c := PostInvoice(b, inv).value;
    PostKeeps(b, h, InvoiceLines(inv));
    if Agrees(b) {
      InvoiceAgrees(b, inv);
    }
  }

  lemma {:induction false} InvoiceAgrees(b: Book, inv: Incoming)
    requires Valid(b) && PostInvoice(b, inv).Ok? && Agrees(b)
    ensures Agrees(PostInvoice(b, inv).value)
  {
    var h := Heading(inv.company, "RE", inv.posting, inv.currency, inv.reference);
    var c := PostInvoice(b, inv).value;
    var lines := InvoiceLines(inv);
    var n := |b.items|;
    forall i, j | 0 <= i < |c.invoices| && 0 <= j < |c.items| ensures AgreesWith(c.invoices[i], c.items[j]) {
      if j < n {
        assert ValidItem(b.items[j], b.next);
        if i < |b.invoices| {
          assert AgreesWith(b.invoices[i], b.items[j]);
        }
      } else {
        assert c.items[j] == NewItem(b.next, h, j - n + 1, lines[j - n]);
      }
    }
  }

  lemma {:induction false} UpdateKeeps(b: Book, at: nat, change: InvoiceChange)
    requires Valid(b) && at < |b.invoices|
    ensures var c := UpdateInvoice(b, at, change).value;
      && Valid(c) && (CentsOnly(b) ==> CentsOnly(c)) && (Agrees(b) ==> Agrees(c))
      && |c.items| == |b.items| && c.next == b.next && c.headers == b.headers
      && (forall i :: 0 <= i < |b.items| ==> c.items[i].key == b.items[i].key && c.items[i].line == b.items[i].line
                                             && c.items[i].clearing == b.items[i].clearing)
  {
    var c := UpdateInvoice(b, at, change).value;
    var inv := Changed(b.invoices[at], change);
    forall i | 0 <= i < |b.items| ensures ValidItem(c.items[i], c.next) {
      assert ValidItem(b.items[i], b.next);
    }
    if Agrees(b) {
      forall i, j | 0 <= i < |c.invoices| && 0 <= j < |c.items| ensures AgreesWith(c.invoices[i], c.items[j]) {
        assert AgreesWith(b.invoices[i], b.items[j]);
        assert i != at && BillOf(b.invoices[i].bill, b.items[j].key) ==> !BillOf(inv.bill, b.items[j].key) by {
          assert i < at ==> !SameBill(b.invoices[i].bill, b.invoices[at].bill);
          assert at < i ==> !SameBill(b.invoices[at].bill, b.invoices[i].bill);
        }
      }
    }
  }

  lemma {:induction false} UpdateBalances(b: Book, at: nat, change: InvoiceChange, doc: nat)
    requires at < |b.invoices|
    ensures DocumentBalance(UpdateInvoice(b, at, change).value.items, doc) == DocumentBalance(b.items, doc)
  {
    SumAgree(UpdateInvoice(b, at, change).value.items, (it: Item) => if it.key.doc == doc then Signed(it.line) else 0,
             b.items, (it: Item) => if it.key.doc == doc then Signed(it.line) else 0);
  }

  lemma {:induction false} BillingKeeps(b: Book, order: Order, rate: Rate)
    requires Valid(b)
    ensures var c := BillOrder(b, order, rate);
      Valid(c) && (CentsOnly(b) ==> CentsOnly(c)) && (Agrees(b) ==> Agrees(c))
  {
    var h := Heading("1710", "RV", order.today, order.currency, order.number);
    var c := BillOrder(b, order, rate);
    PostKeeps(b, h, BillingLines(order, rate));
    if Agrees(b) {
      forall i, j | 0 <= i < |c.invoices| && 0 <= j < |c.items| ensures AgreesWith(c.invoices[i], c.items[j]) {
        if j < |b.items| {
          assert AgreesWith(b.invoices[i], b.items[j]);
        } else {
          assert c.items[j].key.doc == b.next;
        }
      }
    }
  }

  // ----- what they post balances -----

  /** An invoice that is accepted posts a document whose debits and credits come to nothing. */
  lemma {:induction false} InvoiceBalances(b: Book, inv: Incoming, doc: nat)
    requires Valid(b) && PostInvoice(b, inv).Ok?
    ensures DocumentBalance(PostInvoice(b, inv).value.items, doc) == if doc == b.next then 0 else DocumentBalance(b.items, doc)
  {
    var h := Heading(inv.company, "RE", inv.posting, inv.currency, inv.reference);
    var lines := InvoiceLines(inv);
    if doc == b.next {
      forall i | 0 <= i < |lines| ensures WholeCents(lines[i].amount) {
        InvoiceWhole(inv);
      }
      AcceptedDocument(b, h, lines);
    } else {
      PostLeavesOthers(b, h, lines, doc);
    }
  }

  lemma {:induction false} InvoiceWhole(inv: Incoming)
    ensures WholeCents(AtCents(inv.gross)) && WholeCents(-AtCents(inv.gross)) && WholeCents(NetOf(inv)) && WholeCents(TaxOf(inv))
  {
  }

  /** A refused invoice is refused for its own figures: it is accepted just when it names a
      supplier, its gross is its net plus its tax, and its items come to its net. */
  lemma {:induction false} InvoiceAccepted(b: Book, inv: Incoming)
    ensures PostInvoice(b, inv).Ok?
       <==> inv.supplier != "" && AtCents(inv.gross) == NetOf(inv) + TaxOf(inv) && ItemsAddUp(inv)
  {
    hide HalfUp;
    var lines := InvoiceLines(inv);
    var amount := (line: PostLine) => line.amount;
    var two := lines[..2];
    TwoLines(two, amount);
    InvoiceWhole(inv);
    if TaxOf(inv) != 0 {
      assert lines == two + [lines[2]];
      SumSnoc(two, lines[2], amount);
    } else {
      assert lines == two;
    }
    var total := Sum(lines, amount);
    assert total == -AtCents(inv.gross) + NetOf(inv) + TaxOf(inv);
    WholeCentsStay(total);
  }

  lemma {:induction false} TwoLines(lines: seq<PostLine>, f: PostLine -> int)
    requires |lines| == 2
    ensures Sum(lines, f) == f(lines[0]) + f(lines[1])
  {
    assert lines[..1][..0] == [];
    assert lines[..1][0] == lines[0];
    assert Sum(lines[..1], f) == Sum(lines[..1][..0], f) + f(lines[0]);
  }

  lemma {:induction false} BillingBalances(b: Book, order: Order, rate: Rate, doc: nat)
    requires Valid(b)
    ensures DocumentBalance(BillOrder(b, order, rate).items, doc) == if doc == b.next then 0 else DocumentBalance(b.items, doc)
  {
    hide NewItem, Signed, DocumentBalance, Post, Valid, AtCents, HalfUp, OrderNet, OrderTax;
    var h := Heading("1710", "RV", order.today, order.currency, order.number);
    var lines := BillingLines(order, rate);
    if doc == b.next {
      BillingComesToNothing(order, rate);
      AcceptedDocument(b, h, lines);
    } else {
      PostLeavesOthers(b, h, lines, doc);
    }
  }

  lemma {:induction false} BillingComesToNothing(order: Order, rate: Rate)
    ensures BalanceOf(BillingLines(order, rate)) == 0
    ensures forall i :: 0 <= i < |BillingLines(order, rate)| ==> WholeCents(BillingLines(order, rate)[i].amount)
  {
    hide HalfUp;
    var lines := BillingLines(order, rate);
    SumOfThree(lines, (line: PostLine) => line.amount);
    WholeCentsStay(0);
  }
}
