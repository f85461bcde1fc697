/** What each document consists of, row by row: its header, and the account, party and amount of
    every line. */
module Vouchers {
  import opened Common
  import opened Money
  import opened Text
  import opened Terms
  import opened Books
  import opened Totals
  import opened Matching
  import opened Posting
  import opened Invoices

  /** What all the rows of a document share. */
  datatype Voucher = Voucher(doc: nat, company: string, posting: Date, currency: string)

  /** `row` is line `pos` of the document: a debit of `amount`, or a credit if that is negative. */
  ghost predicate Posts(row: Item, v: Voucher, pos: nat, account: string, supplier: string, customer: string, amount: int) {
    && row.key == Key(v.doc, v.company, v.posting.year, pos)
    && row.line.account == account && row.line.supplier == supplier && row.line.customer == customer
    && row.line.currency == v.currency && row.claim == Claim("", None)
    && (if amount >= 0 then row.line.debit && row.line.amount == amount else !row.line.debit && row.line.amount == -amount)
    && row.line.side == if supplier != "" then SupplierLine else if customer != "" then CustomerLine else GLLine
  }

  /** The row is cleared by the document it is a line of. */
  ghost predicate ClearsItself(row: Item, v: Voucher) {
    row.clearing == Cleared(v.doc, row.key.pos, v.posting.year, v.posting)
  }

  /** The document's header is the one added to those of before. */
  ghost predicate Heads(b: Book, c: Book, v: Voucher, docType: string, reference: string) {
    c.headers == b.headers + [Header(v.doc, v.company, v.posting.year, docType, v.posting, v.currency, reference)]
  }

  // ----- one row -----

  ghost function VoucherOf(doc: nat, h: Heading): Voucher {
    Voucher(doc, CompanyOf(h), h.posting, CurrencyOf(h))
  }

  lemma {:induction false} LinePosts(doc: nat, h: Heading, pos: nat, line: PostLine)
    requires WholeCents(line.amount)
    ensures var row := NewItem(doc, h, pos, line);
      && Posts(row, VoucherOf(doc, h), pos, line.account, line.supplier, line.customer, line.amount)
      && row.clearing == Open(false)
      && (row.line.side != GLLine ==>
            row.line.terms == line.terms && row.block == line.block
            && row.line.baseline == Some(match line.baseline case Some(d) => d case None => h.posting))
  {
    WholeCentsStay(line.amount);
  }

  /** What becomes of line `k` when the document is settled. */
  lemma {:induction false} SettledLine(b: Book, h: Heading, lines: seq<PostLine>, changes: seq<Change>, side: Side, only: Option<nat>, k: nat)
    requires Valid(b) && ChangesOld(b, changes) && k < |lines| && WholeCents(lines[k].amount)
    ensures var c, line, v := Settle(b, h, lines, changes, side, only), lines[k], VoucherOf(b.next, h);
      && |c.items| == |b.items| + |lines|
      && Posts(c.items[|b.items| + k], v, k + 1, line.account, line.supplier, line.customer, line.amount)
      && if SideOf(line) == side && (only.Some? ==> k + 1 <= only.value) then ClearsItself(c.items[|b.items| + k], v)
         else c.items[|b.items| + k].clearing == Open(false)
  {
    hide Settle, Valid, NewItem, ChangesOld, TouchRows, WholeCents;
    SettleIs(b, h, lines, changes, side, only);
    LinePosts(b.next, h, k + 1, lines[k]);
    SideIs(b.next, h, k + 1, lines[k]);
  }

  lemma {:induction false} SideIs(doc: nat, h: Heading, pos: nat, line: PostLine)
    ensures var row := NewItem(doc, h, pos, line); row.line.side == SideOf(line) && row.key.pos == pos
  {
  }

  lemma {:induction false} SettledHead(b: Book, h: Heading, lines: seq<PostLine>, changes: seq<Change>, side: Side, only: Option<nat>)
    requires Valid(b) && ChangesOld(b, changes) && h.docType != ""
    ensures var c := Settle(b, h, lines, changes, side, only);
      Heads(b, c, VoucherOf(b.next, h), h.docType, h.reference) && c.next == b.next + 1
  {
    hide Settle, Valid, ChangesOld;
    SettledRest(b, h, lines, changes, side, only);
  }

  /** The rows a document clears point at its own lines; those it does not are as they were. */
  ghost predicate ClearsTheirs(b: Book, c: Book, v: Voucher, group: seq<Settling>) {
    |b.items| <= |c.items| && forall i :: 0 <= i < |b.items| ==> ClearedAs(b.items[i], c.items[i], v, group)
  }

  ghost predicate ClearedAs(it: Item, later: Item, v: Voucher, group: seq<Settling>) {
    && later.key == it.key && later.line == it.line
    && (forall k :: 0 <= k < |group| && group[k].item.key == it.key
                    ==> later.clearing == Cleared(v.doc, k + 1, v.posting.year, v.posting))
    && ((forall k :: 0 <= k < |group| ==> group[k].item.key != it.key) ==> later.clearing == it.clearing)
  }

  lemma {:induction false} SettledTheirs(b: Book, h: Heading, lines: seq<PostLine>, group: seq<Settling>, side: Side, only: Option<nat>)
    requires Valid(b) && Ready(b, group, side)
    ensures ClearsTheirs(b, Settle(b, h, lines, SettlingChanges(group, b.next, h.posting), side, only), VoucherOf(b.next, h), group)
  {
    hide Settle, Valid, Ready;
    var changes := SettlingChanges(group, b.next, h.posting);
    ReadyChanges(b, group, side, h.posting);
    forall i | 0 <= i < |b.items|
      ensures |b.items| <= |Settle(b, h, lines, changes, side, only).items|
      ensures ClearedAs(b.items[i], Settle(b, h, lines, changes, side, only).items[i], VoucherOf(b.next, h), group)
    {
      SettleStates(b, h, lines, changes, side, only, i);
      forall k | 0 <= k < |group| && group[k].item.key == b.items[i].key
        ensures Settle(b, h, lines, changes, side, only).items[i].clearing == Cleared(b.next, k + 1, h.posting.year, h.posting)
      {
        assert changes[k].key == b.items[i].key;
      }
    }
    SettledRest(b, h, lines, changes, side, only);
  }

  // ----- a payment -----

  /** A payment debits each supplier with the line's amount and credits the bank with them all; it
      clears its supplier lines and the items, each by the line of its place. */
  ghost predicate PaysBy(b: Book, c: Book, group: seq<Settling>, posting: Date, statement: string)
    requires group != []
  {
    var v, n := Voucher(b.next, group[0].item.key.company, posting, group[0].item.line.currency), |b.items|;
    && Heads(b, c, v, "ZP", statement) && c.next == b.next + 1
    && |c.items| == n + |group| + 1
    && (forall i :: 0 <= i < |group| ==> PaysItem(c.items[n + i], v, i + 1, group[i]))
    && MovesBank(c.items[n + |group|], v, |group| + 1, -Sum(group, (s: Settling) => AmountOf(s.line)))
    && ClearsTheirs(b, c, v, group)
  }

  ghost predicate PaysItem(row: Item, v: Voucher, pos: nat, s: Settling) {
    Posts(row, v, pos, "", s.item.line.supplier, "", AmountOf(s.line)) && ClearsItself(row, v)
  }

  /** The bank's line, a debit if money comes in. */
  ghost predicate MovesBank(row: Item, v: Voucher, pos: nat, amount: int) {
    Posts(row, v, pos, "0000113100", "", "", amount) && row.clearing == Open(false)
  }

  lemma {:induction false} FirstVoucher(b: Book, group: seq<Settling>, side: Side, docType: string, posting: Date, reference: string)
    requires Valid(b) && Ready(b, group, side)
    ensures VoucherOf(b.next, HeadingOf(group[0].item, docType, posting, reference))
         == Voucher(b.next, group[0].item.key.company, posting, group[0].item.line.currency)
  {
    var _ := ReadyItem(b, group, side, 0);
    assert ReadyAt(b, group[0].item, side);
  }

  lemma {:induction false} PaymentIs(b: Book, group: seq<Settling>, posting: Date, statement: string)
    requires Valid(b) && Ready(b, group, SupplierLine) && AllWhole(group)
    ensures PaysBy(b, Pay(b, group, posting, statement), group, posting, statement)
  {
    hide Settle, Valid, ReadyAt, Posts, Heads, ClearsTheirs, WholeCents, ClearsItself;
    var h, changes, n := HeadingOf(group[0].item, "ZP", posting, statement), SettlingChanges(group, b.next, posting), |b.items|;
    ReadyChanges(b, group, SupplierLine, posting);
    FirstVoucher(b, group, SupplierLine, "ZP", posting, statement);
    SettledHead(b, h, PayLines(group), changes, SupplierLine, None);
    SettledTheirs(b, h, PayLines(group), group, SupplierLine, None);
    BankOfPayment(group);
    SettledLine(b, h, PayLines(group), changes, SupplierLine, None, |group|);
    forall i | 0 <= i < |group|
      ensures PaysItem(Pay(b, group, posting, statement).items[n + i], VoucherOf(b.next, h), i + 1, group[i])
    {
      PaidLine(b, group, i);
      SettledLine(b, h, PayLines(group), changes, SupplierLine, None, i);
    }
  }

  lemma {:induction false} PaidLine(b: Book, group: seq<Settling>, i: nat)
    requires Valid(b) && Ready(b, group, SupplierLine) && AllWhole(group) && i < |group|
    ensures |PayLines(group)| > i
    ensures var line := PayLines(group)[i];
      line == OnSupplier(group[i].item.line.supplier, AmountOf(group[i].line)) && WholeCents(line.amount)
      && SideOf(line) == SupplierLine
  {
    var _ := ReadyItem(b, group, SupplierLine, i);
    assert PayLines(group)[i] == PayLine(group[i]);
  }

  lemma {:induction false} BankOfPayment(group: seq<Settling>)
    requires AllWhole(group)
    ensures |PayLines(group)| == |group| + 1 && WholeCents(PayLines(group)[|group|].amount)
    ensures PayLines(group)[|group|] == OnAccount("0000113100", -Sum(group, (s: Settling) => AmountOf(s.line)))
  {
    PaidWhole(group);
    NegatedWhole(Paid(group));
    SumAgree(group, (s: Settling) => AmountOf(s.line), group, (s: Settling) => AmountOf(s.line));
  }

  lemma {:induction false} NegatedWhole(mills: int)
    requires WholeCents(mills)
    ensures WholeCents(-mills)
  {
  }

  // ----- a receipt -----

  /** A receipt credits each customer with the whole of what is owed and debits the bank with what
      came, and has a line for each discount: on the discount account if it was earned, or else owed
      by the customer again. Only the lines that clear are cleared. */
  ghost predicate CollectsBy(b: Book, c: Book, group: seq<Settling>, posting: Date, statement: string)
    requires group != []
  {
    var v, n := Voucher(b.next, group[0].item.key.company, posting, group[0].item.line.currency), |b.items|;
    var deducted := Filter(group, (s: Settling) => TakenOff(s) != 0);
    && Heads(b, c, v, "DZ", statement) && c.next == b.next + 1
    && |c.items| == n + |group| + 1 + |deducted|
    && (forall i :: 0 <= i < |group| ==> SettlesItem(c.items[n + i], v, i + 1, group[i]))
    && MovesBank(c.items[n + |group|], v, |group| + 1, Sum(group, (s: Settling) => Abs(s.item.line.amount) - TakenOff(s)))
    && (forall i :: 0 <= i < |deducted| ==> Deducts(c.items[n + |group| + 1 + i], v, |group| + 2 + i, deducted[i]))
    && ClearsTheirs(b, c, v, group)
  }

  ghost predicate SettlesItem(row: Item, v: Voucher, pos: nat, s: Settling) {
    Posts(row, v, pos, "", "", s.item.line.customer, -Abs(s.item.line.amount)) && ClearsItself(row, v)
  }

  ghost predicate Deducts(row: Item, v: Voucher, pos: nat, s: Settling) {
    && row.clearing == Open(false)
    && if Earned(s) == TakenOff(s) then Posts(row, v, pos, "0048000000", "", "", TakenOff(s))
       else Posts(row, v, pos, "", "", s.item.line.customer, TakenOff(s))
  }

  lemma {:induction false} ReceiptIs(b: Book, group: seq<Settling>, posting: Date, statement: string)
    requires Valid(b) && Ready(b, group, CustomerLine) && AllExact(group)
    ensures CollectsBy(b, Collect(b, group, posting, statement), group, posting, statement)
  {
    hide Settle, Valid, ReadyAt, Heads, ClearsTheirs, Deducts, SettlesItem, MovesBank, Filter, TakenOff, CollectLines, AllExact, KeysDiffer;
    var h, changes, n := HeadingOf(group[0].item, "DZ", posting, statement), SettlingChanges(group, b.next, posting), |b.items|;
    ReadyChanges(b, group, CustomerLine, posting);
    FirstVoucher(b, group, CustomerLine, "DZ", posting, statement);
    SettledHead(b, h, CollectLines(group), changes, CustomerLine, Some(|group|));
    SettledTheirs(b, h, CollectLines(group), group, CustomerLine, Some(|group|));
    ReceiptRows(b, group, posting, statement);
  }

  lemma {:induction false} ReceiptRows(b: Book, group: seq<Settling>, posting: Date, statement: string)
    requires Valid(b) && Ready(b, group, CustomerLine) && AllExact(group)
    ensures var c, v := Collect(b, group, posting, statement), VoucherOf(b.next, HeadingOf(group[0].item, "DZ", posting, statement));
      var n, m, deducted := |b.items|, |group|, Filter(group, (s: Settling) => TakenOff(s) != 0);
      && |c.items| == n + m + 1 + |deducted|
      && (forall i :: 0 <= i < m ==> SettlesItem(c.items[n + i], v, i + 1, group[i]))
      && MovesBank(c.items[n + m], v, m + 1, Sum(group, (s: Settling) => Abs(s.item.line.amount) - TakenOff(s)))
      && (forall i :: 0 <= i < |deducted| ==> Deducts(c.items[n + m + 1 + i], v, m + 2 + i, deducted[i]))
  {
    hide Settle, Valid, ReadyAt, Posts, WholeCents, ClearsItself, Exact, Deducts, Filter, Owed, TakenOff, Received, CollectLines;
    var h, changes, n := HeadingOf(group[0].item, "DZ", posting, statement), SettlingChanges(group, b.next, posting), |b.items|;
    var m, only := |group|, Some(|group|);
    ReadyChanges(b, group, CustomerLine, posting);
    BankOfReceipt(group);
    SettledLine(b, h, CollectLines(group), changes, CustomerLine, only, m);
    forall i | 0 <= i < m
      ensures SettlesItem(Collect(b, group, posting, statement).items[n + i], VoucherOf(b.next, h), i + 1, group[i])
    {
      OwedLine(b, group, i);
      SettledLine(b, h, CollectLines(group), changes, CustomerLine, only, i);
    }
    var deducted := Filter(group, (s: Settling) => TakenOff(s) != 0);
    forall i | 0 <= i < |deducted|
      ensures Deducts(Collect(b, group, posting, statement).items[n + m + 1 + i], VoucherOf(b.next, h), m + 2 + i, deducted[i])
    {
      DeductedLine(b, group, i);
      SettledLine(b, h, CollectLines(group), changes, CustomerLine, only, m + 1 + i);
      DeductsAs(Collect(b, group, posting, statement).items[n + m + 1 + i], VoucherOf(b.next, h), m + 2 + i, deducted[i]);
    }
  }

  lemma {:induction false} BankOfReceipt(group: seq<Settling>)
    requires AllExact(group)
    ensures CollectLines(group)[|group|] == OnAccount("0000113100", Received(group)) && WholeCents(Received(group))
    ensures Received(group) == Sum(group, (s: Settling) => Abs(s.item.line.amount) - TakenOff(s))
    ensures |CollectLines(group)| == |group| + 1 + |Filter(group, (s: Settling) => TakenOff(s) != 0)|
  {
    ExactSums(group);
    SumAgree(group, (s: Settling) => Owed(s) - TakenOff(s), group, (s: Settling) => Abs(s.item.line.amount) - TakenOff(s));
  }

  lemma {:induction false} OwedLine(b: Book, group: seq<Settling>, i: nat)
    requires Valid(b) && Ready(b, group, CustomerLine) && AllExact(group) && i < |group|
    ensures |CollectLines(group)| > i
    ensures var line := CollectLines(group)[i];
      line == OnCustomer(group[i].item.line.customer, -Abs(group[i].item.line.amount)) && WholeCents(line.amount)
      && SideOf(line) == CustomerLine
  {
    var _ := ReadyItem(b, group, CustomerLine, i);
    assert Exact(group[i]);
    assert CollectLines(group)[i] == CollectLine(group[i]);
  }

  lemma {:induction false} DeductedLine(b: Book, group: seq<Settling>, i: nat)
    requires Valid(b) && Ready(b, group, CustomerLine) && AllExact(group)
    requires i < |Filter(group, (s: Settling) => TakenOff(s) != 0)|
    ensures |CollectLines(group)| > |group| + 1 + i
    ensures var line := CollectLines(group)[|group| + 1 + i];
      line == DiscountLine(Filter(group, (s: Settling) => TakenOff(s) != 0)[i]) && WholeCents(line.amount)
  {
    hide Valid, Ready, CollectLines, Filter;
    var deducted := Filter(group, (s: Settling) => TakenOff(s) != 0);
    FilterMembers(group, (s: Settling) => TakenOff(s) != 0);
    assert deducted[i] in deducted;
    var k :| 0 <= k < |group| && group[k] == deducted[i];
    assert Exact(group[k]);
    DiscountsAt(group, i);
  }

  lemma {:induction false} DiscountsAt(group: seq<Settling>, i: nat)
    requires i < |Filter(group, (s: Settling) => TakenOff(s) != 0)|
    ensures |CollectLines(group)| > |group| + 1 + i
    ensures CollectLines(group)[|group| + 1 + i] == DiscountLine(Filter(group, (s: Settling) => TakenOff(s) != 0)[i])
  {
    hide DiscountLine, TakenOff, Filter, CollectLine, Received;
    assert CollectLines(group)[|group| + 1 + i] == DiscountLines(group)[i];
  }

  lemma {:induction false} DeductsAs(row: Item, v: Voucher, pos: nat, s: Settling)
    requires var line := DiscountLine(s);
      Posts(row, v, pos, line.account, line.supplier, line.customer, line.amount) && row.clearing == Open(false)
    ensures Deducts(row, v, pos, s)
  {
    hide Posts;
  }

  // ----- a return, either way -----

  /** A return moves the item's amount back: out of the bank and onto the customer, or into it and
      off the supplier. The item is open again, the return's own party line is cleared. */
  ghost predicate ReopensBy(b: Book, c: Book, it: Item, reference: string, posting: Date) {
    var v, n, receipt := Voucher(b.next, it.key.company, posting, it.line.currency), |b.items|, it.line.side == CustomerLine;
    var amount: int := Abs(it.line.amount);
    && Heads(b, c, v, if receipt then "DZ" else "ZP", reference) && c.next == b.next + 1
    && |c.items| == n + 2
    && MovesBank(c.items[n], v, 1, if receipt then -amount else amount)
    && (if receipt then Posts(c.items[n + 1], v, 2, "", "", it.line.customer, amount)
        else Posts(c.items[n + 1], v, 2, "", it.line.supplier, "", -amount))
    && ClearsItself(c.items[n + 1], v)
    && forall i :: 0 <= i < n ==>
         && c.items[i].key == b.items[i].key && c.items[i].line == b.items[i].line
         && c.items[i].clearing == if b.items[i].key == it.key then Open(true) else b.items[i].clearing
  }

  lemma {:induction false} ReturnIs(b: Book, it: Item, line: StatementLine, posting: Date)
    requires Valid(b) && Current(b, it) && WholeCents(it.line.amount) && it.line.side != GLLine && it.line.currency != ""
    ensures ReopensBy(b, Reopen(b, it, line, posting), it, line.reference, posting)
  {
    hide Settle, Posts, Heads, WholeCents, ClearsItself, KeysUnique;
    var h, lines, side := ReopenHeading(it, line, posting), ReopenLines(it), ReopenSide(it);
    var changes := [Change(it.key, Open(true))];
    var k :| 0 <= k < |b.items| && RowIs(b.items[k], it);
    assert ValidItem(b.items[k], b.next);
    NegatedWhole(it.line.amount);
    SettledHead(b, h, lines, changes, side, None);
    SettledLine(b, h, lines, changes, side, None, 0);
    SettledLine(b, h, lines, changes, side, None, 1);
    var c, n := Reopen(b, it, line, posting), |b.items|;
    forall i | 0 <= i < n
      ensures c.items[i].key == b.items[i].key && c.items[i].line == b.items[i].line
              && c.items[i].clearing == if b.items[i].key == it.key then Open(true) else b.items[i].clearing
    {
      SettleStates(b, h, lines, changes, side, None, i);
      assert changes[0].key == it.key;
    }
  }

  // ----- rounding -----

  /** `r` is `n / d` in whole cents: the nearest, and of two as near the one further from nothing. */
  ghost predicate RoundsTo(r: int, n: int, d: int) {
    && r % 10 == 0 && -10 * d <= 2 * (d * r - n) <= 10 * d
    && (2 * (d * r - n) == 10 * d ==> n > 0) && (2 * (d * r - n) == -10 * d ==> n < 0)
  }

  lemma {:induction false} CentsRound(n: int, d: int)
    requires d > 0
    ensures RoundsTo(10 * HalfUp(n, 10 * d), n, d)
  {
    hide HalfUp;
    HalfUpNearest(n, 10 * d);
    var q := HalfUp(n, 10 * d);
    assert d * (10 * q) == (10 * d) * q;
  }

  lemma {:induction false} HalvesApart(p: int, q: int, n: int, d: int)
    requires d > 0 && -10 * d <= 2 * (p - n) <= 10 * d && -10 * d <= 2 * (q - n) <= 10 * d
    requires (2 * (p - n) == 10 * d ==> n > 0) && (2 * (p - n) == -10 * d ==> n < 0)
    requires (2 * (q - n) == 10 * d ==> n > 0) && (2 * (q - n) == -10 * d ==> n < 0)
    ensures -10 * d < p - q < 10 * d
  {
  }

  lemma {:induction false} SmallMultiple(d: int, k: int)
    requires d > 0 && -d < d * k < d
    ensures k == 0
  {
    if k >= 1 {
      AtLeastOnce(d, k);
    } else if k <= -1 {
      AtLeastOnce(d, -k);
    }
  }

  /** There is only one such. */
  lemma {:induction false} RoundsToOne(r: int, s: int, n: int, d: int)
    requires d > 0 && RoundsTo(r, n, d) && RoundsTo(s, n, d)
    ensures r == s
  {
    HalvesApart(d * r, d * s, n, d);
    TenTimes(r, s, d);
    SmallMultiple(d, (r - s) / 10);
  }

  lemma {:induction false} TenTimes(r: int, s: int, d: int)
    requires r % 10 == 0 && s % 10 == 0
    ensures d * r - d * s == 10 * (d * ((r - s) / 10)) && r - s == 10 * ((r - s) / 10)
  {
    var k := (r - s) / 10;
    assert r == s + 10 * k;
    assert d * (s + 10 * k) == d * s + 10 * (d * k);
  }

  // ----- a billing -----

  /** A billing debits the order's customer with net and tax together, on the order's terms and from
      the day it posts, and credits revenue and output tax with one each. */
  ghost predicate BillsBy(b: Book, c: Book, order: Order, net: int, tax: int) {
    var v, n := Voucher(b.next, "1710", order.today, if order.currency == "" then "EUR" else order.currency), |b.items|;
    && Heads(b, c, v, "RV", order.number) && c.next == b.next + 1 && c.invoices == b.invoices
    && c.billings == b.billings + [Billing(order.number, Some(b.next), net + tax)]
    && |c.items| == n + 3 && c.items[..n] == b.items
    && Posts(c.items[n], v, 1, "0012100000", "", order.soldTo, net + tax)
    && (order.soldTo != "" ==> DueFrom(c.items[n], order.terms, order.today, ""))
    && Posts(c.items[n + 1], v, 2, "0041000000", "", "", -net)
    && Posts(c.items[n + 2], v, 3, "0022000000", "", "", -tax)
    && forall i :: n <= i < n + 3 ==> c.items[i].clearing == Open(false)
  }

  ghost predicate DueFrom(row: Item, terms: string, baseline: Date, block: string) {
    row.line.terms == terms && row.line.baseline == Some(baseline) && row.block == block
  }

  /** What billing an order posts: its net is what its items come to, its tax that net times the rate,
      each rounded to the cent. */
  lemma {:induction false} BillingIs(b: Book, order: Order, rate: Rate) returns (net: int, tax: int)
    ensures BillsBy(b, BillOrder(b, order, rate), order, net, tax)
    ensures RoundsTo(net, Sum(order.items, (x: int) => x), 1) && RoundsTo(tax, net * rate.num, rate.den)
  {
    hide HalfUp, RoundsTo, Sum, BillOrder, BillsBy;
    net, tax := OrderNet(order), OrderTax(order, rate);
    CentsRound(Sum(order.items, (x: int) => x), 1);
    CentsRound(net * rate.num, rate.den);
    BillingPosts(b, order, rate);
  }

  lemma {:induction false} BillingPosts(b: Book, order: Order, rate: Rate)
    ensures BillsBy(b, BillOrder(b, order, rate), order, OrderNet(order), OrderTax(order, rate))
  {
    hide HalfUp, Posts, Post, OrderNet, OrderTax, WholeCents, DueFrom;
    var h, lines := Heading("1710", "RV", order.today, order.currency, order.number), BillingLines(order, rate);
    BillingWhole(order, rate);
    PostedLine(b, h, lines, 0);
    PostedLine(b, h, lines, 1);
    PostedLine(b, h, lines, 2);
    PostedFrame(b, h, lines);
  }

  lemma {:induction false} BillingWhole(order: Order, rate: Rate)
    ensures forall k :: 0 <= k < 3 ==> WholeCents(BillingLines(order, rate)[k].amount)
  {
    hide HalfUp;
  }

  lemma {:induction false} PostedLine(b: Book, h: Heading, lines: seq<PostLine>, k: nat)
    requires k < |lines| && WholeCents(lines[k].amount)
    ensures var c, line := Post(b, h, lines), lines[k];
      && |c.items| == |b.items| + |lines|
      && Posts(c.items[|b.items| + k], VoucherOf(b.next, h), k + 1, line.account, line.supplier, line.customer, line.amount)
      && c.items[|b.items| + k].clearing == Open(false)
      && (SideOf(line) != GLLine ==>
            DueFrom(c.items[|b.items| + k], line.terms, match line.baseline case Some(d) => d case None => h.posting, line.block))
  {
    hide NewItem, Posts, WholeCents;
    LinePosts(b.next, h, k + 1, lines[k]);
    SideIs(b.next, h, k + 1, lines[k]);
  }

  lemma {:induction false} PostedFrame(b: Book, h: Heading, lines: seq<PostLine>)
    requires h.docType != ""
    ensures var c := Post(b, h, lines);
      && Heads(b, c, VoucherOf(b.next, h), h.docType, h.reference) && c.next == b.next + 1
      && c.items[..|b.items|] == b.items && c.invoices == b.invoices && c.billings == b.billings
  {
  }

  // ----- a supplier's invoice -----

  /** The figures an invoice is posted with, in whole cents; `items` are its items', nothing for one
      that states none. */
  datatype Figures = Figures(gross: int, net: int, tax: int, items: seq<int>)

  /** Each figure is the one stated, rounded. A net that is not stated is the gross less the tax, and
      a tax that is not stated the gross less the net. */
  ghost predicate FiguresOf(inv: Incoming, f: Figures) {
    && RoundsTo(f.gross, inv.gross, 1)
    && (match inv.net
        case Some(n) => RoundsTo(f.net, n, 1)
        case None => match inv.tax
          case Some(t) => RoundsTo(f.gross - f.net, t, 1)
          case None => f.net == f.gross)
    && (match inv.tax case Some(t) => RoundsTo(f.tax, t, 1) case None => f.tax == f.gross - f.net)
    && |f.items| == |inv.items|
    && forall i :: 0 <= i < |f.items| ==> ItemFigure(f.items[i], inv.items[i])
  }

  ghost predicate ItemFigure(r: int, stated: Option<int>) {
    match stated case Some(a) => RoundsTo(r, a, 1) case None => r == 0
  }

  ghost predicate AllStated(inv: Incoming) {
    inv.items != [] && forall i :: 0 <= i < |inv.items| ==> inv.items[i].Some?
  }

  /** It adds up: the gross is net and tax, and so the net is its items, if each says what it is. */
  ghost predicate AddsUp(inv: Incoming, f: Figures) {
    f.gross == f.net + f.tax && (AllStated(inv) ==> Sum(f.items, (x: int) => x) == f.net)
  }

  /** An invoice credits its supplier with the gross, on its own terms, baseline date and block, and
      debits expense with the net and input tax with the tax, if any; its own row names the document. */
  ghost predicate InvoicesBy(b: Book, c: Book, inv: Incoming, f: Figures) {
    var company := if inv.company == "" then "1710" else inv.company;
    var v, n := Voucher(b.next, company, inv.posting, if inv.currency == "" then "EUR" else inv.currency), |b.items|;
    && Heads(b, c, v, "RE", inv.reference) && c.next == b.next + 1 && c.billings == b.billings
    && c.invoices == b.invoices + [Invoice(Bill(Some(b.next), company, inv.posting.year, inv.reference, f.gross), inv.block, Claim("", None))]
    && |c.items| == (if f.tax == 0 then n + 2 else n + 3) && c.items[..n] == b.items
    && Posts(c.items[n], v, 1, "", inv.supplier, "", -f.gross)
    && DueFrom(c.items[n], inv.terms, if inv.baseline.Some? then inv.baseline.value else inv.posting, inv.block)
    && Posts(c.items[n + 1], v, 2, "0000400000", "", "", f.net)
    && (f.tax != 0 ==> Posts(c.items[n + 2], v, 3, "0000154000", "", "", f.tax))
    && forall i :: n <= i < |c.items| ==> c.items[i].clearing == Open(false)
  }

  /** An invoice is accepted just when it names a supplier and its figures add up, and then posts them. */
  lemma {:induction false} InvoiceIs(b: Book, inv: Incoming) returns (f: Figures)
    ensures FiguresOf(inv, f)
    ensures PostInvoice(b, inv).Ok? <==> inv.supplier != "" && AddsUp(inv, f)
    ensures PostInvoice(b, inv).Ok? ==> InvoicesBy(b, PostInvoice(b, inv).value, inv, f)
    ensures PostInvoice(b, inv).Err? ==> (PostInvoice(b, inv).error == NoSupplier <==> inv.supplier == "")
  {
    hide InvoicesBy, RoundsTo, HalfUp, Sum, InvoiceLines, NetOf, TaxOf;
    var items := Map(inv.items, (x: Option<int>) => AtCents(match x case Some(a) => a case None => 0));
    f := Figures(AtCents(inv.gross), NetOf(inv), TaxOf(inv), items);
    FiguresAre(inv, f);
    InvoiceAccepted(b, inv);
    SumAgree(inv.items, (x: Option<int>) => AtCents(match x case Some(a) => a case None => 0), items, (x: int) => x);
    if PostInvoice(b, inv).Ok? {
      InvoicePosts(b, inv, f);
    }
  }

  lemma {:induction false} FiguresAre(inv: Incoming, f: Figures)
    requires f.gross == AtCents(inv.gross) && f.net == NetOf(inv) && f.tax == TaxOf(inv) && |f.items| == |inv.items|
    requires forall i :: 0 <= i < |inv.items| ==>
      f.items[i] == AtCents(match inv.items[i] case Some(a) => a case None => 0)
    ensures FiguresOf(inv, f)
  {
    hide HalfUp, RoundsTo;
    CentsRound(inv.gross, 1);
    WholeCentsStay(0);
    if inv.net.Some? {
      CentsRound(inv.net.value, 1);
    }
    if inv.tax.Some? {
      CentsRound(inv.tax.value, 1);
    }
    forall i | 0 <= i < |f.items| ensures ItemFigure(f.items[i], inv.items[i]) {
      if inv.items[i].Some? {
        CentsRound(inv.items[i].value, 1);
      }
    }
  }

  lemma {:induction false} InvoicePosts(b: Book, inv: Incoming, f: Figures)
    requires PostInvoice(b, inv).Ok? && f.gross == AtCents(inv.gross) && f.net == NetOf(inv) && f.tax == TaxOf(inv)
    ensures InvoicesBy(b, PostInvoice(b, inv).value, inv, f)
  {
    hide NetOf, TaxOf, Post, Posts, BalanceOf, AtCents, DueFrom, WholeCents;
    var h, lines := Heading(inv.company, "RE", inv.posting, inv.currency, inv.reference), InvoiceLines(inv);
    InvoiceWhole(inv);
    PostedFrame(b, h, lines);
    PostedLine(b, h, lines, 0);
    PostedLine(b, h, lines, 1);
    if f.tax != 0 {
      PostedLine(b, h, lines, 2);
    }
  }

  // ----- an invoice changed -----

  /** What is stated is taken over, what is not stays. */
  ghost predicate Restated(was: Invoice, now: Invoice, change: InvoiceChange) {
    && (if change.block.Some? then now.block == change.block.value else now.block == was.block)
    && (if change.run.Some? then now.claim.run == change.run.value else now.claim.run == was.claim.run)
    && (if change.runDate.Some? then now.claim.date == change.runDate.value else now.claim.date == was.claim.date)
    && (if change.reference.Some? then now.bill.reference == change.reference.value else now.bill.reference == was.bill.reference)
    && now.bill.doc == was.bill.doc && now.bill.company == was.bill.company && now.bill.year == was.bill.year
    && now.bill.gross == was.bill.gross
  }

  /** A supplier's line of the document an invoice posted. */
  ghost predicate PostedFor(it: Item, inv: Invoice) {
    && it.line.side == SupplierLine && inv.bill.doc == Some(it.key.doc) && inv.bill.company == it.key.company
    && inv.bill.year == it.key.year
  }

  /** A change reaches the invoice and every supplier line it posted, and nothing else. */
  lemma {:induction false} UpdateIs(b: Book, at: nat, change: InvoiceChange)
    ensures UpdateInvoice(b, at, change).Ok? <==> at < |b.invoices|
    ensures at < |b.invoices| ==>
      var c := UpdateInvoice(b, at, change).value;
      && |c.invoices| == |b.invoices| && Restated(b.invoices[at], c.invoices[at], change)
      && (forall i :: 0 <= i < |b.invoices| && i != at ==> c.invoices[i] == b.invoices[i])
      && |c.items| == |b.items| && c.headers == b.headers && c.billings == b.billings && c.next == b.next
      && forall i :: 0 <= i < |b.items| ==>
           && (PostedFor(b.items[i], b.invoices[at]) ==>
                 c.items[i] == b.items[i].(block := c.invoices[at].block, claim := c.invoices[at].claim))
           && (!PostedFor(b.items[i], b.invoices[at]) ==> c.items[i] == b.items[i])
  {
    if at < |b.invoices| {
      ChangeRestates(b.invoices[at], change);
    }
  }

  lemma {:induction false} ChangeRestates(inv: Invoice, change: InvoiceChange)
    ensures Restated(inv, Changed(inv, change), change)
    ensures forall it :: BillOf(Changed(inv, change).bill, it) <==> BillOf(inv.bill, it)
  {
  }
}
