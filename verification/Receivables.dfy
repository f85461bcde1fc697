/** What payments, receipts and their returns leave open, and how a receipt's rows say
    whether it took a discount. */
module Receivables {
  import opened Common
  import opened Money
  import opened Text
  import opened Terms
  import opened Books
  import opened Totals
  import opened Matching
  import opened Posting

  // ----- what a document leaves open of its own -----

  lemma {:induction false} NothingOpen(rows: seq<Item>, side: Side, currency: string)
    requires forall i :: 0 <= i < |rows| ==> !OpenOn(rows[i], side)
    ensures OpenBalance(rows, side, currency) == 0 && OpenKeys(rows, side) == []
  {
    SumZero(rows, (it: Item) => OpenAmount(it, side, currency));
    FilterNone(rows, (it: Item) => OpenOn(it, side));
  }

  /** The rows the group's items are now, in the group's order. */
  lemma {:induction false} ReadyRows(b: Book, group: seq<Settling>, side: Side, posting: Date) returns (rows: seq<Item>)
    requires Valid(b) && Ready(b, group, side)
    ensures |rows| == |group|
    ensures forall i :: 0 <= i < |rows| ==> rows[i] in b.items && RowIs(rows[i], group[i].item) && rows[i].clearing.Open?
  {
    rows := [];
    for n := 0 to |group|
      invariant |rows| == n
      invariant forall i :: 0 <= i < n ==> rows[i] in b.items && RowIs(rows[i], group[i].item) && rows[i].clearing.Open?
    {
      var k := ReadyItem(b, group, side, n);
      rows := rows + [b.items[k]];
    }
  }

  ghost function OwedIn(group: seq<Settling>, currency: string): int
    requires group != []
  {
    if Currency(group[0].item.line.currency) == currency then Sum(group, (s: Settling) => Owed(s)) else 0
  }

  lemma {:induction false} GroupCloses(b: Book, group: seq<Settling>, side: Side, posting: Date, h: Heading, lines: seq<PostLine>,
                                       only: Option<nat>, currency: string)
    requires Valid(b) && Ready(b, group, side)
    ensures OpenBalance(Settle(b, h, lines, SettlingChanges(group, b.next, posting), side, only).items, side, currency)
         == OpenBalance(b.items, side, currency) - OwedIn(group, currency)
            + OpenBalance(OwnRows(b.next, h, lines, side, only), side, currency)
  {
    var changes := SettlingChanges(group, b.next, posting);
    var rows := ReadyRows(b, group, side, posting);
    ReadyChanges(b, group, side, posting);
    SettleCloses(b, h, lines, changes, side, only, rows, side, currency);
    var f := (it: Item) => OpenAmount(it, side, currency);
    var mine := Currency(group[0].item.line.currency) == currency;
    var g := (s: Settling) => if mine then Owed(s) else 0;
    forall i | 0 <= i < |group| ensures f(rows[i]) == g(group[i]) {
      assert ReadyAt(b, group[i].item, side);
      var k := ReadyItem(b, group, side, i);
    }
    SumAgree(rows, f, group, g);
    if mine {
      SumAgree(group, g, group, (s: Settling) => Owed(s));
    } else {
      SumZero(group, g);
    }
  }

  /** The keys the group settles, taken out of a list of keys. */
  ghost function Without(keys: seq<Key>, group: seq<Settling>): seq<Key> {
    Filter(keys, (k: Key) => !Settled(group, k))
  }

  lemma {:induction false} GroupLeaves(b: Book, group: seq<Settling>, side: Side, posting: Date, h: Heading, lines: seq<PostLine>,
                                       only: Option<nat>)
    requires Valid(b) && Ready(b, group, side)
    ensures OpenKeys(Settle(b, h, lines, SettlingChanges(group, b.next, posting), side, only).items, side)
         == Without(OpenKeys(b.items, side), group) + OpenKeys(OwnRows(b.next, h, lines, side, only), side)
  {
    var changes := SettlingChanges(group, b.next, posting);
    ReadyChanges(b, group, side, posting);
    SettleOpenKeys(b, h, lines, changes, side, only, side);
    FilterAgree(OpenKeys(b.items, side), (k: Key) => !Names(changes, k), (k: Key) => !Settled(group, k));
  }

  /** After a payment the open payables are the old ones less those paid: the payment's own
      lines are no new debt. */
  lemma {:induction false} PayLeavesOpen(b: Book, group: seq<Settling>, posting: Date, statement: string, currency: string)
    requires Valid(b) && Ready(b, group, SupplierLine)
    ensures var c := Pay(b, group, posting, statement);
      && OpenKeys(c.items, SupplierLine) == Without(OpenKeys(b.items, SupplierLine), group)
      && OpenBalance(c.items, SupplierLine, currency) == OpenBalance(b.items, SupplierLine, currency) - OwedIn(group, currency)
  {
    hide Valid, Settle, PayLines, OwnRows, ReadyAt, KeysDiffer, OpenKeys, OpenBalance, OwedIn, Without;
    var h, lines := HeadingOf(group[0].item, "ZP", posting, statement), PayLines(group);
    GroupCloses(b, group, SupplierLine, posting, h, lines, None, currency);
    GroupLeaves(b, group, SupplierLine, posting, h, lines, None);
    OwnAllCleared(b.next, h, lines, SupplierLine, currency);
    assert OpenKeys(OwnRows(b.next, h, lines, SupplierLine, None), SupplierLine) == [];
  }

  lemma {:induction false} OwnAllCleared(doc: nat, h: Heading, lines: seq<PostLine>, side: Side, currency: string)
    ensures var own := OwnRows(doc, h, lines, side, None); OpenBalance(own, side, currency) == 0 && OpenKeys(own, side) == []
  {
    hide NewItem, OpenKeys, OpenBalance;
    NothingOpen(OwnRows(doc, h, lines, side, None), side, currency);
  }

  // ----- a receipt's own lines -----

  ghost function UnearnedGroup(group: seq<Settling>): seq<Settling> {
    Filter(group, (s: Settling) => TakenOff(s) != 0 && Earned(s) != TakenOff(s))
  }

  lemma {:induction false} ReceiptRows(doc: nat, group: seq<Settling>, h: Heading)
    requires forall i :: 0 <= i < |group| ==> ItemOk(group[i], CustomerLine)
    ensures var own := OwnRows(doc, h, CollectLines(group), CustomerLine, Some(|group|));
      && (forall i :: 0 <= i <= |group| ==> !OpenOn(own[i], CustomerLine))
      && own[|group| + 1..] == NewItemsFrom(doc, h, |group| + 1, DiscountLines(group))
  {
    var lines := CollectLines(group);
    var own := OwnRows(doc, h, lines, CustomerLine, Some(|group|));
    var n := |group|;
    forall i | 0 <= i < n ensures lines[i] == CollectLine(group[i]) {
    }
    forall i | 0 <= i <= n ensures !OpenOn(own[i], CustomerLine) {
      if i < n {
        assert ItemOk(group[i], CustomerLine);
        assert own[i] == OwnRow(NewItem(doc, h, i + 1, CollectLine(group[i])), h.posting, CustomerLine, Some(n));
      }
    }
  }

  /** Rows posted as they are, numbered from `from` on. */
  ghost function NewItemsFrom(doc: nat, h: Heading, from: nat, lines: seq<PostLine>): (r: seq<Item>)
    ensures |r| == |lines|
  {
    seq(|lines|, i requires 0 <= i < |lines| => NewItem(doc, h, from + i + 1, lines[i]))
  }

  ghost predicate OpensDiscount(it: Item, s: Settling, doc: nat) {
    it.key.doc == doc && it.line.customer == s.item.line.customer && it.line.amount == TakenOff(s) && it.line.debit
    && OpenOn(it, CustomerLine)
  }

  lemma {:induction false} DiscountLinesSnoc(group: seq<Settling>, s: Settling)
    ensures DiscountLines(group + [s]) == DiscountLines(group) + (if TakenOff(s) == 0 then [] else [DiscountLine(s)])
  {
    hide TakenOff, DiscountLine, Filter;
    var some := (s: Settling) => TakenOff(s) != 0;
    FilterSnoc(group, s, some);
    MapSnoc(Filter(group, some), s, (s: Settling) => DiscountLine(s));
  }

  lemma {:induction false} UnearnedSnoc(group: seq<Settling>, s: Settling)
    ensures UnearnedGroup(group + [s]) == UnearnedGroup(group) + (if TakenOff(s) != 0 && Earned(s) != TakenOff(s) then [s] else [])
  {
    FilterSnoc(group, s, (s: Settling) => TakenOff(s) != 0 && Earned(s) != TakenOff(s));
  }

  /** Of the discount rows, the open customer ones are one for each unearned discount, in order
      and for its amount. */
  lemma {:induction false} DiscountRows(doc: nat, h: Heading, from: nat, group: seq<Settling>)
    requires AllExact(group) && forall i :: 0 <= i < |group| ==> ItemOk(group[i], CustomerLine)
    ensures var open := Filter(NewItemsFrom(doc, h, from, DiscountLines(group)), (it: Item) => OpenOn(it, CustomerLine));
      && |open| == |UnearnedGroup(group)|
      && (forall i :: 0 <= i < |open| ==> OpensDiscount(open[i], UnearnedGroup(group)[i], doc))
  {
    if |group| > 0 {
      hide NewItem, DiscountLine, DiscountLines, UnearnedGroup, Filter, OpenOn, OpensDiscount, Exact, ItemOk;
      var rest, s := group[..|group| - 1], group[|group| - 1];
      var rows := NewItemsFrom(doc, h, from, DiscountLines(rest));
      assert group == rest + [s];
      DiscountRows(doc, h, from, rest);
      DiscountLinesSnoc(rest, s);
      UnearnedSnoc(rest, s);
      if TakenOff(s) == 0 {
        assert DiscountLines(rest) + [] == DiscountLines(rest) && UnearnedGroup(rest) + [] == UnearnedGroup(rest);
      } else {
        var row := NewItem(doc, h, from + |rows| + 1, DiscountLine(s));
        assert NewItemsFrom(doc, h, from, DiscountLines(group)) == rows + [row];
        DiscountRow(doc, h, from + |rows| + 1, s);
        OneMoreOpens(rows, row, UnearnedGroup(rest), s, doc, Earned(s) != TakenOff(s));
      }
    }
  }

  lemma {:induction false} OneMoreOpens(rows: seq<Item>, row: Item, unearned: seq<Settling>, s: Settling, doc: nat, opens: bool)
    requires var open := Filter(rows, (it: Item) => OpenOn(it, CustomerLine));
      |open| == |unearned| && forall i :: 0 <= i < |open| ==> OpensDiscount(open[i], unearned[i], doc)
    requires OpenOn(row, CustomerLine) == opens && (opens ==> OpensDiscount(row, s, doc))
    ensures var open, all := Filter(rows + [row], (it: Item) => OpenOn(it, CustomerLine)), unearned + (if opens then [s] else []);
      |open| == |all| && forall i :: 0 <= i < |open| ==> OpensDiscount(open[i], all[i], doc)
  {
    hide Filter, OpenOn, OpensDiscount;
    FilterSnoc(rows, row, (it: Item) => OpenOn(it, CustomerLine));
  }

  lemma {:induction false} DiscountRow(doc: nat, h: Heading, pos: nat, s: Settling)
    requires Exact(s) && ItemOk(s, CustomerLine) && TakenOff(s) != 0
    ensures var row := NewItem(doc, h, pos, DiscountLine(s));
      if Earned(s) != TakenOff(s) then OpenOn(row, CustomerLine) && OpensDiscount(row, s, doc) else !OpenOn(row, CustomerLine)
  {
    WholeCentsStay(TakenOff(s));
  }

  ghost predicate OpensDiscounts(added: seq<Item>, group: seq<Settling>, doc: nat) {
    && |added| == |UnearnedGroup(group)|
    && (forall i :: 0 <= i < |added| ==> OpensDiscount(added[i], UnearnedGroup(group)[i], doc))
  }

  lemma {:induction false} ReceiptOpens(doc: nat, group: seq<Settling>, h: Heading) returns (added: seq<Item>)
    requires AllExact(group)
    requires forall i :: 0 <= i < |group| ==> ItemOk(group[i], CustomerLine)
    ensures var own := OwnRows(doc, h, CollectLines(group), CustomerLine, Some(|group|));
      && OpenKeys(own, CustomerLine) == Map(added, (it: Item) => it.key)
      && added == Filter(own, (it: Item) => OpenOn(it, CustomerLine))
    ensures OpensDiscounts(added, group, doc)
  {
    var n := |group|;
    var own := OwnRows(doc, h, CollectLines(group), CustomerLine, Some(n));
    var isOpen := (it: Item) => OpenOn(it, CustomerLine);
    ReceiptRows(doc, group, h);
    DiscountRows(doc, h, n + 1, group);
    var first, rest := own[..n + 1], own[n + 1..];
    assert own == first + rest;
    FilterAppend(first, rest, isOpen);
    FilterNone(first, isOpen);
    added := Filter(rest, isOpen);
  }

  /** After a receipt the open receivables are the old ones less those cleared, and then one
      new line, for its amount and on that customer's account, for each discount not earned. */
  lemma {:induction false} CollectLeavesOpen(b: Book, group: seq<Settling>, posting: Date, statement: string) returns (added: seq<Item>)
    requires Valid(b) && Ready(b, group, CustomerLine) && AllExact(group)
    ensures var c := Collect(b, group, posting, statement);
      && OpenKeys(c.items, CustomerLine) == Without(OpenKeys(b.items, CustomerLine), group) + Map(added, (it: Item) => it.key)
      && (forall it :: it in added ==> it in c.items)
    ensures OpensDiscounts(added, group, b.next)
  {
    var h, lines, n := HeadingOf(group[0].item, "DZ", posting, statement), CollectLines(group), |group|;
    GroupLeaves(b, group, CustomerLine, posting, h, lines, Some(n));
    AllItemsOk(b, group, CustomerLine);
    added := ReceiptOpens(b.next, group, h);
    FilterMembers(OwnRows(b.next, h, lines, CustomerLine, Some(n)), (it: Item) => OpenOn(it, CustomerLine));
    ReadyChanges(b, group, CustomerLine, posting);
    SettleIs(b, h, lines, SettlingChanges(group, b.next, posting), CustomerLine, Some(n));
  }

  lemma {:induction false} AllItemsOk(b: Book, group: seq<Settling>, side: Side)
    requires Valid(b) && Ready(b, group, side)
    ensures forall i :: 0 <= i < |group| ==> ItemOk(group[i], side)
  {
    forall i | 0 <= i < |group| ensures ItemOk(group[i], side) {
      var _ := ReadyItem(b, group, side, i);
    }
  }

  /** The same in money: what is open falls by what was owed, and rises by the unearned discounts. */
  lemma {:induction false} CollectCloses(b: Book, group: seq<Settling>, posting: Date, statement: string, currency: string)
    requires Valid(b) && Ready(b, group, CustomerLine) && AllExact(group)
    ensures OpenBalance(Collect(b, group, posting, statement).items, CustomerLine, currency)
         == OpenBalance(b.items, CustomerLine, currency) - OwedIn(group, currency)
            + (if Currency(group[0].item.line.currency) == currency then Sum(group, (s: Settling) => UnearnedOf(s)) else 0)
  {
    var h, lines, n := HeadingOf(group[0].item, "DZ", posting, statement), CollectLines(group), |group|;
    GroupCloses(b, group, CustomerLine, posting, h, lines, Some(n), currency);
    AllItemsOk(b, group, CustomerLine);
    assert ReadyAt(b, group[0].item, CustomerLine);
    ReceiptBalance(b.next, group, h, currency);
  }

  lemma {:induction false} ReceiptBalance(doc: nat, group: seq<Settling>, h: Heading, currency: string)
    requires AllExact(group)
    requires forall i :: 0 <= i < |group| ==> ItemOk(group[i], CustomerLine)
    ensures OpenBalance(OwnRows(doc, h, CollectLines(group), CustomerLine, Some(|group|)), CustomerLine, currency)
         == if Currency(CurrencyOf(h)) == currency then Sum(group, (s: Settling) => UnearnedOf(s)) else 0
  {
    var n := |group|;
    var own := OwnRows(doc, h, CollectLines(group), CustomerLine, Some(n));
    ReceiptRows(doc, group, h);
    SplitBalance(own, n + 1, CustomerLine, currency);
    NothingOpen(own[..n + 1], CustomerLine, currency);
    RowsOpen(doc, h, n + 1, DiscountLines(group), currency);
    UnearnedSum(group, Currency(CurrencyOf(h)) == currency);
  }

  lemma {:induction false} SplitBalance(rows: seq<Item>, n: nat, side: Side, currency: string)
    requires n <= |rows|
    ensures OpenBalance(rows, side, currency) == OpenBalance(rows[..n], side, currency) + OpenBalance(rows[n..], side, currency)
  {
    assert rows == rows[..n] + rows[n..];
    SumAppend(rows[..n], rows[n..], (it: Item) => OpenAmount(it, side, currency));
  }

  lemma {:induction false} RowsOpen(doc: nat, h: Heading, from: nat, lines: seq<PostLine>, currency: string)
    ensures OpenBalance(NewItemsFrom(doc, h, from, lines), CustomerLine, currency)
         == Sum(lines, (line: PostLine) => if Currency(CurrencyOf(h)) == currency && SideOf(line) == CustomerLine
                                           then Abs(AtCents(line.amount)) else 0)
  {
    SumAgree(NewItemsFrom(doc, h, from, lines), (it: Item) => OpenAmount(it, CustomerLine, currency),
             lines, (line: PostLine) => if Currency(CurrencyOf(h)) == currency && SideOf(line) == CustomerLine
                                           then Abs(AtCents(line.amount)) else 0);
  }

  lemma {:induction false} UnearnedSum(group: seq<Settling>, mine: bool)
    requires AllExact(group) && forall i :: 0 <= i < |group| ==> ItemOk(group[i], CustomerLine)
    ensures Sum(DiscountLines(group),
                (line: PostLine) => if mine && SideOf(line) == CustomerLine
                                           then Abs(AtCents(line.amount)) else 0)
         == if mine then Sum(group, (s: Settling) => UnearnedOf(s)) else 0
  {
    var k := (line: PostLine) => if mine && SideOf(line) == CustomerLine then Abs(AtCents(line.amount)) else 0;
    var g := (s: Settling) => if mine then UnearnedOf(s) else 0;
    forall i | 0 <= i < |group| ensures g(group[i]) == if TakenOff(group[i]) != 0 then k(DiscountLine(group[i])) else 0 {
      assert Exact(group[i]) && ItemOk(group[i], CustomerLine);
      WholeCentsStay(TakenOff(group[i]));
    }
    SumDiscountLines(group, k, g);
    if mine {
      SumAgree(group, g, group, (s: Settling) => UnearnedOf(s));
    } else {
      SumZero(group, g);
    }
  }

  ghost function CashDiscountsAndDebts(b: Book, currency: string): int {
    AccountBalance(b.items, "0000113100", currency) + AccountBalance(b.items, "0048000000", currency)
    + OpenBalance(b.items, CustomerLine, currency)
  }

  /** Nothing is lost: what was owed has become cash, an earned discount or a new debt.
      For each invoice that is so, and for the ledger as a whole in each currency. */
  lemma {:induction false} CollectConserves(b: Book, group: seq<Settling>, posting: Date, statement: string, currency: string)
    requires Valid(b) && Ready(b, group, CustomerLine) && AllExact(group)
    ensures forall s :: s in group ==> (Owed(s) - TakenOff(s)) + EarnedOf(s) + UnearnedOf(s) == Owed(s)
    ensures CashDiscountsAndDebts(Collect(b, group, posting, statement), currency) == CashDiscountsAndDebts(b, currency)
  {
    hide CollectLines;
    CollectMoves(b, group, posting, statement, currency);
    CollectCloses(b, group, posting, statement, currency);
    assert ReadyAt(b, group[0].item, CustomerLine);
    SumAdd(group, (s: Settling) => EarnedOf(s), (s: Settling) => UnearnedOf(s), (s: Settling) => TakenOff(s));
  }

  // ----- a return -----

  /** A return puts the item's amount back among what is open on its side, and nothing else:
      its own party line is no new debt either. */
  lemma {:induction false} ReopenOpens(b: Book, it: Item, line: StatementLine, posting: Date, side: Side, currency: string)
    requires Valid(b) && Current(b, it) && IsCleared(b, it.key)
    requires it.line.side != GLLine
    ensures OpenBalance(Reopen(b, it, line, posting).items, it.line.side, currency)
         == OpenBalance(b.items, it.line.side, currency)
            + (if Currency(it.line.currency) == currency then it.line.amount else 0)
  {
    hide OwnRows, Settle, OpenBalance, ReopenLines;
    var h, lines, own := ReopenHeading(it, line, posting), ReopenLines(it), ReopenSide(it);
    var k :| 0 <= k < |b.items| && RowIs(b.items[k], it);
    assert ValidItem(b.items[k], b.next);
    SettleReopens(b, h, lines, Change(it.key, Open(true)), own, None, k, it.line.side, currency);
    OwnAllCleared(b.next, h, lines, own, currency);
  }

  // ----- whether a receipt took a discount, read off its rows -----

  lemma {:induction false} ReceiptCredits(doc: nat, group: seq<Settling>, h: Heading)
    requires AllExact(group)
    requires forall i :: 0 <= i < |group| ==> ItemOk(group[i], CustomerLine)
    ensures Credited(OwnRows(doc, h, CollectLines(group), CustomerLine, Some(|group|)), Key(doc, CompanyOf(h), h.posting.year, 0))
         == Sum(group, (s: Settling) => Owed(s))
  {
    var key := Key(doc, CompanyOf(h), h.posting.year, 0);
    var credit := (line: PostLine) => if line.customer != "" && AtCents(line.amount) < 0 then -AtCents(line.amount) else 0;
    OwnSum(doc, h, CollectLines(group), CustomerLine, Some(|group|), (row: Item) =>
      if SameDoc(row.key, key) && row.line.customer != "" && !row.line.debit then row.line.amount else 0, credit);
    CreditTotal(group);
  }

  lemma {:induction false} CreditTotal(group: seq<Settling>)
    requires AllExact(group)
    requires forall i :: 0 <= i < |group| ==> ItemOk(group[i], CustomerLine)
    ensures Sum(CollectLines(group), (line: PostLine) =>
              if line.customer != "" && AtCents(line.amount) < 0 then -AtCents(line.amount) else 0)
         == Sum(group, (s: Settling) => Owed(s))
  {
    var credit := (line: PostLine) => if line.customer != "" && AtCents(line.amount) < 0 then -AtCents(line.amount) else 0;
    forall i | 0 <= i < |group|
      ensures credit(CollectLine(group[i])) == Owed(group[i]) && credit(DiscountLine(group[i])) == 0
    {
      assert Exact(group[i]) && ItemOk(group[i], CustomerLine);
      WholeCentsStay(TakenOff(group[i]));
      WholeCentsStay(-Owed(group[i]));
    }
    SumCollectLines(group, credit, (s: Settling) => Owed(s), (s: Settling) => 0);
    SumZero(group, (s: Settling) => 0);
  }

  lemma {:induction false} ReceiptBanks(doc: nat, group: seq<Settling>, h: Heading)
    requires AllExact(group)
    ensures Banked(OwnRows(doc, h, CollectLines(group), CustomerLine, Some(|group|)), Key(doc, CompanyOf(h), h.posting.year, 0))
         == Sum(group, (s: Settling) => Owed(s)) - Sum(group, (s: Settling) => TakenOff(s))
  {
    hide CollectLines, Sum, AtCents, Owed, TakenOff, Exact;
    var key := Key(doc, CompanyOf(h), h.posting.year, 0);
    var debit := (line: PostLine) => if line.account == BANK_ACCOUNT && AtCents(line.amount) >= 0 then AtCents(line.amount) else 0;
    OwnSum(doc, h, CollectLines(group), CustomerLine, Some(|group|), (row: Item) =>
      if SameDoc(row.key, key) && row.line.account == BANK_ACCOUNT && row.line.debit then row.line.amount else 0, debit);
    DebitTotal(group);
  }

  lemma {:induction false} DebitTotal(group: seq<Settling>)
    requires AllExact(group)
    ensures Sum(CollectLines(group), (line: PostLine) =>
              if line.account == BANK_ACCOUNT && AtCents(line.amount) >= 0 then AtCents(line.amount) else 0)
         == Received(group)
  {
    hide AtCents, Sum, Exact, CollectLines;
    var debit := (line: PostLine) => if line.account == BANK_ACCOUNT && AtCents(line.amount) >= 0 then AtCents(line.amount) else 0;
    ExactSums(group);
    WholeCentsStay(Received(group));
    SumCollectLines(group, debit, (s: Settling) => 0, (s: Settling) => 0);
    SumZero(group, (s: Settling) => 0);
  }

  ghost predicate TookDiscountOn(group: seq<Settling>) {
    exists i :: 0 <= i < |group| && TakenOff(group[i]) > 0
  }

  lemma {:induction false} TakenTotal(group: seq<Settling>)
    requires AllExact(group)
    ensures Sum(group, (s: Settling) => TakenOff(s)) > 0 <==> TookDiscountOn(group)
  {
    var f := (s: Settling) => TakenOff(s);
    forall i | 0 <= i < |group| ensures f(group[i]) >= 0 {
      assert Exact(group[i]);
    }
    SumNonNegative(group, f);
    if !TookDiscountOn(group) {
      SumZero(group, f);
    }
  }

  lemma {:induction false} OldRowsUnread(b: Book, changes: seq<Change>, k: Key)
    requires Valid(b) && k.doc == b.next
    ensures Credited(TouchRows(b.items, changes), k) == 0 && Banked(TouchRows(b.items, changes), k) == 0
  {
    var prior := TouchRows(b.items, changes);
    OldRowsNotMine(b, changes);
    forall i | 0 <= i < |prior| ensures prior[i].key.doc != k.doc {
      assert prior[i] in prior;
    }
    SumZero(prior, (row: Item) =>
      if SameDoc(row.key, k) && row.line.customer != "" && !row.line.debit then row.line.amount else 0);
    SumZero(prior, (row: Item) =>
      if SameDoc(row.key, k) && row.line.account == BANK_ACCOUNT && row.line.debit then row.line.amount else 0);
  }

  /** Each item a receipt clears then reads as paid net just when the receipt took a discount
      on some item, whichever. */
  lemma {:induction false} PaidNetIsDiscount(b: Book, group: seq<Settling>, posting: Date, statement: string, i: nat) returns (row: Item)
    requires Valid(b) && Ready(b, group, CustomerLine) && AllExact(group) && i < |group|
    ensures var c := Collect(b, group, posting, statement);
      && row in c.items && RowIs(row, group[i].item)
      && row.clearing == Cleared(b.next, i + 1, posting.year, posting)
      && (PaidNet(c, row) <==> TookDiscountOn(group))
  {
    hide Settle, TookDiscountOn, AllExact, RowIs, Ready, Banked, Credited;
    row := CollectedRow(b, group, posting, statement, i);
    ReceiptReads(b, group, posting, statement, row.key);
  }

  /** The row of an item the receipt cleared. */
  lemma {:induction false} CollectedRow(b: Book, group: seq<Settling>, posting: Date, statement: string, i: nat) returns (row: Item)
    requires Valid(b) && Ready(b, group, CustomerLine) && i < |group|
    ensures var c := Collect(b, group, posting, statement);
      && row in c.items && RowIs(row, group[i].item) && row.clearing == Cleared(b.next, i + 1, posting.year, posting)
      && row.key.company == group[0].item.key.company
  {
    hide Settle, CollectLines, KeysUnique, ValidItem;
    var h, lines, n := HeadingOf(group[0].item, "DZ", posting, statement), CollectLines(group), |group|;
    var changes := SettlingChanges(group, b.next, posting);
    var c := Collect(b, group, posting, statement);
    var k := ReadyItem(b, group, CustomerLine, i);
    ReadyChanges(b, group, CustomerLine, posting);
    SettleStates(b, h, lines, changes, CustomerLine, Some(n), k);
    assert changes[i].key == b.items[k].key;
    row := c.items[k];
  }

  /** What the receipt's rows say of an item of its company. */
  lemma {:induction false} ReceiptReads(b: Book, group: seq<Settling>, posting: Date, statement: string, of: Key)
    requires Valid(b) && Ready(b, group, CustomerLine) && AllExact(group) && of.company == group[0].item.key.company
    ensures var c, k := Collect(b, group, posting, statement), Key(b.next, of.company, posting.year, 0);
      Banked(c.items, k) < Credited(c.items, k) <==> TookDiscountOn(group)
  {
    hide Settle, CollectLines, KeysUnique, ValidItem, OwnRows, TouchRows, ReleaseRows, Banked, Credited, Exact, ReadyAt, Received, Sum;
    var h, lines, n := HeadingOf(group[0].item, "DZ", posting, statement), CollectLines(group), |group|;
    var changes := SettlingChanges(group, b.next, posting);
    var own := OwnRows(b.next, h, lines, CustomerLine, Some(n));
    var k := Key(b.next, of.company, posting.year, 0);
    ReadyChanges(b, group, CustomerLine, posting);
    SettleIs(b, h, lines, changes, CustomerLine, Some(n));
    var first := ReadyItem(b, group, CustomerLine, 0);
    AllItemsOk(b, group, CustomerLine);
    ReceiptCredits(b.next, group, h);
    ReceiptBanks(b.next, group, h);
    OldRowsUnread(b, changes, k);
    ReadsAppend(TouchRows(b.items, changes), own, k);
    TakenTotal(group);
  }

  lemma {:induction false} ReadsAppend(s: seq<Item>, t: seq<Item>, k: Key)
    ensures Credited(s + t, k) == Credited(s, k) + Credited(t, k) && Banked(s + t, k) == Banked(s, k) + Banked(t, k)
  {
    SumAppend(s, t, (row: Item) =>
      if SameDoc(row.key, k) && row.line.customer != "" && !row.line.debit then row.line.amount else 0);
    SumAppend(s, t, (row: Item) =>
      if SameDoc(row.key, k) && row.line.account == BANK_ACCOUNT && row.line.debit then row.line.amount else 0);
  }

  /** And goes on reading so: later documents add no row to the receipt and change none of what
      its rows say. */
  lemma {:induction false} PaidNetStays(b: Book, c: Book, it: Item, later: Item)
    requires Extends(b, c) && it.clearing.Cleared? && it.clearing.doc < b.next
    requires later.clearing == it.clearing && later.key == it.key
    ensures PaidNet(c, later) <==> PaidNet(b, it)
  {
    var k := Key(it.clearing.doc, it.key.company, it.clearing.year, 0);
    var f := (row: Item) =>
      if SameDoc(row.key, k) && row.line.customer != "" && !row.line.debit then row.line.amount else 0;
    var g := (row: Item) =>
      if SameDoc(row.key, k) && row.line.account == BANK_ACCOUNT && row.line.debit then row.line.amount else 0;
    GrownSum(b, c, k.doc, f);
    GrownSum(b, c, k.doc, g);
  }

  lemma {:induction false} GrownSum(b: Book, c: Book, doc: nat, f: Item -> int)
    requires Extends(b, c) && doc < b.next
    requires forall it: Item :: it.key.doc != doc ==> f(it) == 0
    requires forall it: Item, later: Item :: it.key == later.key && it.line == later.line ==> f(it) == f(later)
    ensures Sum(c.items, f) == Sum(b.items, f)
  {
    var n := |b.items|;
    var prior, added := c.items[..n], c.items[n..];
    assert c.items == prior + added;
    SumAppend(prior, added, f);
    forall i | 0 <= i < n ensures f(prior[i]) == f(b.items[i]) {
      assert RowIs(c.items[i], b.items[i]);
    }
    SumAgree(prior, f, b.items, f);
    forall i | 0 <= i < |added| ensures f(added[i]) == 0 {
      assert added[i] == c.items[n + i];
    }
    SumZero(added, f);
  }
}
