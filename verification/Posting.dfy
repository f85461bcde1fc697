/** The three documents a statement posts: a payment, a receipt, and the return of either. */
module Posting {
  import opened Common
  import opened Money
  import opened Text
  import opened Terms
  import opened Books
  import opened Totals
  import opened Matching

  /** A line of the statement and one item it settles, with the discount taken on it. */
  datatype Settling = Settling(line: StatementLine, item: Item, reference: string, discount: Option<Discount>)

  function AmountOf(line: StatementLine): int {
    match line.amount case Some(a) => Abs(a) case None => 0
  }

  function Owed(s: Settling): int { Abs(s.item.line.amount) }
  function TakenOff(s: Settling): int { match s.discount case Some(d) => d.available case None => 0 }
  function Earned(s: Settling): int { match s.discount case Some(d) => d.earned case None => 0 }

  function OnAccount(account: string, amount: int): PostLine {
    PostLine(account, "", "", amount, "", None, "")
  }

  function OnSupplier(supplier: string, amount: int): PostLine {
    PostLine("", supplier, "", amount, "", None, "")
  }

  function OnCustomer(customer: string, amount: int): PostLine {
    PostLine("", "", customer, amount, "", None, "")
  }

  /** The items settled point at the document's own lines, the nth at line n. */
  function SettlingChanges(group: seq<Settling>, doc: nat, posting: Date): (r: seq<Change>)
    ensures |r| == |group|
  {
    seq(|group|, i requires 0 <= i < |group| =>
      Change(group[i].item.key, Cleared(doc, i + 1, posting.year, posting)))
  }

  function HeadingOf(it: Item, docType: string, posting: Date, reference: string): Heading {
    Heading(it.key.company, docType, posting, it.line.currency, reference)
  }

  // ----- paying a supplier -----

  function PayLine(s: Settling): PostLine {
    OnSupplier(s.item.line.supplier, AmountOf(s.line))
  }

  function Paid(group: seq<Settling>): int {
    Sum(group, (s: Settling) => AmountOf(s.line))
  }

  function PayLines(group: seq<Settling>): seq<PostLine> {
    Map(group, (s: Settling) => PayLine(s)) + [OnAccount(BANK_ACCOUNT, -Paid(group))]
  }

  /** One supplier line for each item and one bank line for them all. */
  function Pay(b: Book, group: seq<Settling>, posting: Date, statement: string): Book
    requires group != []
  {
    Settle(b, HeadingOf(group[0].item, "ZP", posting, statement), PayLines(group),
           SettlingChanges(group, b.next, posting), SupplierLine, None)
  }

  // ----- collecting from a customer -----

  function CollectLine(s: Settling): PostLine {
    OnCustomer(s.item.line.customer, -Owed(s))
  }

  function Received(group: seq<Settling>): int {
    Sum(group, (s: Settling) => Owed(s)) - Sum(group, (s: Settling) => TakenOff(s))
  }

  /** An earned discount is a cost; one taken late is owed again, on a line of its own. */
  function DiscountLine(s: Settling): PostLine {
    if Earned(s) == TakenOff(s) then OnAccount(CASH_DISCOUNT_ACCOUNT, TakenOff(s))
    else OnCustomer(s.item.line.customer, TakenOff(s))
  }

  function DiscountLines(group: seq<Settling>): seq<PostLine> {
    Map(Filter(group, (s: Settling) => TakenOff(s) != 0), (s: Settling) => DiscountLine(s))
  }

  function CollectLines(group: seq<Settling>): seq<PostLine> {
    Map(group, (s: Settling) => CollectLine(s)) + [OnAccount(BANK_ACCOUNT, Received(group))] + DiscountLines(group)
  }

  /** One customer line for each item, one bank line, and a line for each discount; only the
      first of these are the document's clearing lines. */
  function Collect(b: Book, group: seq<Settling>, posting: Date, statement: string): Book
    requires group != []
  {
    Settle(b, HeadingOf(group[0].item, "DZ", posting, statement), CollectLines(group),
           SettlingChanges(group, b.next, posting), CustomerLine, Some(|group|))
  }

  // ----- a return, either way -----

  function ReopenLines(it: Item): seq<PostLine> {
    var amount: int := Abs(it.line.amount);
    if it.line.side == CustomerLine then [OnAccount(BANK_ACCOUNT, -amount), OnCustomer(it.line.customer, amount)]
    else [OnAccount(BANK_ACCOUNT, amount), OnSupplier(it.line.supplier, -amount)]
  }

  function ReopenSide(it: Item): Side {
    if it.line.side == CustomerLine then CustomerLine else SupplierLine
  }

  function ReopenHeading(it: Item, line: StatementLine, posting: Date): Heading {
    HeadingOf(it, if it.line.side == CustomerLine then "DZ" else "ZP", posting, line.reference)
  }

  function Reopen(b: Book, it: Item, line: StatementLine, posting: Date): Book {
    Settle(b, ReopenHeading(it, line, posting), ReopenLines(it), [Change(it.key, Open(true))], ReopenSide(it), None)
  }

  // ----- when a document may be posted -----

  ghost predicate KeysDiffer(group: seq<Settling>) {
    forall i, j :: 0 <= i < j < |group| ==> group[i].item.key != group[j].item.key
  }

  ghost predicate Settled(group: seq<Settling>, key: Key) {
    exists i :: 0 <= i < |group| && group[i].item.key == key
  }

  ghost predicate ReadyAt(b: Book, it: Item, side: Side) {
    Current(b, it) && IsOpen(b, it.key) && it.line.side == side && it.line.currency != ""
  }

  /** Every item is an open row of its side, none is there twice, and all are in one
      company and currency. */
  ghost predicate Ready(b: Book, group: seq<Settling>, side: Side) {
    && group != [] && KeysDiffer(group)
    && (forall i :: 0 <= i < |group| ==> ReadyAt(b, group[i].item, side))
    && (forall i :: 0 <= i < |group| ==> group[i].item.line.currency == group[0].item.line.currency
                                         && group[i].item.key.company == group[0].item.key.company)
  }

  ghost predicate ItemOk(s: Settling, side: Side) {
    && s.item.line.amount >= 0
    && (side == SupplierLine ==> s.item.line.supplier != "")
    && (side == CustomerLine ==> s.item.line.customer != "" && s.item.line.supplier == "")
  }

  lemma {:induction false} ReadyItem(b: Book, group: seq<Settling>, side: Side, i: nat) returns (k: nat)
    requires Valid(b) && Ready(b, group, side) && i < |group|
    ensures k < |b.items| && RowIs(b.items[k], group[i].item) && b.items[k].clearing.Open?
    ensures ItemOk(group[i], side) && group[i].item.key.doc < b.next && group[i].item.key.company != ""
  {
    assert ReadyAt(b, group[i].item, side);
    k :| 0 <= k < |b.items| && RowIs(b.items[k], group[i].item);
    assert ValidItem(b.items[k], b.next);
  }

  lemma {:induction false} ReadyChanges(b: Book, group: seq<Settling>, side: Side, posting: Date)
    requires Valid(b) && Ready(b, group, side)
    ensures var changes := SettlingChanges(group, b.next, posting);
      && ChangesDistinct(changes) && ChangesOld(b, changes)
      && (forall j :: 0 <= j < |changes| ==> changes[j].clearing.Cleared? && changes[j].clearing.doc == b.next)
      && (forall key :: Names(changes, key) <==> Settled(group, key))
  {
    hide ReadyAt, KeysUnique, ValidItem;
    var changes := SettlingChanges(group, b.next, posting);
    forall j | 0 <= j < |group| ensures group[j].item.key.doc < b.next {
      var _ := ReadyItem(b, group, side, j);
    }
    forall key ensures Names(changes, key) <==> Settled(group, key) {
      if Names(changes, key) {
        var j :| 0 <= j < |changes| && changes[j].key == key;
        assert group[j].item.key == key;
      }
      if Settled(group, key) {
        var j :| 0 <= j < |group| && group[j].item.key == key;
        assert changes[j].key == key;
      }
    }
  }

  lemma {:induction false} PayKeeps(b: Book, group: seq<Settling>, posting: Date, statement: string)
    requires Valid(b) && Ready(b, group, SupplierLine)
    ensures var c := Pay(b, group, posting, statement); Valid(c) && Grows(b, c) && (CentsOnly(b) ==> CentsOnly(c))
  {
    ReadyChanges(b, group, SupplierLine, posting);
    SettleKeeps(b, HeadingOf(group[0].item, "ZP", posting, statement), PayLines(group),
                SettlingChanges(group, b.next, posting), SupplierLine, None);
  }

  lemma {:induction false} CollectKeeps(b: Book, group: seq<Settling>, posting: Date, statement: string)
    requires Valid(b) && Ready(b, group, CustomerLine)
    ensures var c := Collect(b, group, posting, statement); Valid(c) && Grows(b, c) && (CentsOnly(b) ==> CentsOnly(c))
  {
    ReadyChanges(b, group, CustomerLine, posting);
    SettleKeeps(b, HeadingOf(group[0].item, "DZ", posting, statement), CollectLines(group),
                SettlingChanges(group, b.next, posting), CustomerLine, Some(|group|));
  }

  lemma {:induction false} ReopenKeeps(b: Book, it: Item, line: StatementLine, posting: Date)
    requires Valid(b) && Current(b, it)
    ensures var c := Reopen(b, it, line, posting); Valid(c) && Grows(b, c) && (CentsOnly(b) ==> CentsOnly(c))
  {
    var k :| 0 <= k < |b.items| && RowIs(b.items[k], it);
    assert ValidItem(b.items[k], b.next);
    SettleKeeps(b, ReopenHeading(it, line, posting), ReopenLines(it), [Change(it.key, Open(true))], ReopenSide(it), None);
  }

  // ----- which rows of before are cleared after -----

  /** Of the rows there were, a document clears the group's and no other. */
  ghost predicate Clears(b: Book, c: Book, group: seq<Settling>) {
    forall key :: HasKey(b, key) ==>
      && (IsCleared(c, key) <==> IsCleared(b, key) || Settled(group, key))
      && (IsOpen(c, key) <==> IsOpen(b, key) && !Settled(group, key))
  }

  lemma {:induction false} SettleClears(b: Book, h: Heading, lines: seq<PostLine>, group: seq<Settling>, posting: Date, side: Side,
                                        only: Option<nat>)
    requires Valid(b) && Ready(b, group, side)
    ensures Clears(b, Settle(b, h, lines, SettlingChanges(group, b.next, posting), side, only), group)
  {
    hide ReadyAt, Settle, KeysUnique, ValidItem, Grows, Sum;
    var changes := SettlingChanges(group, b.next, posting);
    var c := Settle(b, h, lines, changes, side, only);
    ReadyChanges(b, group, side, posting);
    SettleKeeps(b, h, lines, changes, side, only);
    forall key | HasKey(b, key)
      ensures IsCleared(c, key) <==> IsCleared(b, key) || Settled(group, key)
      ensures IsOpen(c, key) <==> IsOpen(b, key) && !Settled(group, key)
    {
      var i :| 0 <= i < |b.items| && b.items[i].key == key;
      SettleStates(b, h, lines, changes, side, only, i);
      OpenOrCleared(b, key);
      OpenOrCleared(c, key);
      assert c.items[i].key == key;
      if Names(changes, key) {
        var j :| 0 <= j < |changes| && changes[j].key == key;
        assert c.items[i].clearing == changes[j].clearing;
      }
    }
  }

  lemma {:induction false} ReopenState(b: Book, it: Item, line: StatementLine, posting: Date, key: Key)
    requires Valid(b) && Current(b, it) && HasKey(b, key)
    ensures var c := Reopen(b, it, line, posting);
        && (IsCleared(c, key) <==> IsCleared(b, key) && key != it.key)
        && (IsOpen(c, key) <==> IsOpen(b, key) || key == it.key)
  {
    hide Grows, ReopenLines, Settle, KeysUnique;
    var changes := [Change(it.key, Open(true))];
    var h, lines, side := ReopenHeading(it, line, posting), ReopenLines(it), ReopenSide(it);
    var c := Reopen(b, it, line, posting);
    ReopenKeeps(b, it, line, posting);
    var k :| 0 <= k < |b.items| && RowIs(b.items[k], it);
    assert ValidItem(b.items[k], b.next);
    var i :| 0 <= i < |b.items| && b.items[i].key == key;
    SettleStates(b, h, lines, changes, side, None, i);
    OpenOrCleared(b, key);
    OpenOrCleared(c, key);
    assert c.items[i].key == key;
    assert changes[0].key == it.key;
    assert Names(changes, key) <==> key == it.key;
  }

  // ----- money -----

  lemma {:induction false} SumPayLines(group: seq<Settling>, k: PostLine -> int, f: Settling -> int)
    requires forall i :: 0 <= i < |group| ==> k(PayLine(group[i])) == f(group[i])
    ensures Sum(PayLines(group), k) == Sum(group, f) + k(OnAccount(BANK_ACCOUNT, -Paid(group)))
  {
    var lines := Map(group, (s: Settling) => PayLine(s));
    SumAgree(lines, k, group, f);
    SumSnoc(lines, OnAccount(BANK_ACCOUNT, -Paid(group)), k);
  }

  lemma {:induction false} SumCollectLines(group: seq<Settling>, k: PostLine -> int, f: Settling -> int, g: Settling -> int)
    requires forall i :: 0 <= i < |group| ==> k(CollectLine(group[i])) == f(group[i])
    requires forall i :: 0 <= i < |group| ==>
      g(group[i]) == if TakenOff(group[i]) != 0 then k(DiscountLine(group[i])) else 0
    ensures Sum(CollectLines(group), k) == Sum(group, f) + k(OnAccount(BANK_ACCOUNT, Received(group))) + Sum(group, g)
  {
    var lines := Map(group, (s: Settling) => CollectLine(s));
    SumAgree(lines, k, group, f);
    SumSnoc(lines, OnAccount(BANK_ACCOUNT, Received(group)), k);
    SumAppend(lines + [OnAccount(BANK_ACCOUNT, Received(group))], DiscountLines(group), k);
    SumDiscountLines(group, k, g);
  }

  lemma {:induction false} SumDiscountLines(group: seq<Settling>, k: PostLine -> int, g: Settling -> int)
    requires forall i :: 0 <= i < |group| ==>
      g(group[i]) == if TakenOff(group[i]) != 0 then k(DiscountLine(group[i])) else 0
    ensures Sum(DiscountLines(group), k) == Sum(group, g)
  {
    if |group| > 0 {
      var rest, s := group[..|group| - 1], group[|group| - 1];
      SumDiscountLines(rest, k, g);
      if TakenOff(s) != 0 {
        assert DiscountLines(group) == DiscountLines(rest) + [DiscountLine(s)];
        SumSnoc(DiscountLines(rest), DiscountLine(s), k);
      } else {
        assert DiscountLines(group) == DiscountLines(rest);
      }
    }
  }

  /** Whole cents throughout, and each discount a part of what is owed. */
  ghost predicate Exact(s: Settling) {
    && WholeCents(Owed(s)) && WholeCents(TakenOff(s))
    && 0 <= TakenOff(s) <= Owed(s)
    && (Earned(s) == 0 || Earned(s) == TakenOff(s))
  }

  ghost predicate AllExact(group: seq<Settling>) {
    forall i :: 0 <= i < |group| ==> Exact(group[i])
  }

  /** The lines paid are whole cents. */
  ghost predicate AllWhole(group: seq<Settling>) {
    forall i :: 0 <= i < |group| ==> WholeCents(AmountOf(group[i].line))
  }

  lemma {:induction false} PaidWhole(group: seq<Settling>)
    requires AllWhole(group)
    ensures WholeCents(Paid(group)) && Paid(group) >= 0
  {
    SumWholeCents(group, (s: Settling) => AmountOf(s.line));
    SumNonNegative(group, (s: Settling) => AmountOf(s.line));
  }

  lemma {:induction false} ExactSums(group: seq<Settling>)
    requires AllExact(group)
    ensures WholeCents(Received(group)) && 0 <= Received(group) && Sum(group, (s: Settling) => TakenOff(s)) >= 0
    ensures Received(group) == Sum(group, (s: Settling) => Owed(s) - TakenOff(s))
  {
    SumWholeCents(group, (s: Settling) => Owed(s));
    SumWholeCents(group, (s: Settling) => TakenOff(s));
    SumNonNegative(group, (s: Settling) => TakenOff(s));
    SumNonNegative(group, (s: Settling) => Owed(s) - TakenOff(s));
    SumAdd(group, (s: Settling) => Owed(s) - TakenOff(s), (s: Settling) => TakenOff(s), (s: Settling) => Owed(s));
  }

  ghost function CurrencyOfGroup(group: seq<Settling>): string
    requires group != []
  {
    Currency(Or(group[0].item.line.currency, "EUR"))
  }

  /** A payment takes exactly the total of its lines out of the bank, in its currency. */
  lemma {:induction false} PayMoves(b: Book, group: seq<Settling>, posting: Date, statement: string, currency: string)
    requires Valid(b) && Ready(b, group, SupplierLine) && AllWhole(group)
    ensures AccountBalance(Pay(b, group, posting, statement).items, BANK_ACCOUNT, currency)
         == AccountBalance(b.items, BANK_ACCOUNT, currency)
            - (if CurrencyOfGroup(group) == currency then Paid(group) else 0)
  {
    var h := HeadingOf(group[0].item, "ZP", posting, statement);
    var changes, lines := SettlingChanges(group, b.next, posting), PayLines(group);
    ReadyChanges(b, group, SupplierLine, posting);
    SettleMovesAccount(b, h, lines, changes, SupplierLine, None, BANK_ACCOUNT, currency);
    PayOnBank(group, h, currency);
  }

  lemma {:induction false} PayOnBank(group: seq<Settling>, h: Heading, currency: string)
    requires AllWhole(group)
    ensures Sum(PayLines(group), (line: PostLine) => if line.account == BANK_ACCOUNT && Currency(CurrencyOf(h)) == currency
                                             then AtCents(line.amount) else 0)
         == -(if Currency(CurrencyOf(h)) == currency then Paid(group) else 0)
  {
    PaidWhole(group);
    WholeCentsStay(-Paid(group));
    SumPayLines(group, (line: PostLine) => if line.account == BANK_ACCOUNT && Currency(CurrencyOf(h)) == currency
                                             then AtCents(line.amount) else 0, (s: Settling) => 0);
    SumZero(group, (s: Settling) => 0);
  }

  /** A payment's debits and credits come to nothing, and no other document's change. */
  lemma {:induction false} PayBalances(b: Book, group: seq<Settling>, posting: Date, statement: string, doc: nat)
    requires Valid(b) && Ready(b, group, SupplierLine) && AllWhole(group)
    ensures DocumentBalance(Pay(b, group, posting, statement).items, doc)
         == if doc == b.next then 0 else DocumentBalance(b.items, doc)
  {
    var h := HeadingOf(group[0].item, "ZP", posting, statement);
    ReadyChanges(b, group, SupplierLine, posting);
    SettleBalances(b, h, PayLines(group), SettlingChanges(group, b.next, posting), SupplierLine, None, doc);
    PayRoundsToNothing(group);
  }

  lemma {:induction false} PayRoundsToNothing(group: seq<Settling>)
    requires AllWhole(group)
    ensures Sum(PayLines(group), (line: PostLine) => AtCents(line.amount)) == 0
  {
    hide AtCents, Sum, Map, WholeCents, HalfUp;
    var rounded := (line: PostLine) => AtCents(line.amount);
    PaidWhole(group);
    WholeCentsStay(-Paid(group));
    forall i | 0 <= i < |group| ensures rounded(PayLine(group[i])) == AmountOf(group[i].line) {
      WholeCentsStay(AmountOf(group[i].line));
    }
    SumPayLines(group, rounded, (s: Settling) => AmountOf(s.line));
  }

  ghost function UnearnedOf(s: Settling): int {
    if Earned(s) != TakenOff(s) then TakenOff(s) else 0
  }

  ghost function EarnedOf(s: Settling): int {
    if Earned(s) == TakenOff(s) then TakenOff(s) else 0
  }

  /** A receipt brings the bank what was owed less the discounts taken, and charges the
      earned ones to the discount account. */
  lemma {:induction false} CollectMoves(b: Book, group: seq<Settling>, posting: Date, statement: string, currency: string)
    requires Valid(b) && Ready(b, group, CustomerLine) && AllExact(group)
    ensures var c, mine := Collect(b, group, posting, statement), CurrencyOfGroup(group) == currency;
      && AccountBalance(c.items, BANK_ACCOUNT, currency)
         == AccountBalance(b.items, BANK_ACCOUNT, currency) + (if mine then Received(group) else 0)
      && AccountBalance(c.items, CASH_DISCOUNT_ACCOUNT, currency)
         == AccountBalance(b.items, CASH_DISCOUNT_ACCOUNT, currency)
            + (if mine then Sum(group, (s: Settling) => EarnedOf(s)) else 0)
  {
    CollectMovesAccount(b, group, posting, statement, BANK_ACCOUNT, currency);
    CollectMovesAccount(b, group, posting, statement, CASH_DISCOUNT_ACCOUNT, currency);
  }

  lemma {:induction false} CollectMovesAccount(b: Book, group: seq<Settling>, posting: Date, statement: string,
                                               account: string, currency: string)
    requires Valid(b) && Ready(b, group, CustomerLine) && AllExact(group)
    requires account == BANK_ACCOUNT || account == CASH_DISCOUNT_ACCOUNT
    ensures var c := Collect(b, group, posting, statement);
      AccountBalance(c.items, account, currency) == AccountBalance(b.items, account, currency)
         + (if CurrencyOfGroup(group) != currency then 0
            else if account == BANK_ACCOUNT then Received(group)
            else Sum(group, (s: Settling) => EarnedOf(s)))
  {
    var h := HeadingOf(group[0].item, "DZ", posting, statement);
    var changes, lines := SettlingChanges(group, b.next, posting), CollectLines(group);
    ReadyChanges(b, group, CustomerLine, posting);
    ExactSums(group);
    WholeCentsStay(Received(group));
    SettleMovesAccount(b, h, lines, changes, CustomerLine, Some(|group|), account, currency);
    var k := (line: PostLine) => if line.account == account && Currency(CurrencyOf(h)) == currency
                                             then AtCents(line.amount) else 0;
    var on := account == CASH_DISCOUNT_ACCOUNT && Currency(CurrencyOf(h)) == currency;
    var g := (s: Settling) => if on then EarnedOf(s) else 0;
    forall i | 0 <= i < |group|
      ensures g(group[i]) == if TakenOff(group[i]) != 0 then k(DiscountLine(group[i])) else 0
    {
      assert Exact(group[i]);
      WholeCentsStay(TakenOff(group[i]));
    }
    SumZero(group, (s: Settling) => 0);
    SumCollectLines(group, k, (s: Settling) => 0, g);
    if on {
      SumAgree(group, g, group, (s: Settling) => EarnedOf(s));
    } else {
      SumZero(group, g);
    }
  }

  /** A receipt's debits and credits come to nothing, and no other document's change. */
  lemma {:induction false} CollectBalances(b: Book, group: seq<Settling>, posting: Date, statement: string, doc: nat)
    requires Valid(b) && Ready(b, group, CustomerLine) && AllExact(group)
    ensures DocumentBalance(Collect(b, group, posting, statement).items, doc)
         == if doc == b.next then 0 else DocumentBalance(b.items, doc)
  {
    var h := HeadingOf(group[0].item, "DZ", posting, statement);
    ReadyChanges(b, group, CustomerLine, posting);
    SettleBalances(b, h, CollectLines(group), SettlingChanges(group, b.next, posting), CustomerLine, Some(|group|), doc);
    CollectRoundsToNothing(group);
  }

  lemma {:induction false} CollectRoundsToNothing(group: seq<Settling>)
    requires AllExact(group)
    ensures Sum(CollectLines(group), (line: PostLine) => AtCents(line.amount)) == 0
  {
    var rounded := (line: PostLine) => AtCents(line.amount);
    var f := (s: Settling) => -1 * Owed(s);
    var g := (s: Settling) => TakenOff(s);
    ExactSums(group);
    WholeCentsStay(Received(group));
    forall i | 0 <= i < |group|
      ensures rounded(CollectLine(group[i])) == f(group[i])
      ensures g(group[i]) == if TakenOff(group[i]) != 0 then rounded(DiscountLine(group[i])) else 0
    {
      assert Exact(group[i]);
      WholeCentsStay(-1 * Owed(group[i]));
      WholeCentsStay(TakenOff(group[i]));
    }
    SumCollectLines(group, rounded, f, g);
    SumScale(group, (s: Settling) => Owed(s), -1, f);
  }

  lemma {:induction false} SumOfTwo<T>(s: seq<T>, f: T -> int)
    requires |s| == 2
    ensures Sum(s, f) == f(s[0]) + f(s[1])
  {
    assert s[..1][..0] == [];
    assert s[..1][0] == s[0];
    assert Sum(s[..1], f) == Sum(s[..1][..0], f) + f(s[0]);
  }

  /** A return moves the bank by the item's amount: in for a payment of ours, out for a receipt. */
  lemma {:induction false} ReopenMoves(b: Book, it: Item, line: StatementLine, posting: Date, currency: string)
    requires Valid(b) && Current(b, it) && WholeCents(it.line.amount)
    ensures AccountBalance(Reopen(b, it, line, posting).items, BANK_ACCOUNT, currency)
         == AccountBalance(b.items, BANK_ACCOUNT, currency)
            + (if Currency(Or(it.line.currency, "EUR")) != currency then 0
               else if it.line.side == CustomerLine then -Abs(it.line.amount) else Abs(it.line.amount))
  {
    hide Settle, AtCents, KeysUnique;
    var h, lines, side := ReopenHeading(it, line, posting), ReopenLines(it), ReopenSide(it);
    var k :| 0 <= k < |b.items| && RowIs(b.items[k], it);
    assert ValidItem(b.items[k], b.next);
    WholeCentsStay(it.line.amount);
    WholeCentsStay(-it.line.amount);
    SettleMovesAccount(b, h, lines, [Change(it.key, Open(true))], side, None, BANK_ACCOUNT, currency);
    SumOfTwo(lines, (l: PostLine) => if l.account == BANK_ACCOUNT && Currency(CurrencyOf(h)) == currency
                                             then AtCents(l.amount) else 0);
  }

  /** A return's debit and credit come to nothing, whatever its amount was. */
  lemma {:induction false} ReopenBalances(b: Book, it: Item, line: StatementLine, posting: Date, doc: nat)
    requires Valid(b) && Current(b, it)
    ensures DocumentBalance(Reopen(b, it, line, posting).items, doc)
         == if doc == b.next then 0 else DocumentBalance(b.items, doc)
  {
    var h, lines, side := ReopenHeading(it, line, posting), ReopenLines(it), ReopenSide(it);
    var k :| 0 <= k < |b.items| && RowIs(b.items[k], it);
    assert ValidItem(b.items[k], b.next);
    AtCentsWhole(Abs(it.line.amount));
    SumOfTwo(lines, (l: PostLine) => AtCents(l.amount));
    SettleBalances(b, h, lines, [Change(it.key, Open(true))], side, None, doc);
  }
}
