/** Giving back a receipt: only one that took no discount, and then exactly what it brought. */
module Refunds {
  import opened Common
  import opened Text
  import opened Terms
  import opened Search
  import opened Books
  import opened Totals
  import opened Matching
  import opened Posting
  import opened Receivables
  import opened Statements
  import opened Grouping
  import opened Returning
  import opened Conservation
  import opened History
  import opened Later
  import opened Runs

  function OpenDebts(b: Book, currency: string): int {
    OpenBalance(b.items, CustomerLine, currency)
  }

  function QuotedAmounts(items: seq<Quote>): int {
    Sum(items, (q: Quote) => Abs(q.item.line.amount))
  }

  /** Reopening a transfer's items puts all of them among what is open again. */
  lemma {:induction false} ReopenAllOpens(b: Book, n: Noted, items: seq<Quote>, posting: Date, paidIn: string, currency: string)
    requires Valid(b) && Reopenable(b, items, paidIn)
    requires forall i :: 0 <= i < |items| ==> IsCleared(b, items[i].item.key)
    ensures OpenDebts(ReopenAll(b, n, items, posting).book, currency)
         == OpenDebts(b, currency) + (if paidIn == currency then QuotedAmounts(items) else 0)
  {
    hide IsCleared, IsOpen, Reopen, ValidItem, KeysUnique, Grows;
    if |items| > 0 {
      var rest, q := items[..|items| - 1], items[|items| - 1];
      assert forall i :: 0 <= i < |rest| ==> rest[i] == items[i];
      ReopenAllOpens(b, n, rest, posting, paidIn, currency);
      var c := ReopenAll(b, n, rest, posting).book;
      assert ReopenableAt(b, q.item, paidIn);
      RowOfKey(b, q.item);
      ReopenAllEvents(b, n, rest, posting, paidIn, q.item.key);
      ReopenAllKeeps(b, n, rest, posting, paidIn);
      CurrentGrows(b, c, q.item);
      ReopenOpens(c, q.item, n.line, posting, CustomerLine, currency);
      NotNegative(c, q.item);
    }
  }

  lemma {:induction false} NotNegative(b: Book, it: Item)
    requires Valid(b) && Current(b, it)
    ensures it.line.amount >= 0
  {
    var k :| 0 <= k < |b.items| && RowIs(b.items[k], it);
    assert ValidItem(b.items[k], b.next);
  }

  lemma {:induction false} ReopenAllReopens(b: Book, n: Noted, items: seq<Quote>, posting: Date, paidIn: string, key: Key)
    requires Valid(b) && Reopenable(b, items, paidIn) && HasKey(b, key)
    ensures var c := ReopenAll(b, n, items, posting).book;
      IsOpen(c, key) <==> IsOpen(b, key) || exists i :: 0 <= i < |items| && items[i].item.key == key
  {
    hide ValidItem, Reopen;
    if |items| > 0 {
      var rest, q := items[..|items| - 1], items[|items| - 1];
      assert forall i :: 0 <= i < |rest| ==> rest[i] == items[i];
      ReopenAllReopens(b, n, rest, posting, paidIn, key);
      ReopenAllKeeps(b, n, rest, posting, paidIn);
      var c := ReopenAll(b, n, rest, posting).book;
      assert ReopenableAt(b, q.item, paidIn);
      CurrentGrows(b, c, q.item);
      HasKeyGrows(b, c, key);
      ReopenState(c, q.item, n.line, posting, key);
      if q.item.key == key {
        assert items[|items| - 1].item.key == key;
      }
    }
  }

  /** What a processed refund line does: it reopens cleared receivables of the line's currency,
      none cleared by a receipt that reads as net of a discount, worth exactly the line together;
      the bank gives up that much and that much is owed again. */
  lemma {:induction false} RefundIsSound(b: Book, n: Noted, items: seq<Quote>, posting: Date, currency: string)
    requires Valid(b) && CentsOnly(b) && IsRefund(n.line)
    requires MatchReturnedReceipt(b, n.line, ClearedItems(b, CustomerLine)) == Reopens(items)
    ensures forall i :: 0 <= i < |items| ==>
      items[i].item in b.items && items[i].item.clearing.Cleared? && !PaidNet(b, items[i].item)
    ensures QuotedAmounts(items) == AmountOf(n.line)
    ensures var c, mine := ReopenAll(b, n, items, posting).book, Currency(n.line.currency) == currency;
      && BankBalance(c, currency) == BankBalance(b, currency) - (if mine then AmountOf(n.line) else 0)
      && OpenDebts(c, currency) == OpenDebts(b, currency) + (if mine then AmountOf(n.line) else 0)
      && (forall i :: 0 <= i < |items| ==> IsOpen(c, items[i].item.key))
  {
    RefundIsReopenable(b, n.line, items);
    forall i | 0 <= i < |items| ensures IsCleared(b, items[i].item.key) {
      RowIsCurrent(b, items[i].item);
    }
    var paidIn := Currency(n.line.currency);
    ReopenAllMoves(b, n, items, posting, b.next, paidIn, currency);
    ReopenAllOpens(b, n, items, posting, paidIn, currency);
    forall i | 0 <= i < |items| ensures IsOpen(ReopenAll(b, n, items, posting).book, items[i].item.key) {
      RowIsCurrent(b, items[i].item);
      ReopenAllReopens(b, n, items, posting, paidIn, items[i].item.key);
    }
  }

  // ----- in any later ledger -----

  /** In a ledger that follows the one the receipt left, an item it still has cleared reads as paid net
      just when it took a discount. */
  lemma {:induction false} PaidNetLater(b: Book, group: seq<Settling>, posting: Date, statement: string, i: nat, d: Book, it: Item)
    requires Valid(b) && Ready(b, group, CustomerLine) && AllExact(group) && i < |group|
    requires Follows(Collect(b, group, posting, statement), d)
    requires it.key == group[i].item.key && it.clearing == Cleared(b.next, i + 1, posting.year, posting)
    ensures PaidNet(d, it) <==> TookDiscountOn(group)
  {
    hide AllExact, PaidNet, ReadyAt;
    var c := Collect(b, group, posting, statement);
    var row := PaidNetIsDiscount(b, group, posting, statement, i);
    CollectNext(b, group, posting, statement);
    PaidNetStays(c, d, row, it);
  }

  lemma {:induction false} CollectNext(b: Book, group: seq<Settling>, posting: Date, statement: string)
    requires Valid(b) && Ready(b, group, CustomerLine)
    ensures Collect(b, group, posting, statement).next == b.next + 1
  {
    hide CollectLines;
    ReadyChanges(b, group, CustomerLine, posting);
    SettleIs(b, HeadingOf(group[0].item, "DZ", posting, statement), CollectLines(group),
             SettlingChanges(group, b.next, posting), CustomerLine, Some(|group|));
  }

  /** So after any run. */
  lemma {:induction false} PaidNetForGood(b: Book, group: seq<Settling>, posting: Date, statement: string, i: nat,
                                          steps: seq<Step>, it: Item)
    requires Valid(b) && Ready(b, group, CustomerLine) && AllExact(group) && i < |group|
    requires it.key == group[i].item.key && it.clearing == Cleared(b.next, i + 1, posting.year, posting)
    ensures PaidNet(Run(Collect(b, group, posting, statement), steps), it) <==> TookDiscountOn(group)
  {
    hide Valid, ReadyAt, AllExact, Collect, Run, Follows, PaidNet;
    CollectKeeps(b, group, posting, statement);
    RunFollows(Collect(b, group, posting, statement), steps);
    PaidNetLater(b, group, posting, statement, i, Run(Collect(b, group, posting, statement), steps), it);
  }

  lemma {:induction false} StatementCollectsExactly(b: Book, lines: seq<StatementLine>, posting: Date, statement: string, k: nat,
                                                     at: Book, group: seq<Settling>)
    requires Valid(b) && CentsOnly(b) && CollectsIn(b, lines, posting, statement, k, at, group)
    ensures AllExact(group)
  {
    hide ReadLines, Valid, ReadingOk, AllExact, ExactEntries, PostGroups, PostAll, ReturnAll, RefundAll;
    var r := ReadLines(b, lines, posting);
    ReadLinesOk(b, lines, posting);
    ReadIsExact(b, r, lines, posting);
    ExactGroup(r.receiving, CustomerLine, Payees(r.receiving)[k]);
  }

  /** And for each receipt of a statement, through the rest of that statement and any run after it. */
  lemma {:induction false} StatementPaidNet(b: Book, lines: seq<StatementLine>, posting: Date, statement: string, k: nat,
                                            at: Book, group: seq<Settling>, i: nat, steps: seq<Step>, it: Item)
    requires Valid(b) && CentsOnly(b) && CollectsIn(b, lines, posting, statement, k, at, group) && i < |group|
    requires it.key == group[i].item.key && it.clearing == Cleared(at.next, i + 1, posting.year, posting)
    ensures PaidNet(Run(Apply(b, lines, posting, statement).book, steps), it) <==> TookDiscountOn(group)
  {
    hide Valid, ReadyAt, AllExact, Collect, Run, Follows, PaidNet, Apply, CollectsIn, CentsOnly;
    ReceiptFollowed(b, lines, posting, statement, k, at, group);
    StatementCollectsExactly(b, lines, posting, statement, k, at, group);
    StatementKeeps(b, lines, posting, statement);
    var c, d := Collect(at, group, posting, statement), Apply(b, lines, posting, statement).book;
    RunFollows(d, steps);
    FollowsChain(c, d, Run(d, steps));
    PaidNetLater(at, group, posting, statement, i, Run(d, steps), it);
  }

  /** An item a receipt cleared is only ever given back if that receipt took no discount at all:
      whatever was done since, and at whichever returned receipt of whichever statement. */
  lemma {:induction false} RefundedReceiptTookNone(b: Book, group: seq<Settling>, posting: Date, statement: string, i: nat,
                                                   steps: seq<Step>, lines: seq<StatementLine>, on: Date, name: string, k: nat,
                                                   line: StatementLine, items: seq<Quote>, q: Quote)
    requires Valid(b) && Ready(b, group, CustomerLine) && AllExact(group) && i < |group|
    requires var d := RefundPoint(Run(Collect(b, group, posting, statement), steps), lines, on, name, k);
      MatchReturnedReceipt(d, line, ClearedItems(d, CustomerLine)) == Reopens(items) && q in items
    requires q.item.key == group[i].item.key && q.item.clearing == Cleared(b.next, i + 1, posting.year, posting)
    ensures !TookDiscountOn(group)
  {
    hide Valid, ReadyAt, AllExact, Collect, Run, Follows, PaidNet, RefundPoint, MatchReturnedReceipt;
    var d := RefundPoint(Run(Collect(b, group, posting, statement), steps), lines, on, name, k);
    RefundPointLater(b, group, posting, statement, steps, lines, on, name, k);
    PaidNetLater(b, group, posting, statement, i, d, q.item);
    RefundIsReopenable(d, line, items);
  }

  lemma {:induction false} RefundPointLater(b: Book, group: seq<Settling>, posting: Date, statement: string, steps: seq<Step>,
                                            lines: seq<StatementLine>, on: Date, name: string, k: nat)
    requires Valid(b) && Ready(b, group, CustomerLine)
    ensures var c := Collect(b, group, posting, statement);
      var d := RefundPoint(Run(c, steps), lines, on, name, k);
      Valid(d) && Follows(c, d)
  {
    hide Valid, ReadyAt, Collect, Run, Follows, RefundPoint;
    var c := Collect(b, group, posting, statement);
    CollectKeeps(b, group, posting, statement);
    RunFollows(c, steps);
    RefundPointFollows(Run(c, steps), lines, on, name, k);
    FollowsChain(c, Run(c, steps), RefundPoint(Run(c, steps), lines, on, name, k));
  }

  /** A receipt without discounts and the return of all its items cancel: whatever is done in between,
      the bank loses what the receipt brought, the receivables are owed again and open. */
  lemma {:induction false} RefundUndoesReceipt(b: Book, group: seq<Settling>, posting: Date, statement: string, steps: seq<Step>,
                                               n: Noted, items: seq<Quote>, returned: Date, currency: string)
    requires Valid(b) && CentsOnly(b) && Ready(b, group, CustomerLine) && AllExact(group) && !TookDiscountOn(group)
    requires |items| == |group| && forall i :: 0 <= i < |items| ==> RowIs(items[i].item, group[i].item)
    requires var d := Run(Collect(b, group, posting, statement), steps);
      forall i :: 0 <= i < |items| ==> IsCleared(d, items[i].item.key)
    ensures var c := Collect(b, group, posting, statement);
      Undoes(b, c, Run(c, steps), ReopenAll(Run(c, steps), n, items, returned).book, items, currency)
  {
    hide Valid, ReadyAt, AllExact, Collect, Run, Follows, CentsOnly, Undoes, ReopenAll, IsCleared;
    var c := Collect(b, group, posting, statement);
    CollectKeeps(b, group, posting, statement);
    RunFollows(c, steps);
    LaterRefundUndoes(b, group, posting, statement, Run(c, steps), n, items, returned, currency);
  }

  /** From `d` to `e` the bank and the open receivables move back by what they moved from `b` to `c`. */
  ghost predicate Undoes(b: Book, c: Book, d: Book, e: Book, items: seq<Quote>, currency: string) {
    && BankBalance(e, currency) - BankBalance(d, currency) == -(BankBalance(c, currency) - BankBalance(b, currency))
    && OpenDebts(e, currency) - OpenDebts(d, currency) == -(OpenDebts(c, currency) - OpenDebts(b, currency))
    && (forall i :: 0 <= i < |items| ==> IsOpen(e, items[i].item.key))
  }

  lemma {:induction false} LaterRefundUndoes(b: Book, group: seq<Settling>, posting: Date, statement: string,
                                             d: Book, n: Noted, items: seq<Quote>, returned: Date, currency: string)
    requires Valid(b) && Ready(b, group, CustomerLine) && AllExact(group) && !TookDiscountOn(group)
    requires Valid(d) && CentsOnly(d) && Follows(Collect(b, group, posting, statement), d)
    requires |items| == |group| && forall i :: 0 <= i < |items| ==> RowIs(items[i].item, group[i].item)
    requires forall i :: 0 <= i < |items| ==> IsCleared(d, items[i].item.key)
    ensures Undoes(b, Collect(b, group, posting, statement), d, ReopenAll(d, n, items, returned).book, items, currency)
  {
    hide Valid, Follows, Collect, ReopenAll, AllExact, TookDiscountOn, CentsOnly, BankBalance, OpenDebts, RowIs, IsCleared, IsOpen;
    ReceiptMoves(b, group, posting, statement, currency);
    RefundMoves(b, group, posting, statement, d, n, items, returned, currency);
    forall i | 0 <= i < |items| ensures IsOpen(ReopenAll(d, n, items, returned).book, items[i].item.key) {
      ReopenedOpen(d, n, items, returned, Currency(group[0].item.line.currency), i);
    }
  }

  ghost function OwedIf(group: seq<Settling>, currency: string): int
    requires group != []
  {
    if Currency(group[0].item.line.currency) == currency then Sum(group, (s: Settling) => Owed(s)) else 0
  }

  /** What a receipt without discounts moves. */
  lemma {:induction false} ReceiptMoves(b: Book, group: seq<Settling>, posting: Date, statement: string, currency: string)
    requires Valid(b) && Ready(b, group, CustomerLine) && AllExact(group) && !TookDiscountOn(group)
    ensures var c := Collect(b, group, posting, statement);
      && BankBalance(c, currency) == BankBalance(b, currency) + OwedIf(group, currency)
      && OpenDebts(c, currency) == OpenDebts(b, currency) - OwedIf(group, currency)
  {
    hide Collect, Exact;
    assert ReadyAt(b, group[0].item, CustomerLine);
    CollectMoves(b, group, posting, statement, currency);
    CollectCloses(b, group, posting, statement, currency);
    TakenTotal(group);
    ExactSums(group);
    NoDiscounts(group);
  }

  /** And what the return of its items moves. */
  lemma {:induction false} RefundMoves(b: Book, group: seq<Settling>, posting: Date, statement: string,
                                       d: Book, n: Noted, items: seq<Quote>, returned: Date, currency: string)
    requires Valid(b) && Ready(b, group, CustomerLine)
    requires Valid(d) && CentsOnly(d) && Follows(Collect(b, group, posting, statement), d)
    requires |items| == |group| && forall i :: 0 <= i < |items| ==> RowIs(items[i].item, group[i].item)
    requires forall i :: 0 <= i < |items| ==> IsCleared(d, items[i].item.key)
    ensures Reopenable(d, items, Currency(group[0].item.line.currency))
    ensures var e := ReopenAll(d, n, items, returned).book;
      && BankBalance(e, currency) == BankBalance(d, currency) - OwedIf(group, currency)
      && OpenDebts(e, currency) == OpenDebts(d, currency) + OwedIf(group, currency)
  {
    hide Valid, Collect, ReopenAll, Extends, ClearsForward, Reopenable, CentsOnly, ReadyAt, OpenDebts, BankBalance;
    var paidIn := Currency(group[0].item.line.currency);
    ReadyReopens(b, group, Collect(b, group, posting, statement), d, items, posting, statement);
    SumAgree(items, (q: Quote) => Abs(q.item.line.amount), group, (s: Settling) => Owed(s));
    ReopenAllMoves(d, n, items, returned, d.next, paidIn, currency);
    ReopenAllOpens(d, n, items, returned, paidIn, currency);
  }

  lemma {:induction false} ReopenedOpen(d: Book, n: Noted, items: seq<Quote>, returned: Date, paidIn: string, i: nat)
    requires Valid(d) && Reopenable(d, items, paidIn) && i < |items|
    ensures IsOpen(ReopenAll(d, n, items, returned).book, items[i].item.key)
  {
    hide Valid, ReopenAll;
    assert ReopenableAt(d, items[i].item, paidIn);
    RowOfKey(d, items[i].item);
    ReopenAllReopens(d, n, items, returned, paidIn, items[i].item.key);
  }

  lemma {:induction false} NoDiscounts(group: seq<Settling>)
    requires AllExact(group) && !TookDiscountOn(group)
    ensures Sum(group, (s: Settling) => UnearnedOf(s)) == 0
  {
    forall i | 0 <= i < |group| ensures UnearnedOf(group[i]) == 0 {
      assert Exact(group[i]);
    }
    SumZero(group, (s: Settling) => UnearnedOf(s));
  }

  lemma {:induction false} ReadyReopens(b: Book, group: seq<Settling>, c: Book, d: Book, items: seq<Quote>, posting: Date, statement: string)
    requires Valid(b) && Ready(b, group, CustomerLine)
    requires c == Collect(b, group, posting, statement) && Extends(c, d)
    requires |items| == |group| && forall i :: 0 <= i < |items| ==> RowIs(items[i].item, group[i].item)
    ensures Reopenable(d, items, Currency(group[0].item.line.currency))
  {
    CollectKeeps(b, group, posting, statement);
    GrowsExtends(b, c);
    ExtendsChain(b, c, d);
    forall i | 0 <= i < |items| ensures ReopenableAt(d, items[i].item, Currency(group[0].item.line.currency)) {
      assert ReadyAt(b, group[i].item, CustomerLine);
      CurrentFollows(b, d, group[i].item);
      var k :| 0 <= k < |d.items| && RowIs(d.items[k], group[i].item);
      assert RowIs(d.items[k], items[i].item);
    }
  }
}
