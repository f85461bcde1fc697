/** What a payer may deduct and what becomes of it: by the terms on the item and the two dates alone. */
module Discounts {
  import opened Common
  import opened Money
  import opened Text
  import opened Terms
  import opened Search
  import opened Books
  import opened Totals
  import opened Matching
  import opened Posting
  import opened Receivables
  import opened Statements
  import opened Grouping
  import opened Returning
  import opened Answers
  import opened Conservation
  import opened Later
  import opened Quoting

  // ----- the terms, in days and percent -----

  /** Ten days at 2%, or fourteen at 3%. */
  ghost predicate OffersDiscount(it: Item, days: int, percent: int) {
    && it.line.baseline.Some?
    && ((Upper(Strip(it.line.terms)) == "0002" && days == 10 && percent == 2)
        || (Upper(Strip(it.line.terms)) == "0003" && days == 14 && percent == 3))
  }

  /** Paid no later than so many days after the item's baseline. */
  ghost predicate PaidWithin(it: Item, posting: Date, days: int) {
    it.line.baseline.Some? && posting.day <= it.line.baseline.value.day + days
  }

  ghost predicate OnTime(it: Item, posting: Date) {
    || (OffersDiscount(it, 10, 2) && PaidWithin(it, posting, 10))
    || (OffersDiscount(it, 14, 3) && PaidWithin(it, posting, 14))
  }

  /** Whole cents, and the nearest to so many percent of an amount in thousandths, a half upwards. */
  ghost predicate NearestPercent(discount: int, amount: int, percent: int) {
    discount % 10 == 0 && -500 < 100 * discount - percent * amount <= 500
  }

  /** A discount as the item's terms give it. */
  ghost predicate TermsGive(it: Item, discount: int) {
    || (OffersDiscount(it, 10, 2) && NearestPercent(discount, Abs(it.line.amount), 2))
    || (OffersDiscount(it, 14, 3) && NearestPercent(discount, Abs(it.line.amount), 3))
  }

  lemma {:induction false} RoundedPercent(amount: nat, percent: int)
    requires percent == 2 || percent == 3
    ensures NearestPercent(10 * HalfUp(amount * (1000 * percent), 1_000_000), amount, percent)
  {
    var n := amount * (1000 * percent);
    HalfUpNearest(n, 1_000_000);
    assert n == 1000 * (percent * amount);
  }

  lemma {:induction false} TermsAre(terms: string)
    ensures var t, key := TermsOf(terms), Upper(Strip(terms));
      && (key == "0002" ==> t.discountDays == 10 && t.rate == 2000)
      && (key == "0003" ==> t.discountDays == 14 && t.rate == 3000)
      && (key != "0002" && key != "0003" ==> t.rate == 0)
  {
    hide Upper, Strip;
  }

  lemma {:induction false} NearestIsOne(x: int, y: int, amount: int, percent: int)
    requires NearestPercent(x, amount, percent) && NearestPercent(y, amount, percent)
    ensures x == y
  {
  }

  /** A discount is on offer just when the terms give one of a cent or more; it is that one, and is
      earned whole on time and not at all later. */
  lemma {:induction false} OfferedIs(it: Item, posting: Date)
    ensures var offered := DiscountOffered(it, posting);
      && (offered.Some? ==> TermsGive(it, offered.value.available) && offered.value.available > 0
                            && offered.value.earned == if OnTime(it, posting) then offered.value.available else 0)
      && (forall d :: TermsGive(it, d) && d > 0 ==> offered.Some? && offered.value.available == d)
  {
    hide HalfUp, Upper, Strip, TermsOf, NearestPercent;
    var amount: nat := Abs(it.line.amount);
    TermsAre(it.line.terms);
    RoundedPercent(amount, 2);
    RoundedPercent(amount, 3);
    forall d | TermsGive(it, d) && d > 0
      ensures DiscountOffered(it, posting).Some? && DiscountOffered(it, posting).value.available == d
    {
      if OffersDiscount(it, 10, 2) {
        NearestIsOne(d, 10 * HalfUp(amount * 2000, 1_000_000), amount, 2);
      } else {
        NearestIsOne(d, 10 * HalfUp(amount * 3000, 1_000_000), amount, 3);
      }
    }
  }

  // ----- what is posted of it -----

  /** Each discount taken is the one the item's terms give. */
  ghost predicate DeductsByTerms(group: seq<Settling>) {
    forall i :: 0 <= i < |group| && group[i].discount.Some? ==>
      TermsGive(group[i].item, group[i].discount.value.available) && group[i].discount.value.available > 0
  }

  /** What a customer took off, and was in time for. */
  ghost function InTime(s: Settling, posting: Date): int {
    if s.discount.Some? && OnTime(s.item, posting) then s.discount.value.available else 0
  }

  /** The items a customer took a discount on too late, in order. */
  ghost function TooLate(group: seq<Settling>, posting: Date): seq<Settling> {
    Filter(group, (s: Settling) => s.discount.Some? && !OnTime(s.item, posting))
  }

  /** A row that has a customer owe a discount of too late again. */
  ghost predicate OwedAgain(row: Item, s: Settling, doc: nat) {
    && row.key.doc == doc && row.line.side == CustomerLine && row.line.customer == s.item.line.customer
    && row.clearing.Open? && row.line.debit && s.discount.Some? && row.line.amount == s.discount.value.available
  }

  /** What a receipt does with the discounts of its group: those in time are charged to the discount
      account, and each of the others is owed again by a row of its own. */
  ghost predicate PostsDiscounts(b: Book, c: Book, group: seq<Settling>, posting: Date, currency: string, added: seq<Item>)
    requires group != []
  {
    && AccountBalance(c.items, "0048000000", currency) - AccountBalance(b.items, "0048000000", currency)
       == (if CurrencyOfGroup(group) == currency then Sum(group, (s: Settling) => InTime(s, posting)) else 0)
    && OpenKeys(c.items, CustomerLine) == Without(OpenKeys(b.items, CustomerLine), group) + Map(added, (it: Item) => it.key)
    && (forall it :: it in added ==> it in c.items)
    && |added| == |TooLate(group, posting)|
    && forall i :: 0 <= i < |added| ==> OwedAgain(added[i], TooLate(group, posting)[i], b.next)
  }

  ghost predicate AsOffered(group: seq<Settling>, posting: Date) {
    forall i :: 0 <= i < |group| ==>
      group[i].discount == None || group[i].discount == DiscountOffered(group[i].item, posting)
  }

  lemma {:induction false} OfferedSplits(s: Settling, posting: Date)
    requires s.discount == None || s.discount == DiscountOffered(s.item, posting)
    ensures EarnedOf(s) == InTime(s, posting)
    ensures TakenOff(s) != 0 && Earned(s) != TakenOff(s) <==> s.discount.Some? && !OnTime(s.item, posting)
    ensures s.discount.Some? ==> TermsGive(s.item, s.discount.value.available) && s.discount.value.available > 0
  {
    hide DiscountOffered, OnTime, TermsGive;
    OfferedIs(s.item, posting);
  }

  lemma {:induction false} CollectPostsDiscounts(b: Book, group: seq<Settling>, posting: Date, statement: string, currency: string)
    returns (added: seq<Item>)
    requires Valid(b) && Ready(b, group, CustomerLine) && AllExact(group) && AsOffered(group, posting)
    ensures DeductsByTerms(group)
    ensures PostsDiscounts(b, Collect(b, group, posting, statement), group, posting, currency, added)
  {
    hide Valid, ReadyAt, Collect, AllExact, DiscountOffered, OnTime, TermsGive, EarnedOf, InTime, AccountBalance, OpenKeys, Without,
         TakenOff, Earned, Filter, Sum;
    CollectMoves(b, group, posting, statement, currency);
    added := CollectLeavesOpen(b, group, posting, statement);
    forall i | 0 <= i < |group|
      ensures EarnedOf(group[i]) == InTime(group[i], posting)
      ensures TakenOff(group[i]) != 0 && Earned(group[i]) != TakenOff(group[i])
         <==> group[i].discount.Some? && !OnTime(group[i].item, posting)
      ensures group[i].discount.Some? ==>
        TermsGive(group[i].item, group[i].discount.value.available) && group[i].discount.value.available > 0
    {
      OfferedSplits(group[i], posting);
    }
    SumAgree(group, (s: Settling) => EarnedOf(s), group, (s: Settling) => InTime(s, posting));
    FilterAgree(group, (s: Settling) => TakenOff(s) != 0 && Earned(s) != TakenOff(s),
                (s: Settling) => s.discount.Some? && !OnTime(s.item, posting));
    LateAreOwed(added, group, posting, b.next);
  }

  lemma {:induction false} LateAreOwed(added: seq<Item>, group: seq<Settling>, posting: Date, doc: nat)
    requires OpensDiscounts(added, group, doc) && UnearnedGroup(group) == TooLate(group, posting)
    ensures |added| == |TooLate(group, posting)|
    ensures forall i :: 0 <= i < |added| ==> OwedAgain(added[i], TooLate(group, posting)[i], doc)
  {
    hide OnTime, UnearnedGroup;
    var late := (s: Settling) => s.discount.Some? && !OnTime(s.item, posting);
    FilterMembers(group, late);
    forall i | 0 <= i < |added| ensures OwedAgain(added[i], TooLate(group, posting)[i], doc) {
      assert OpensDiscount(added[i], UnearnedGroup(group)[i], doc);
      assert late(TooLate(group, posting)[i]);
    }
  }

  /** Every receipt of every statement: a customer deducts only what the terms give; what is in time is
      a cost on the discount account, and exactly what is not is owed again. */
  lemma {:induction false} StatementDiscounts(b: Book, lines: seq<StatementLine>, posting: Date, statement: string, k: nat,
                                              at: Book, group: seq<Settling>, currency: string) returns (added: seq<Item>)
    requires Valid(b) && CentsOnly(b) && CollectsIn(b, lines, posting, statement, k, at, group)
    ensures group != [] && DeductsByTerms(group)
    ensures PostsDiscounts(at, Collect(at, group, posting, statement), group, posting, currency, added)
  {
    hide Valid, ReadyAt, Collect, AllExact, CentsOnly, CollectsIn, Apply, AsOffered, DeductsByTerms, PostsDiscounts, Follows;
    ReceiptFollowed(b, lines, posting, statement, k, at, group);
    StatementOffers(b, lines, posting, statement, k, at, group);
    added := CollectPostsDiscounts(at, group, posting, statement, currency);
  }

  lemma {:induction false} StatementOffers(b: Book, lines: seq<StatementLine>, posting: Date, statement: string, k: nat,
                                           at: Book, group: seq<Settling>)
    requires Valid(b) && CentsOnly(b) && CollectsIn(b, lines, posting, statement, k, at, group)
    ensures AllExact(group) && AsOffered(group, posting)
  {
    hide ReadLines, Valid, AllExact, ExactEntries, PostGroups, PostAll, ReturnAll, RefundAll, ClaimsOk, PaymentsOk, ReturnsOk, RefundsOk,
         RefusalsOk, Reads, DiscountOffered, CentsOnly;
    var r := ReadLines(b, lines, posting);
    ReadLinesOk(b, lines, posting);
    ReadIsExact(b, r, lines, posting);
    var payee := Payees(r.receiving)[k];
    ExactGroup(r.receiving, CustomerLine, payee);
    forall i | 0 <= i < |group| ensures group[i].discount == None || group[i].discount == DiscountOffered(group[i].item, posting) {
      var j := MemberOfGroup(r.receiving, payee, i);
      assert ReadsReceipt(b, r.receiving[j], lines, posting);
    }
  }

  // ----- one item, paid in full or net -----

  /** A sole receivable the line names is settled by its amount in full, or less exactly the discount
      its terms give, and by nothing else. */
  lemma {:induction false} SoleReceipt(b: Book, line: StatementLine, it: Item, reference: string, posting: Date)
    requires NamesItem(b, line, it, reference) && line.amount.Some?
    ensures var m, owed, paid := MatchReceipt(b, line, [it], posting), Abs(it.line.amount), Abs(line.amount.value);
      && (m.Settles? <==> paid == owed || (TermsGive(it, owed - paid) && paid < owed))
      && (m.Settles? ==> |m.taken| == 1 && m.taken[0].what == Quote(it, reference)
                         && (paid == owed ==> m.taken[0].discount == None)
                         && (paid < owed ==> m.taken[0].discount.Some? && m.taken[0].discount.value.available == owed - paid))
  {
    hide NamesItem, TermsGive, DiscountOffered, QuotedBy, InCurrency, Hits, Match, WaysCount;
    var q := Quote(it, reference);
    var offered := DiscountOffered(it, posting);
    SoleQuoted(b, line, it, reference);
    OfferedIs(it, posting);
    var ways := WaysOf(Abs(it.line.amount), offered);
    assert WaysOfPaying([q], posting) == [ways];
    OneItem(q, ways, Abs(line.amount.value));
    OneItemCount(ways);
  }

  lemma {:induction false} OneItemCount(ways: seq<Way>)
    ensures WaysCount([ways]) == 1 + |ways|
  {
    assert [ways][..0] == [];
    assert WaysCount([ways][..0]) == 1;
  }

  lemma {:induction false} SoleQuoted(b: Book, line: StatementLine, it: Item, reference: string)
    requires NamesItem(b, line, it, reference)
    ensures Currency(line.currency) != "" && QuotedBy(b, line, [it]) == [Quote(it, reference)]
    ensures InCurrency(QuotedBy(b, line, [it]), Currency(line.currency)) == [Quote(it, reference)]
  {
    hide Says, KnownAs, ReferenceOf, Quotes, Upper, Strip, Filter;
    SaysSomething(line);
    QuotesSays(reference, line);
    ReferenceKnown(b, it, reference);
    FilterAll([it], (it: Item) => Quotes(ReferenceOf(b, it), line));
    FilterAll([Quote(it, reference)], (q: Quote) => Currency(q.item.line.currency) == Currency(line.currency));
  }
}
