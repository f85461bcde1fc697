/** Which open or cleared items a statement line names, and whether that is one answer. */
module Matching {
  import opened Common
  import opened Money
  import opened Text
  import opened Terms
  import opened Search
  import opened Books

  /** What a line says about itself: money coming back, money arriving, or neither. */
  datatype Action = ComesBack | Arrives | Unsaid

  /** A movement of a statement; `amount` is None where several are given and none is the line's. */
  datatype StatementLine = StatementLine(id: string, amount: Option<int>, currency: string,
                                         reference: string, note: string, action: Action)

  /** Debits are negative: this reader's own convention. */
  predicate IsDebit(line: StatementLine) {
    line.amount.Some? && line.amount.value < 0
  }

  predicate IsCredit(line: StatementLine) {
    line.amount.Some? && line.amount.value > 0
  }

  // ----- what a line quotes -----

  function BilledAs(billings: seq<Billing>, doc: nat): string {
    if |billings| == 0 then ""
    else if billings[0].doc == Some(doc) then billings[0].number
    else BilledAs(billings[1..], doc)
  }

  function InvoicedAs(invoices: seq<Invoice>, key: Key): string {
    if |invoices| == 0 then ""
    else if BillOf(invoices[0].bill, key) then invoices[0].bill.reference
    else InvoicedAs(invoices[1..], key)
  }

  /** The number the payer for this item would quote: the other party's document. */
  function ReferenceOf(b: Book, it: Item): string {
    if it.line.side == CustomerLine then BilledAs(b.billings, it.key.doc) else InvoicedAs(b.invoices, it.key)
  }

  /** A stated reference ends the question; the note is read only where there is none. */
  predicate Quotes(reference: string, line: StatementLine) {
    reference != ""
    && if Strip(line.reference) != "" then reference == Strip(line.reference)
       else Contains(line.note, reference) || Contains(Tight(line.note), Tight(reference))
  }

  datatype Quote = Quote(item: Item, reference: string)

  function QuotedBy(b: Book, line: StatementLine, candidates: seq<Item>): seq<Quote> {
    Map(Filter(candidates, (it: Item) => Quotes(ReferenceOf(b, it), line)),
        (it: Item) => Quote(it, ReferenceOf(b, it)))
  }

  datatype Party = Nobody | SupplierParty(number: string) | CustomerParty(number: string)

  /** Whose account an item sits on, told apart by side as well as by number. */
  function PartyOf(it: Item): Party {
    if it.line.side == CustomerLine then (if it.line.customer == "" then Nobody else CustomerParty(it.line.customer))
    else if it.line.supplier == "" then Nobody else SupplierParty(it.line.supplier)
  }

  function Parties(quoted: seq<Quote>): set<Party> {
    set q | q in quoted :: PartyOf(q.item)
  }

  predicate Claimed(it: Item) {
    Strip(it.claim.run) != ""
  }

  // ----- one item, for a payment or a returned payment -----

  datatype Reason =
    | NoAmount | NothingQuoted | NoCurrency | SeveralParties | OtherCurrency | OtherAmount
    | TooManyQuoted | TooManyWays | SeveralReadings | NoReading | TookDiscount | KindUnsaid | NoSide

  datatype Matched = Found(item: Item, reference: string) | Refused(reason: Reason)

  /** The quoted items of the line's amount, in whatever currency. */
  function EqualTo(b: Book, line: StatementLine, candidates: seq<Item>): seq<Quote>
    requires line.amount.Some?
  {
    Filter(QuotedBy(b, line, candidates), (q: Quote) => Abs(q.item.line.amount) == Abs(line.amount.value))
  }

  /** The quoted items of the line's amount and currency. */
  function Paying(b: Book, line: StatementLine, candidates: seq<Item>): seq<Quote>
    requires line.amount.Some?
  {
    InCurrency(EqualTo(b, line, candidates), Currency(line.currency))
  }

  function InCurrency(quoted: seq<Quote>, currency: string): seq<Quote> {
    Filter(quoted, (q: Quote) => Currency(q.item.line.currency) == currency)
  }

  function ClaimedOf(quoted: seq<Quote>): seq<Quote> {
    Filter(quoted, (q: Quote) => Claimed(q.item))
  }

  function Match(b: Book, line: StatementLine, candidates: seq<Item>): Matched {
    if line.amount.None? then Refused(NoAmount)
    else if QuotedBy(b, line, candidates) == [] then Refused(NothingQuoted)
    else if Currency(line.currency) == "" then Refused(NoCurrency)
    else
      var paying := Paying(b, line, candidates);
      if |Parties(paying)| > 1 then
        var claimed := ClaimedOf(paying);
        if |claimed| == 1 then Found(claimed[0].item, claimed[0].reference) else Refused(SeveralParties)
      else if paying != [] then Found(paying[0].item, paying[0].reference)
      else if EqualTo(b, line, candidates) != [] then Refused(OtherCurrency)
      else Refused(OtherAmount)
  }

  // ----- a set of receivables, for money arriving -----

  const MOST_QUOTED := 16
  const MOST_WAYS := 1_048_576

  function DiscountOffered(it: Item, paidOn: Date): Option<Discount> {
    match it.line.baseline
    case None => None
    case Some(baseline) =>
      var offered := DiscountOn(it.line.terms, baseline, paidOn, Abs(it.line.amount), None, None);
      if offered.available > 0 then Some(offered) else None
  }

  function WaysOfPaying(quoted: seq<Quote>, paidOn: Date): (r: seq<seq<Way>>)
    ensures |r| == |quoted|
  {
    Map(quoted, (q: Quote) => WaysOf(Abs(q.item.line.amount), DiscountOffered(q.item, paidOn)))
  }

  datatype Settlement = Settles(taken: seq<Taken<Quote>>) | Unsettled(reason: Reason)

  function ReasonOf(m: Matched): Reason {
    match m case Refused(r) => r case Found(_, _) => NoReading
  }

  function ReceiptReadings(quoted: seq<Quote>, line: StatementLine, paidOn: Date): seq<seq<Taken<Quote>>>
    requires line.amount.Some?
  {
    ReadingsSummingTo(quoted, WaysOfPaying(quoted, paidOn), Abs(line.amount.value))
  }

  function MatchReceipt(b: Book, line: StatementLine, candidates: seq<Item>, paidOn: Date): Settlement {
    var paidIn := Currency(line.currency);
    var quoted := QuotedBy(b, line, candidates);
    if quoted == [] then Unsettled(NothingQuoted) else
    var same := InCurrency(quoted, paidIn);
    if line.amount.None? || paidIn == "" || same == [] then Unsettled(ReasonOf(Match(b, line, candidates)))
    else if |same| > MOST_QUOTED then Unsettled(TooManyQuoted)
    else if WaysCount(WaysOfPaying(same, paidOn)) - 1 > MOST_WAYS then Unsettled(TooManyWays)
    else
      var readings := ReceiptReadings(same, line, paidOn);
      if |readings| == 1 then Settles(readings[0])
      else Unsettled(if readings == [] then NoReading else SeveralReadings)
  }

  // ----- a set of cleared receivables, for money going back -----

  /** Whether the receipt that cleared this item gave the bank less than it took off the customer. */
  predicate PaidNet(b: Book, it: Item)
    requires it.clearing.Cleared?
  {
    var k := Key(it.clearing.doc, it.key.company, it.clearing.year, 0);
    Banked(b.items, k) < Credited(b.items, k)
  }

  function Credited(items: seq<Item>, k: Key): int {
    Sum(items, (row: Item) =>
      if SameDoc(row.key, k) && row.line.customer != "" && !row.line.debit then row.line.amount else 0)
  }

  function Banked(items: seq<Item>, k: Key): int {
    Sum(items, (row: Item) =>
      if SameDoc(row.key, k) && row.line.account == BANK_ACCOUNT && row.line.debit then row.line.amount else 0)
  }

  datatype Returning = Reopens(items: seq<Quote>) | Stays(reason: Reason)

  function MatchReturnedReceipt(b: Book, line: StatementLine, candidates: seq<Item>): Returning {
    var paidIn := Currency(line.currency);
    var quoted := QuotedBy(b, line, candidates);
    if quoted == [] then Stays(NothingQuoted)
    else if exists q | q in quoted :: q.item.clearing.Cleared? && PaidNet(b, q.item) then Stays(TookDiscount)
    else
      var same := InCurrency(quoted, paidIn);
      if line.amount.Some? && paidIn != "" && 0 < |same| <= MOST_QUOTED then
        var sets := ReturnedSets(same, line);
        if |sets| == 1 then Reopens(sets[0])
        else if sets != [] then Stays(SeveralReadings)
        else Stays(ReasonOf(Match(b, line, candidates)))
      else Stays(ReasonOf(Match(b, line, candidates)))
  }

  function ReturnedSets(quoted: seq<Quote>, line: StatementLine): seq<seq<Quote>>
    requires line.amount.Some?
  {
    SetsSummingTo(quoted, (q: Quote) => Abs(q.item.line.amount), Abs(line.amount.value))
  }

  // ----- what an answer rests on -----

  /** Reference, amount and currency all agree. */
  predicate Fits(b: Book, line: StatementLine, it: Item) {
    && line.amount.Some? && Currency(line.currency) != ""
    && Quotes(ReferenceOf(b, it), line)
    && Abs(it.line.amount) == Abs(line.amount.value)
    && Currency(it.line.currency) == Currency(line.currency)
  }

  ghost predicate OneParty(b: Book, line: StatementLine, candidates: seq<Item>) {
    forall i, j :: 0 <= i < |candidates| && 0 <= j < |candidates|
      && Fits(b, line, candidates[i]) && Fits(b, line, candidates[j])
      ==> PartyOf(candidates[i]) == PartyOf(candidates[j])
  }

  ghost function FittingClaims(b: Book, line: StatementLine, candidates: seq<Item>): seq<Item> {
    Filter(candidates, (it: Item) => Fits(b, line, it) && Claimed(it))
  }

  lemma {:induction false} FilterMap<S, T>(s: seq<S>, f: S -> T, p: T -> bool, q: S -> bool)
    requires forall x :: x in s ==> q(x) == p(f(x))
    ensures Filter(Map(s, f), p) == Map(Filter(s, q), f)
  {
    if |s| > 0 {
      var rest, x := s[..|s| - 1], s[|s| - 1];
      FilterMap(rest, f, p, q);
      assert Map(s, f)[..|s| - 1] == Map(rest, f);
    }
  }

  lemma {:induction false} FilterTwice<T>(s: seq<T>, p: T -> bool, q: T -> bool, both: T -> bool)
    requires forall x :: x in s ==> both(x) == (p(x) && q(x))
    ensures Filter(Filter(s, p), q) == Filter(s, both)
  {
    if |s| > 0 {
      var rest, x := s[..|s| - 1], s[|s| - 1];
      FilterTwice(rest, p, q, both);
      if p(x) {
        FilterSnoc(Filter(rest, p), x, q);
      } else {
        assert Filter(s, p) == Filter(rest, p);
      }
    }
  }

  ghost function Fitting(b: Book, line: StatementLine, candidates: seq<Item>): seq<Item> {
    Filter(candidates, (it: Item) => Fits(b, line, it))
  }

  /** The three narrowings, one after the other, leave the items that fit. */
  lemma {:induction false} PayingIsFitting(b: Book, line: StatementLine, candidates: seq<Item>)
    requires line.amount.Some? && Currency(line.currency) != ""
    ensures Paying(b, line, candidates) == Map(Fitting(b, line, candidates), (it: Item) => Quote(it, ReferenceOf(b, it)))
  {
    var quoting := (it: Item) => Quotes(ReferenceOf(b, it), line);
    var f := (it: Item) => Quote(it, ReferenceOf(b, it));
    var amount := (q: Quote) => Abs(q.item.line.amount) == Abs(line.amount.value);
    var currency := (q: Quote) => Currency(q.item.line.currency) == Currency(line.currency);
    var amountOf := (it: Item) => amount(f(it));
    var currencyOf := (it: Item) => currency(f(it));
    var two := (it: Item) => quoting(it) && amountOf(it);
    FilterMap(Filter(candidates, quoting), f, amount, amountOf);
    FilterTwice(candidates, quoting, amountOf, two);
    FilterMap(Filter(candidates, two), f, currency, currencyOf);
    FilterTwice(candidates, two, currencyOf, (it: Item) => Fits(b, line, it));
  }

  lemma {:induction false} FittingMember(b: Book, line: StatementLine, candidates: seq<Item>)
    ensures forall it :: it in Fitting(b, line, candidates) <==> it in candidates && Fits(b, line, it)
  {
    FilterMembers(candidates, (it: Item) => Fits(b, line, it));
  }

  ghost predicate FitsFor(b: Book, line: StatementLine, candidates: seq<Item>, p: Party) {
    exists i :: 0 <= i < |candidates| && Fits(b, line, candidates[i]) && PartyOf(candidates[i]) == p
  }

  lemma {:induction false} PartiesMember(b: Book, line: StatementLine, candidates: seq<Item>, p: Party)
    requires line.amount.Some? && Currency(line.currency) != ""
    ensures p in Parties(Paying(b, line, candidates)) <==> FitsFor(b, line, candidates, p)
  {
    hide ReferenceOf, Filter;
    var fits, paying := Fitting(b, line, candidates), Paying(b, line, candidates);
    PayingIsFitting(b, line, candidates);
    FittingMember(b, line, candidates);
    if p in Parties(paying) {
      var k :| 0 <= k < |paying| && PartyOf(paying[k].item) == p;
      assert fits[k] in fits;
      var i :| 0 <= i < |candidates| && candidates[i] == fits[k];
    }
    if FitsFor(b, line, candidates, p) {
      var i :| 0 <= i < |candidates| && Fits(b, line, candidates[i]) && PartyOf(candidates[i]) == p;
      assert candidates[i] in fits;
      var k :| 0 <= k < |fits| && fits[k] == candidates[i];
      assert paying[k].item == candidates[i] && paying[k] in paying;
    }
  }

  lemma {:induction false} MoreThanOne<T>(s: set<T>)
    ensures |s| > 1 <==> exists p, q :: p in s && q in s && p != q
  {
    if |s| > 1 {
      var p :| p in s;
      assert |s - {p}| > 0;
      var q :| q in s - {p};
    }
    forall p, q | p in s && q in s && p != q ensures |s| > 1 {
      SubsetSize({p, q}, s);
    }
  }

  lemma {:induction false} PartiesOfFitting(b: Book, line: StatementLine, candidates: seq<Item>)
    requires line.amount.Some? && Currency(line.currency) != ""
    ensures |Parties(Paying(b, line, candidates))| > 1 <==> !OneParty(b, line, candidates)
  {
    var parties := Parties(Paying(b, line, candidates));
    MoreThanOne(parties);
    if !OneParty(b, line, candidates) {
      var i, j :| 0 <= i < |candidates| && 0 <= j < |candidates|
        && Fits(b, line, candidates[i]) && Fits(b, line, candidates[j])
        && PartyOf(candidates[i]) != PartyOf(candidates[j]);
      PartiesMember(b, line, candidates, PartyOf(candidates[i]));
      PartiesMember(b, line, candidates, PartyOf(candidates[j]));
    } else if p, q :| p in parties && q in parties && p != q {
      PartiesMember(b, line, candidates, p);
      PartiesMember(b, line, candidates, q);
    }
  }

  lemma {:induction false} SubsetSize<T>(s: set<T>, t: set<T>)
    requires s <= t
    ensures |s| <= |t|
  {
    if s != {} {
      var x :| x in s;
      SubsetSize(s - {x}, t - {x});
    }
  }

  /** A line is answered just when some item fits it and either all that fit are one party's
      or exactly one of them carries a payment run's claim; that claimed item is then the answer. */
  lemma {:induction false} MatchAnswers(b: Book, line: StatementLine, candidates: seq<Item>)
    ensures var m := Match(b, line, candidates);
      && (m.Found? <==> Fitting(b, line, candidates) != []
                        && (OneParty(b, line, candidates) || |FittingClaims(b, line, candidates)| == 1))
      && (m.Found? ==> m.item in candidates && Fits(b, line, m.item) && m.reference == ReferenceOf(b, m.item))
      && (m.Found? && !OneParty(b, line, candidates) ==> [m.item] == FittingClaims(b, line, candidates))
  {
    FittingMember(b, line, candidates);
    if line.amount.Some? && Currency(line.currency) != "" {
      var fits, paying := Fitting(b, line, candidates), Paying(b, line, candidates);
      PayingIsFitting(b, line, candidates);
      PartiesOfFitting(b, line, candidates);
      ClaimedIsFitting(b, line, candidates);
      assert |paying| == |fits|;
      if fits != [] {
        QuotedIfFits(b, line, candidates, fits[0]);
        assert fits[0] in fits;
      }
      assert OneParty(b, line, candidates) || fits != [];
    } else {
      FilterNone(candidates, (it: Item) => Fits(b, line, it));
    }
  }

  lemma {:induction false} ClaimedIsFitting(b: Book, line: StatementLine, candidates: seq<Item>)
    requires line.amount.Some? && Currency(line.currency) != ""
    ensures ClaimedOf(Paying(b, line, candidates))
         == Map(FittingClaims(b, line, candidates), (it: Item) => Quote(it, ReferenceOf(b, it)))
    ensures forall it :: it in FittingClaims(b, line, candidates) ==> it in Fitting(b, line, candidates)
  {
    var f := (it: Item) => Quote(it, ReferenceOf(b, it));
    var fit := (it: Item) => Fits(b, line, it);
    var claimOf := (it: Item) => Claimed(it);
    PayingIsFitting(b, line, candidates);
    FilterMap(Fitting(b, line, candidates), f, (q: Quote) => Claimed(q.item), claimOf);
    FilterTwice(candidates, fit, claimOf, (it: Item) => Fits(b, line, it) && Claimed(it));
    FilterMembers(candidates, (it: Item) => Fits(b, line, it) && Claimed(it));
    FittingMember(b, line, candidates);
  }

  lemma {:induction false} QuotedIfFits(b: Book, line: StatementLine, candidates: seq<Item>, it: Item)
    requires it in Fitting(b, line, candidates)
    ensures QuotedBy(b, line, candidates) != []
  {
    FilterMembers(candidates, (i: Item) => Fits(b, line, i));
    FilterMembers(candidates, (i: Item) => Quotes(ReferenceOf(b, i), line));
  }

  /** The party a line pays does not depend on the order the candidates are read in, and
      neither does whether it is answered; where a claim decides, neither does the item. */
  lemma {:induction false} PartyIsDetermined(b: Book, line: StatementLine, candidates: seq<Item>, reordered: seq<Item>)
    requires multiset(candidates) == multiset(reordered)
    ensures var m, n := Match(b, line, candidates), Match(b, line, reordered);
      && m.Found? == n.Found?
      && (m.Found? ==> PartyOf(m.item) == PartyOf(n.item))
      && (m.Found? && !OneParty(b, line, candidates) ==> m.item == n.item)
  {
    MatchAnswers(b, line, candidates);
    MatchAnswers(b, line, reordered);
    SameMembers(candidates, reordered);
    SameFilter(candidates, reordered, (it: Item) => Fits(b, line, it));
    SameFilter(candidates, reordered, (it: Item) => Fits(b, line, it) && Claimed(it));
    OnePartyAnyOrder(b, line, candidates, reordered);
    var m, n := Match(b, line, candidates), Match(b, line, reordered);
    if m.Found? {
      if OneParty(b, line, candidates) {
        SameParty(b, line, candidates, m.item, n.item);
      } else {
        SingletonMultiset(FittingClaims(b, line, candidates), FittingClaims(b, line, reordered));
      }
    }
  }

  lemma {:induction false} SameParty(b: Book, line: StatementLine, candidates: seq<Item>, x: Item, y: Item)
    requires OneParty(b, line, candidates) && x in candidates && y in candidates
    requires Fits(b, line, x) && Fits(b, line, y)
    ensures PartyOf(x) == PartyOf(y)
  {
  }

  lemma {:induction false} SingletonMultiset<T>(s: seq<T>, t: seq<T>)
    requires |s| == 1 && multiset(s) == multiset(t)
    ensures s == t
  {
    SameMembers(s, t);
    assert s[0] in t;
  }

  lemma {:induction false} SameMembers<T>(s: seq<T>, t: seq<T>)
    requires multiset(s) == multiset(t)
    ensures |s| == |t| && forall x :: x in s <==> x in t
  {
    assert |multiset(s)| == |s| && |multiset(t)| == |t|;
    forall x ensures x in s <==> x in t {
      assert x in s <==> x in multiset(s);
      assert x in t <==> x in multiset(t);
    }
  }

  lemma {:induction false} SameFilter<T>(s: seq<T>, t: seq<T>, p: T -> bool)
    requires multiset(s) == multiset(t)
    ensures multiset(Filter(s, p)) == multiset(Filter(t, p)) && |Filter(s, p)| == |Filter(t, p)|
    decreases |s|
  {
    SameMembers(s, t);
    if |s| > 0 {
      var rest, x := s[..|s| - 1], s[|s| - 1];
      assert x in s;
      var i :| 0 <= i < |t| && t[i] == x;
      var u, v := t[..i], t[i + 1..];
      assert s == rest + [x];
      assert t == (u + [x]) + v;
      assert multiset(rest) == multiset(s) - multiset{x};
      assert multiset(u + v) == multiset(t) - multiset{x};
      SameFilter(rest, u + v, p);
      FilterAppend(u, v, p);
      FilterAppend(u + [x], v, p);
      FilterSnoc(u, x, p);
    }
    SameMembers(Filter(s, p), Filter(t, p));
  }

  lemma {:induction false} OnePartyAnyOrder(b: Book, line: StatementLine, s: seq<Item>, t: seq<Item>)
    requires forall x :: x in s <==> x in t
    ensures OneParty(b, line, s) <==> OneParty(b, line, t)
  {
    if OneParty(b, line, s) {
      forall i, j | 0 <= i < |t| && 0 <= j < |t| && Fits(b, line, t[i]) && Fits(b, line, t[j])
        ensures PartyOf(t[i]) == PartyOf(t[j])
      {
        SameParty(b, line, s, t[i], t[j]);
      }
    } else if OneParty(b, line, t) {
      forall i, j | 0 <= i < |s| && 0 <= j < |s| && Fits(b, line, s[i]) && Fits(b, line, s[j])
        ensures PartyOf(s[i]) == PartyOf(s[j])
      {
        SameParty(b, line, t, s[i], s[j]);
      }
    }
  }

  // ----- what a receipt and its return rest on -----

  /** No way of paying is negative, and an item's two ways differ in their discount. */
  lemma {:induction false} WaysAreSound(quoted: seq<Quote>, paidOn: Date)
    ensures NothingNegative(WaysOfPaying(quoted, paidOn))
    ensures WaysTellApart(WaysOfPaying(quoted, paidOn))
  {
    var ways: seq<seq<Way>> := WaysOfPaying(quoted, paidOn);
    forall i: int, k: int | 0 <= i < |ways| && 0 <= k < |ways[i]| ensures ways[i][k].paid >= 0 {
      var it := quoted[i].item;
      if it.line.baseline.Some? {
        DiscountFits(it.line.terms, it.line.baseline.value, paidOn, Abs(it.line.amount));
      }
    }
  }

  lemma {:induction false} QuotedMembers(b: Book, line: StatementLine, candidates: seq<Item>)
    ensures forall q :: q in QuotedBy(b, line, candidates)
              ==> q.item in candidates && q.reference == ReferenceOf(b, q.item) && Quotes(q.reference, line)
    ensures KeysUnique(candidates) ==> QuotesUnique(QuotedBy(b, line, candidates))
  {
    var quoting := (it: Item) => Quotes(ReferenceOf(b, it), line);
    FilterMembers(candidates, quoting);
    var quoted := QuotedBy(b, line, candidates);
    forall q | q in quoted
      ensures q.item in candidates && q.reference == ReferenceOf(b, q.item) && Quotes(q.reference, line)
    {
      var k :| 0 <= k < |quoted| && quoted[k] == q;
      assert q.item == Filter(candidates, quoting)[k];
    }
    if KeysUnique(candidates) {
      FilterKeysUnique(candidates, quoting);
    }
  }

  ghost predicate QuotesUnique(quoted: seq<Quote>) {
    forall i, j :: 0 <= i < j < |quoted| ==> quoted[i].item.key != quoted[j].item.key
  }

  lemma {:induction false} FilterQuotesUnique(quoted: seq<Quote>, p: Quote -> bool)
    requires QuotesUnique(quoted)
    ensures QuotesUnique(Filter(quoted, p))
  {
    if |quoted| > 0 {
      var rest, last := quoted[..|quoted| - 1], quoted[|quoted| - 1];
      FilterQuotesUnique(rest, p);
      FilterMembers(rest, p);
      forall q | q in Filter(rest, p) ensures q.item.key != last.item.key {
        var i :| 0 <= i < |rest| && rest[i] == q;
        assert quoted[i] == q;
      }
    }
  }
}
