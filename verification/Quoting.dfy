/** What an answered line says: the reference it answers with is the one it states, or stands in its
    note, and is the number the other party's document has in the tables. */
module Quoting {
  import opened Common
  import opened Text
  import opened Terms
  import opened Search
  import opened Books
  import opened Matching
  import opened Statements
  import opened Grouping
  import opened Returning
  import opened Answers

  /** A stated reference is the whole answer; without one the note has it somewhere, as it is or with
      its spaces taken out. */
  ghost predicate Says(line: StatementLine, reference: string) {
    && reference != ""
    && if Strip(line.reference) != "" then reference == Strip(line.reference)
       else || (exists x: string, y: string :: line.note == x + reference + y)
            || (exists x: string, y: string :: Tight(line.note) == x + Tight(reference) + y)
  }

  /** The invoice of row `k` is the first that posted the item's document. */
  ghost predicate InvoicedIn(b: Book, it: Item, k: nat) {
    && k < |b.invoices|
    && b.invoices[k].bill.doc == Some(it.key.doc) && b.invoices[k].bill.company == it.key.company
    && b.invoices[k].bill.year == it.key.year
    && forall j :: 0 <= j < k ==> !(b.invoices[j].bill.doc == Some(it.key.doc)
                                    && b.invoices[j].bill.company == it.key.company && b.invoices[j].bill.year == it.key.year)
  }

  /** The billing of row `k` is the first that names the item's document. */
  ghost predicate BilledIn(b: Book, it: Item, k: nat) {
    && k < |b.billings| && b.billings[k].doc == Some(it.key.doc)
    && forall j :: 0 <= j < k ==> b.billings[j].doc != Some(it.key.doc)
  }

  /** The number the other party knows the item by: our billing document's for what a customer owes,
      the supplier's own for what we owe. */
  ghost predicate KnownAs(b: Book, it: Item, reference: string) {
    if it.line.side == CustomerLine then exists k: nat :: BilledIn(b, it, k) && b.billings[k].number == reference
    else exists k: nat :: InvoicedIn(b, it, k) && b.invoices[k].bill.reference == reference
  }

  lemma {:induction false} BilledAsIs(billings: seq<Billing>, doc: nat) returns (k: nat)
    requires BilledAs(billings, doc) != ""
    ensures k < |billings| && billings[k].doc == Some(doc) && billings[k].number == BilledAs(billings, doc)
    ensures forall j :: 0 <= j < k ==> billings[j].doc != Some(doc)
  {
    if billings[0].doc == Some(doc) {
      k := 0;
    } else {
      k := BilledAsIs(billings[1..], doc);
      k := k + 1;
    }
  }

  lemma {:induction false} BilledFirst(billings: seq<Billing>, doc: nat, k: nat)
    requires k < |billings| && billings[k].doc == Some(doc)
    requires forall j :: 0 <= j < k ==> billings[j].doc != Some(doc)
    ensures BilledAs(billings, doc) == billings[k].number
  {
    if k > 0 {
      assert billings[0].doc != Some(doc);
      BilledFirst(billings[1..], doc, k - 1);
    }
  }

  lemma {:induction false} InvoicedAsIs(invoices: seq<Invoice>, key: Key) returns (k: nat)
    requires InvoicedAs(invoices, key) != ""
    ensures k < |invoices| && BillOf(invoices[k].bill, key) && invoices[k].bill.reference == InvoicedAs(invoices, key)
    ensures forall j :: 0 <= j < k ==> !BillOf(invoices[j].bill, key)
  {
    if BillOf(invoices[0].bill, key) {
      k := 0;
    } else {
      k := InvoicedAsIs(invoices[1..], key);
      k := k + 1;
    }
  }

  lemma {:induction false} InvoicedFirst(invoices: seq<Invoice>, key: Key, k: nat)
    requires k < |invoices| && BillOf(invoices[k].bill, key)
    requires forall j :: 0 <= j < k ==> !BillOf(invoices[j].bill, key)
    ensures InvoicedAs(invoices, key) == invoices[k].bill.reference
  {
    if k > 0 {
      assert !BillOf(invoices[0].bill, key);
      InvoicedFirst(invoices[1..], key, k - 1);
    }
  }

  lemma {:induction false} ReferenceKnown(b: Book, it: Item, reference: string)
    requires reference != ""
    ensures ReferenceOf(b, it) == reference <==> KnownAs(b, it, reference)
  {
    if ReferenceOf(b, it) == reference {
      if it.line.side == CustomerLine {
        var k := BilledAsIs(b.billings, it.key.doc);
        assert BilledIn(b, it, k);
      } else {
        var k := InvoicedAsIs(b.invoices, it.key);
        assert InvoicedIn(b, it, k);
      }
    }
    if KnownAs(b, it, reference) {
      if it.line.side == CustomerLine {
        var k: nat :| BilledIn(b, it, k) && b.billings[k].number == reference;
        BilledFirst(b.billings, it.key.doc, k);
      } else {
        var k: nat :| InvoicedIn(b, it, k) && b.invoices[k].bill.reference == reference;
        InvoicedFirst(b.invoices, it.key, k);
      }
    }
  }

  lemma {:induction false} QuotesSays(reference: string, line: StatementLine)
    ensures Quotes(reference, line) <==> Says(line, reference)
  {
    hide Contains, Strip, Tight;
    ContainsMeans(line.note, reference);
    ContainsMeans(Tight(line.note), Tight(reference));
  }

  /** The line names the item by `reference`, and is in the item's currency. */
  ghost predicate NamesItem(b: Book, line: StatementLine, it: Item, reference: string) {
    && Says(line, reference) && KnownAs(b, it, reference)
    && Upper(Strip(line.currency)) != "" && Upper(Strip(it.line.currency)) == Upper(Strip(line.currency))
  }

  /** It names it, and is for its amount. */
  ghost predicate Pays(b: Book, line: StatementLine, it: Item, reference: string) {
    NamesItem(b, line, it, reference) && line.amount.Some? && Abs(it.line.amount) == Abs(line.amount.value)
  }

  lemma {:induction false} FitsPays(b: Book, line: StatementLine, it: Item)
    ensures Fits(b, line, it) <==> Pays(b, line, it, ReferenceOf(b, it))
  {
    hide ReferenceOf, Quotes, Says, KnownAs;
    QuotesSays(ReferenceOf(b, it), line);
    if ReferenceOf(b, it) != "" {
      ReferenceKnown(b, it, ReferenceOf(b, it));
    } else {
      SaysSomething(line);
    }
  }

  lemma {:induction false} SaysSomething(line: StatementLine)
    ensures !Says(line, "") && !Quotes("", line)
  {
  }

  /** The name an item is paid under is the one it is known as. */
  lemma {:induction false} PaysKnown(b: Book, line: StatementLine, it: Item, reference: string)
    requires Pays(b, line, it, reference)
    ensures ReferenceOf(b, it) == reference && Fits(b, line, it)
  {
    hide ReferenceOf, Quotes, KnownAs;
    ReferenceKnown(b, it, reference);
    FitsPays(b, line, it);
  }

  /** A payment, or its return, is answered with an item of its amount that the line names by the
      answer's reference. */
  lemma {:induction false} MatchSays(b: Book, line: StatementLine, candidates: seq<Item>)
    requires Match(b, line, candidates).Found?
    ensures var m := Match(b, line, candidates); m.item in candidates && Pays(b, line, m.item, m.reference)
  {
    hide Match, Pays, ReferenceOf;
    MatchAnswers(b, line, candidates);
    FitsPays(b, line, Match(b, line, candidates).item);
  }

  /** And is answered wherever an item is paid and every other that is belongs to the same party; a
      sole candidate is then the answer. */
  lemma {:induction false} MatchFinds(b: Book, line: StatementLine, candidates: seq<Item>, it: Item, reference: string)
    requires it in candidates && Pays(b, line, it, reference)
    requires forall other, r :: other in candidates && Pays(b, line, other, r) ==> OfOneParty(it, other)
    ensures var m := Match(b, line, candidates);
      m.Found? && OfOneParty(it, m.item) && (candidates == [it] ==> m == Found(it, reference))
  {
    hide Match, Pays, ReferenceOf, Fits;
    MatchAnswers(b, line, candidates);
    FittingMember(b, line, candidates);
    PaysKnown(b, line, it, reference);
    forall i | 0 <= i < |candidates| && Fits(b, line, candidates[i]) ensures OfOneParty(it, candidates[i]) {
      FitsPays(b, line, candidates[i]);
    }
    PartiesAgree(b, line, candidates, it);
    var m := Match(b, line, candidates);
    if m.Found? {
      FitsPays(b, line, m.item);
    }
  }

  /** On one side, and of one customer or supplier there. */
  predicate OfOneParty(x: Item, y: Item) {
    && (x.line.side == CustomerLine <==> y.line.side == CustomerLine)
    && (if x.line.side == CustomerLine then x.line.customer == y.line.customer else x.line.supplier == y.line.supplier)
  }

  lemma {:induction false} PartiesAgree(b: Book, line: StatementLine, candidates: seq<Item>, it: Item)
    requires forall i :: 0 <= i < |candidates| && Fits(b, line, candidates[i]) ==> OfOneParty(it, candidates[i])
    ensures OneParty(b, line, candidates)
  {
    hide Fits;
  }

  /** Candidate `i` is paid by the line and in a payment run. */
  ghost predicate PaidInRun(b: Book, line: StatementLine, candidates: seq<Item>, i: nat)
    requires i < |candidates|
  {
    Strip(candidates[i].claim.run) != "" && exists r: string :: Pays(b, line, candidates[i], r)
  }

  ghost predicate OnlyInRun(b: Book, line: StatementLine, candidates: seq<Item>, i: nat)
    requires i < |candidates|
  {
    PaidInRun(b, line, candidates, i)
    && forall j: nat :: j < |candidates| && j != i ==> !PaidInRun(b, line, candidates, j)
  }

  lemma {:induction false} TwoParties(b: Book, line: StatementLine, candidates: seq<Item>, x: Item, y: Item)
    requires x in candidates && y in candidates && Fits(b, line, x) && Fits(b, line, y) && PartyOf(x) != PartyOf(y)
    ensures !OneParty(b, line, candidates)
  {
    hide Fits, PartyOf;
  }

  lemma {:induction false} FilterOne<T>(s: seq<T>, p: T -> bool, i: nat)
    requires i < |s| && p(s[i]) && forall j :: 0 <= j < |s| && j != i ==> !p(s[j])
    ensures Filter(s, p) == [s[i]]
  {
    var n := |s| - 1;
    if i == n {
      assert forall x :: x in s[..n] ==> !p(x);
      FilterNone(s[..n], p);
    } else {
      FilterOne(s[..n], p, i);
    }
  }

  lemma {:induction false} InRunIsClaimed(b: Book, line: StatementLine, candidates: seq<Item>, i: nat)
    requires i < |candidates|
    ensures PaidInRun(b, line, candidates, i) <==> Fits(b, line, candidates[i]) && Claimed(candidates[i])
  {
    hide Pays, Fits;
    FitsPays(b, line, candidates[i]);
    if r: string :| Pays(b, line, candidates[i], r) {
      PaysKnown(b, line, candidates[i], r);
    }
  }

  /** Where the line pays items of different parties it is answered by the one of them in a payment
      run, if there is exactly one, and refused otherwise. */
  lemma {:induction false} MatchTies(b: Book, line: StatementLine, candidates: seq<Item>, x: Item, y: Item, r: string, s: string)
    requires x in candidates && Pays(b, line, x, r) && y in candidates && Pays(b, line, y, s) && PartyOf(x) != PartyOf(y)
    ensures Match(b, line, candidates).Found?
       ==> exists i: nat :: i < |candidates| && PaidInRun(b, line, candidates, i) && candidates[i] == Match(b, line, candidates).item
    ensures forall i: nat :: i < |candidates| && OnlyInRun(b, line, candidates, i)
              ==> Match(b, line, candidates).Found? && Match(b, line, candidates).item == candidates[i]
    ensures forall i: nat, j: nat :: i < j < |candidates| && PaidInRun(b, line, candidates, i) && PaidInRun(b, line, candidates, j)
              ==> Match(b, line, candidates).Refused?
  {
    hide Match, Pays, Fits, PaidInRun, Claimed, Filter;
    var claims := (it: Item) => Fits(b, line, it) && Claimed(it);
    var m := Match(b, line, candidates);
    MatchAnswers(b, line, candidates);
    PaysKnown(b, line, x, r);
    PaysKnown(b, line, y, s);
    forall i: nat | i < |candidates| ensures PaidInRun(b, line, candidates, i) <==> claims(candidates[i]) {
      InRunIsClaimed(b, line, candidates, i);
    }
    FilterMembers(candidates, claims);
    if m.Found? {
      assert m.item in FittingClaims(b, line, candidates);
    }
    TwoParties(b, line, candidates, x, y);
    FittingMember(b, line, candidates);
    forall i: nat | i < |candidates| && OnlyInRun(b, line, candidates, i) ensures m.Found? && m.item == candidates[i] {
      forall j | 0 <= j < |candidates| && j != i ensures !claims(candidates[j]) {
        assert !PaidInRun(b, line, candidates, j);
      }
      FilterOne(candidates, claims, i);
      assert FittingClaims(b, line, candidates) == [candidates[i]];
      assert m.Found?;
      assert [m.item][0] == m.item;
    }
    forall i: nat, j: nat | i < j < |candidates| && PaidInRun(b, line, candidates, i) && PaidInRun(b, line, candidates, j)
      ensures m.Refused?
    {
      FilterTwo(candidates, claims, i, j);
    }
  }

  lemma {:induction false} FilterTwo<T>(s: seq<T>, p: T -> bool, i: nat, j: nat)
    requires i < j < |s| && p(s[i]) && p(s[j])
    ensures |Filter(s, p)| >= 2
  {
    var n := |s| - 1;
    if j < n {
      FilterTwo(s[..n], p, i, j);
    } else {
      FilterMember(s[..n], p, s[i]);
      assert s[i] == s[..n][i];
    }
  }

  // ----- receipts, and receipts going back -----

  /** Every item an answered receipt takes is a candidate the line names by that item's reference. */
  lemma {:induction false} ReceiptSays(b: Book, line: StatementLine, candidates: seq<Item>, posting: Date, t: Taken<Quote>)
    requires MatchReceipt(b, line, candidates, posting).Settles? && KeysUnique(candidates)
    requires t in MatchReceipt(b, line, candidates, posting).taken
    ensures t.what.item in candidates && NamesItem(b, line, t.what.item, t.what.reference)
  {
    hide MatchReceipt, ReferenceOf, Quotes, Says, KnownAs, DiscountOffered;
    ReceiptTakes(b, line, candidates, posting);
    var taken := MatchReceipt(b, line, candidates, posting).taken;
    var i :| 0 <= i < |taken| && taken[i] == t;
    assert TakesCandidate(b, line, candidates, posting, taken[i]);
    QuotesSays(t.what.reference, line);
    SaysSomething(line);
    ReferenceKnown(b, t.what.item, t.what.reference);
  }

  lemma {:induction false} RefundSays(b: Book, line: StatementLine, candidates: seq<Item>, q: Quote)
    requires MatchReturnedReceipt(b, line, candidates).Reopens? && KeysUnique(candidates)
    requires q in MatchReturnedReceipt(b, line, candidates).items
    ensures q.item in candidates && NamesItem(b, line, q.item, q.reference)
  {
    hide MatchReturnedReceipt, ReferenceOf, Quotes, Says, KnownAs, PaidNet;
    RefundTakes(b, line, candidates);
    var items := MatchReturnedReceipt(b, line, candidates).items;
    var i :| 0 <= i < |items| && items[i] == q;
    assert ReturnsCandidate(b, line, candidates, items[i]);
    QuotesSays(q.reference, line);
    SaysSomething(line);
    ReferenceKnown(b, q.item, q.reference);
  }

  /** The candidates a receipt, or its return, is searched over are exactly those the line names. */
  lemma {:induction false} SearchedAreNamed(b: Book, line: StatementLine, candidates: seq<Item>, it: Item)
    requires Upper(Strip(line.currency)) != ""
    ensures (exists reference :: it in candidates && NamesItem(b, line, it, reference))
       <==> Quote(it, ReferenceOf(b, it)) in SameQuoted(b, line, candidates)
  {
    hide ReferenceOf, Quotes, Says, KnownAs, Upper, Strip, Filter;
    var reference := ReferenceOf(b, it);
    QuotesSays(reference, line);
    SaysSomething(line);
    QuotedMember(b, line, candidates, it);
    forall r | it in candidates && NamesItem(b, line, it, r) ensures r == reference {
      SaysSomething(line);
      ReferenceKnown(b, it, r);
    }
    if reference != "" {
      ReferenceKnown(b, it, reference);
    }
    assert NamesItem(b, line, it, reference)
      <==> (reference != "" && Quotes(reference, line) && Upper(Strip(it.line.currency)) == Upper(Strip(line.currency)));
  }

  lemma {:induction false} QuotedMember(b: Book, line: StatementLine, candidates: seq<Item>, it: Item)
    ensures var q := Quote(it, ReferenceOf(b, it));
      q in SameQuoted(b, line, candidates)
      <==> it in candidates && Quotes(q.reference, line) && Upper(Strip(it.line.currency)) == Upper(Strip(line.currency))
  {
    hide ReferenceOf, Quotes, Upper, Strip;
    var quoting := (it: Item) => Quotes(ReferenceOf(b, it), line);
    var q := Quote(it, ReferenceOf(b, it));
    FilterMembers(QuotedBy(b, line, candidates), (q: Quote) => Currency(q.item.line.currency) == Currency(line.currency));
    FilterMembers(candidates, quoting);
    var named := Filter(candidates, quoting);
    var quoted := QuotedBy(b, line, candidates);
    assert |quoted| == |named| && forall i :: 0 <= i < |named| ==> quoted[i] == Quote(named[i], ReferenceOf(b, named[i]));
    if it in named {
      var i :| 0 <= i < |named| && named[i] == it;
      assert quoted[i] == q;
    }
    if q in quoted {
      var i :| 0 <= i < |quoted| && quoted[i] == q;
      assert named[i] == it;
    }
  }

  // ----- over a whole statement -----

  ghost predicate EntrySays(b: Book, e: Entry, side: Side) {
    && e.what.item in b.items && e.what.item.line.side == side && e.what.item.clearing.Open?
    && NamesItem(b, e.what.line, e.what.item, e.what.reference)
  }

  /** Whatever a statement settles, its line names by the reference reported: a payment's line is for
      exactly its item's amount. */
  lemma {:induction false} StatementSays(b: Book, lines: seq<StatementLine>, posting: Date)
    requires Valid(b)
    ensures var r := ReadLines(b, lines, posting);
      && (forall e :: e in r.settling ==> EntrySays(b, e, SupplierLine)
                                          && Abs(e.what.item.line.amount) == AbsOf(e.what.line.amount))
      && (forall e :: e in r.receiving ==> EntrySays(b, e, CustomerLine))
  {
    hide ReadLines, EntrySays, Valid;
    var r := ReadLines(b, lines, posting);
    ReadLinesOk(b, lines, posting);
    forall e | e in r.settling ensures EntrySays(b, e, SupplierLine) && Abs(e.what.item.line.amount) == AbsOf(e.what.line.amount) {
      var i :| 0 <= i < |r.settling| && r.settling[i] == e;
      assert ReadsPayment(b, r.settling[i], lines);
      ReadSays(b, e, lines, SupplierLine);
    }
    forall e | e in r.receiving ensures EntrySays(b, e, CustomerLine) {
      var i :| 0 <= i < |r.receiving| && r.receiving[i] == e;
      assert ReadsReceipt(b, r.receiving[i], lines, posting);
      ReadSays(b, e, lines, CustomerLine);
    }
  }

  function AbsOf(amount: Option<int>): int {
    match amount case Some(a) => Abs(a) case None => 0
  }

  lemma {:induction false} ReadSays(b: Book, e: Entry, lines: seq<StatementLine>, side: Side)
    requires Reads(b, e, lines, side)
    ensures EntrySays(b, e, side)
  {
    hide ReferenceOf, Quotes, Says, KnownAs, Upper, Strip;
    QuotesSays(e.what.reference, e.what.line);
    SaysSomething(e.what.line);
    ReferenceKnown(b, e.what.item, e.what.reference);
  }
}
