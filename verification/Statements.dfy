/** Applying a bank statement: every line is read first, then payments and receipts are posted
    one document for each payee, then what came back is reversed. */
module Statements {
  import opened Common
  import opened Money
  import opened Text
  import opened Terms
  import opened Search
  import opened Books
  import opened Totals
  import opened Matching
  import opened Posting

  /** An item one line settles; `at` is the line's place in the statement. */
  datatype Entry = Entry(at: nat, what: Settling)

  datatype Noted = Noted(at: nat, line: StatementLine)

  datatype Refusal = Refusal(at: nat, line: StatementLine, reason: Reason)

  /** One row of what the outcome reports as cleared or reopened. */
  datatype Row = Row(at: nat, line: string, reference: string, item: Key, document: nat, amount: int)

  /** The lines read so far, in the four streams they are posted from. */
  datatype Reading = Reading(settling: seq<Entry>, receiving: seq<Entry>, returning: seq<Noted>,
                             refunding: seq<Noted>, unprocessed: seq<Refusal>, claimed: set<Key>)

  const NOTHING_READ := Reading([], [], [], [], [], {})

  // ----- reading -----

  function OpenItems(b: Book, side: Side): seq<Item> {
    Filter(b.items, (it: Item) => OpenOn(it, side))
  }

  function ClearedItems(b: Book, side: Side): seq<Item> {
    Filter(b.items, (it: Item) => it.line.side == side && it.clearing.Cleared?)
  }

  /** The open items no line above has spoken for. */
  function Candidates(b: Book, side: Side, claimed: set<Key>): seq<Item> {
    Filter(OpenItems(b, side), (it: Item) => it.key !in claimed)
  }

  function EntriesOf(at: nat, line: StatementLine, taken: seq<Taken<Quote>>): (r: seq<Entry>)
    ensures |r| == |taken|
  {
    Map(taken, (t: Taken<Quote>) => Entry(at, Settling(line, t.what.item, t.what.reference, t.discount)))
  }

  function KeysOf(entries: seq<Entry>): set<Key> {
    set e | e in entries :: e.what.item.key
  }

  function Refuse(r: Reading, at: nat, line: StatementLine, reason: Reason): Reading {
    r.(unprocessed := r.unprocessed + [Refusal(at, line, reason)])
  }

  function ReadPayment(b: Book, r: Reading, at: nat, line: StatementLine): Reading {
    match Match(b, line, Candidates(b, SupplierLine, r.claimed))
    case Refused(reason) => Refuse(r, at, line, reason)
    case Found(it, reference) =>
      r.(settling := r.settling + [Entry(at, Settling(line, it, reference, None))],
         claimed := r.claimed + {it.key})
  }

  function ReadReceipt(b: Book, r: Reading, at: nat, line: StatementLine, posting: Date): Reading {
    match MatchReceipt(b, line, Candidates(b, CustomerLine, r.claimed), posting)
    case Unsettled(reason) => Refuse(r, at, line, reason)
    case Settles(taken) =>
      var entries := EntriesOf(at, line, taken);
      r.(receiving := r.receiving + entries, claimed := r.claimed + KeysOf(entries))
  }

  predicate IsRefund(line: StatementLine) { IsDebit(line) && line.action == ComesBack }
  predicate IsPayment(line: StatementLine) { IsDebit(line) && line.action != ComesBack }
  predicate IsReturn(line: StatementLine) { IsCredit(line) && line.action == ComesBack }
  predicate IsReceipt(line: StatementLine) { IsCredit(line) && line.action == Arrives }

  function ReadLine(b: Book, r: Reading, at: nat, line: StatementLine, posting: Date): Reading {
    if IsRefund(line) then r.(refunding := r.refunding + [Noted(at, line)])
    else if IsPayment(line) then ReadPayment(b, r, at, line)
    else if IsReturn(line) then r.(returning := r.returning + [Noted(at, line)])
    else if IsReceipt(line) then ReadReceipt(b, r, at, line, posting)
    else Refuse(r, at, line, if IsCredit(line) then KindUnsaid else NoSide)
  }

  function ReadLines(b: Book, lines: seq<StatementLine>, posting: Date): Reading {
    if |lines| == 0 then NOTHING_READ
    else ReadLine(b, ReadLines(b, lines[..|lines| - 1], posting), |lines| - 1, lines[|lines| - 1], posting)
  }

  // ----- posting payments and receipts, a document for each payee -----

  /** What decides which document settles an item. */
  datatype Payee = Payee(party: Party, company: string, currency: string, alone: Option<nat>)

  function PayeeOf(it: Item): Payee {
    var party := PartyOf(it);
    Payee(party, it.key.company, Or(it.line.currency, "EUR"), if party == Nobody then Some(it.key.doc) else None)
  }

  /** The payees in the order a line first named them. */
  function Payees(entries: seq<Entry>): seq<Payee> {
    if |entries| == 0 then []
    else
      var before, payee := Payees(entries[..|entries| - 1]), PayeeOf(entries[|entries| - 1].what.item);
      if payee in before then before else before + [payee]
  }

  function GroupOf(entries: seq<Entry>, payee: Payee): seq<Entry> {
    Filter(entries, (e: Entry) => PayeeOf(e.what.item) == payee)
  }

  function Bare(entries: seq<Entry>): (r: seq<Settling>)
    ensures |r| == |entries|
  {
    Map(entries, (e: Entry) => e.what)
  }

  datatype Posted = Posted(book: Book, rows: seq<Row>)

  /** What a line's item brought: its amount, or for a receipt what was owed less the discount. */
  function ShareOf(side: Side, s: Settling): int {
    if side == SupplierLine then AmountOf(s.line) else Owed(s) - TakenOff(s)
  }

  function RowOf(side: Side, e: Entry, doc: nat): Row {
    Row(e.at, e.what.line.id, e.what.reference, e.what.item.key, doc, ShareOf(side, e.what))
  }

  function RowsOf(side: Side, group: seq<Entry>, doc: nat): (r: seq<Row>)
    ensures |r| == |group|
  {
    Map(group, (e: Entry) => RowOf(side, e, doc))
  }

  function PostGroup(b: Book, side: Side, group: seq<Settling>, posting: Date, statement: string): Book {
    if group == [] then b
    else if side == SupplierLine then Pay(b, group, posting, statement)
    else Collect(b, group, posting, statement)
  }

  function PostGroups(b: Book, side: Side, entries: seq<Entry>, payees: seq<Payee>, posting: Date,
                      statement: string): Posted
  {
    if |payees| == 0 then Posted(b, [])
    else
      var before := PostGroups(b, side, entries, payees[..|payees| - 1], posting, statement);
      var group := GroupOf(entries, payees[|payees| - 1]);
      Posted(PostGroup(before.book, side, Bare(group), posting, statement),
             before.rows + RowsOf(side, group, before.book.next))
  }

  function PostAll(b: Book, side: Side, entries: seq<Entry>, posting: Date, statement: string): Posted {
    PostGroups(b, side, entries, Payees(entries), posting, statement)
  }

  // ----- what came back -----

  datatype Returns = Returns(book: Book, rows: seq<Row>, refused: seq<Refusal>)

  function ReturnRow(n: Noted, it: Item, reference: string, doc: nat): Row {
    Row(n.at, n.line.id, reference, it.key, doc, Abs(it.line.amount))
  }

  function ReturnOne(r: Returns, n: Noted, posting: Date): Returns {
    match Match(r.book, n.line, ClearedItems(r.book, SupplierLine))
    case Refused(reason) => r.(refused := r.refused + [Refusal(n.at, n.line, reason)])
    case Found(it, reference) =>
      Returns(Reopen(r.book, it, n.line, posting), r.rows + [ReturnRow(n, it, reference, r.book.next)], r.refused)
  }

  function ReturnAll(b: Book, noted: seq<Noted>, posting: Date): Returns {
    if |noted| == 0 then Returns(b, [], [])
    else ReturnOne(ReturnAll(b, noted[..|noted| - 1], posting), noted[|noted| - 1], posting)
  }

  /** The items of one returned transfer, reopened one after the other. */
  function ReopenAll(b: Book, n: Noted, items: seq<Quote>, posting: Date): Posted {
    if |items| == 0 then Posted(b, [])
    else
      var before := ReopenAll(b, n, items[..|items| - 1], posting);
      var last := items[|items| - 1];
      Posted(Reopen(before.book, last.item, n.line, posting),
             before.rows + [ReturnRow(n, last.item, last.reference, before.book.next)])
  }

  function RefundOne(r: Returns, n: Noted, posting: Date): Returns {
    match MatchReturnedReceipt(r.book, n.line, ClearedItems(r.book, CustomerLine))
    case Stays(reason) => r.(refused := r.refused + [Refusal(n.at, n.line, reason)])
    case Reopens(items) =>
      var posted := ReopenAll(r.book, n, items, posting);
      Returns(posted.book, r.rows + posted.rows, r.refused)
  }

  function RefundAll(b: Book, noted: seq<Noted>, posting: Date): Returns {
    if |noted| == 0 then Returns(b, [], [])
    else RefundOne(RefundAll(b, noted[..|noted| - 1], posting), noted[|noted| - 1], posting)
  }

  // ----- the whole statement -----

  datatype Outcome = Outcome(book: Book, cleared: seq<Row>, reopened: seq<Row>, unprocessed: seq<Refusal>)

  /** Payments, then receipts, then returned payments, then returned receipts. Rows are listed
      in the order they were posted. */
  function Post4(b: Book, r: Reading, posting: Date, statement: string): Outcome {
    var paid := PostAll(b, SupplierLine, r.settling, posting, statement);
    var received := PostAll(paid.book, CustomerLine, r.receiving, posting, statement);
    var returned := ReturnAll(received.book, r.returning, posting);
    var refunded := RefundAll(returned.book, r.refunding, posting);
    Outcome(refunded.book, paid.rows + received.rows, returned.rows + refunded.rows,
            r.unprocessed + returned.refused + refunded.refused)
  }

  function Apply(b: Book, lines: seq<StatementLine>, posting: Date, statement: string): Outcome {
    Post4(b, ReadLines(b, lines, posting), posting, statement)
  }

  // ----- what reading establishes -----

  ghost predicate Reads(b: Book, e: Entry, lines: seq<StatementLine>, side: Side) {
    && e.at < |lines| && lines[e.at] == e.what.line
    && e.what.item in b.items && OpenOn(e.what.item, side)
    && Currency(e.what.line.currency) != ""
    && Currency(e.what.item.line.currency) == Currency(e.what.line.currency)
    && e.what.reference == ReferenceOf(b, e.what.item) && Quotes(e.what.reference, e.what.line)
  }

  ghost predicate ReadsPayment(b: Book, e: Entry, lines: seq<StatementLine>) {
    && Reads(b, e, lines, SupplierLine) && IsPayment(e.what.line)
    && Abs(e.what.item.line.amount) == AmountOf(e.what.line) && e.what.discount == None
  }

  ghost predicate ReadsReceipt(b: Book, e: Entry, lines: seq<StatementLine>, posting: Date) {
    && Reads(b, e, lines, CustomerLine) && IsReceipt(e.what.line)
    && (e.what.discount == None || e.what.discount == DiscountOffered(e.what.item, posting))
  }

  ghost predicate EntriesDiffer(entries: seq<Entry>) {
    forall i, j :: 0 <= i < j < |entries| ==> entries[i].what.item.key != entries[j].what.item.key
  }

  ghost predicate PaymentsOk(b: Book, entries: seq<Entry>, lines: seq<StatementLine>) {
    forall i :: 0 <= i < |entries| ==> ReadsPayment(b, entries[i], lines)
  }

  ghost predicate ReceiptsOk(b: Book, entries: seq<Entry>, lines: seq<StatementLine>, posting: Date) {
    forall i :: 0 <= i < |entries| ==> ReadsReceipt(b, entries[i], lines, posting)
  }

  ghost predicate NotedFrom(n: Noted, lines: seq<StatementLine>) {
    n.at < |lines| && lines[n.at] == n.line
  }

  ghost predicate ReturnsOk(noted: seq<Noted>, lines: seq<StatementLine>) {
    forall i :: 0 <= i < |noted| ==> NotedFrom(noted[i], lines) && IsReturn(noted[i].line)
  }

  ghost predicate RefundsOk(noted: seq<Noted>, lines: seq<StatementLine>) {
    forall i :: 0 <= i < |noted| ==> NotedFrom(noted[i], lines) && IsRefund(noted[i].line)
  }

  ghost predicate RefusalsOk(refused: seq<Refusal>, lines: seq<StatementLine>) {
    forall i :: 0 <= i < |refused| ==> refused[i].at < |lines| && lines[refused[i].at] == refused[i].line
  }

  ghost predicate ClaimsOk(r: Reading) {
    EntriesDiffer(r.settling) && EntriesDiffer(r.receiving)
    && r.claimed == KeysOf(r.settling) + KeysOf(r.receiving)
  }

  ghost predicate ReadingOk(b: Book, r: Reading, lines: seq<StatementLine>, posting: Date) {
    && PaymentsOk(b, r.settling, lines) && ReceiptsOk(b, r.receiving, lines, posting) && ClaimsOk(r)
    && ReturnsOk(r.returning, lines) && RefundsOk(r.refunding, lines) && RefusalsOk(r.unprocessed, lines)
  }

  lemma {:induction false} CandidatesAre(b: Book, side: Side, claimed: set<Key>)
    requires Valid(b)
    ensures forall it :: it in Candidates(b, side, claimed) <==> it in b.items && OpenOn(it, side) && it.key !in claimed
    ensures KeysUnique(Candidates(b, side, claimed))
  {
    var onSide := (it: Item) => OpenOn(it, side);
    var unclaimed := (it: Item) => it.key !in claimed;
    FilterMembers(b.items, onSide);
    FilterMembers(OpenItems(b, side), unclaimed);
    FilterKeysUnique(b.items, onSide);
    FilterKeysUnique(OpenItems(b, side), unclaimed);
  }

  /** Entries whose keys are new leave the keys different, and add theirs to the set. */
  lemma {:induction false} AddEntries(entries: seq<Entry>, more: seq<Entry>, claimed: set<Key>, mine: set<Key>)
    requires EntriesDiffer(entries) && EntriesDiffer(more) && mine == KeysOf(entries) && mine <= claimed
    requires forall i :: 0 <= i < |more| ==> more[i].what.item.key !in claimed
    ensures EntriesDiffer(entries + more) && KeysOf(entries + more) == mine + KeysOf(more)
  {
    var all := entries + more;
    forall i, j | 0 <= i < j < |all| ensures all[i].what.item.key != all[j].what.item.key {
      if i < |entries| <= j {
        assert all[i] in entries && all[i].what.item.key in mine;
        assert all[j] == more[j - |entries|];
      }
    }
    forall k ensures k in KeysOf(all) <==> k in mine + KeysOf(more) {
      assert forall e :: e in all <==> e in entries || e in more;
    }
  }

  lemma {:induction false} PaymentsGrow(b: Book, entries: seq<Entry>, more: seq<Entry>, lines: seq<StatementLine>, line: StatementLine)
    requires PaymentsOk(b, entries, lines) && PaymentsOk(b, more, lines + [line])
    ensures PaymentsOk(b, entries + more, lines + [line])
  {
    var all := entries + more;
    forall i | 0 <= i < |all| ensures ReadsPayment(b, all[i], lines + [line]) {
      if i < |entries| {
        assert ReadsPayment(b, entries[i], lines);
      } else {
        assert all[i] == more[i - |entries|];
      }
    }
  }

  lemma {:induction false} ReceiptsGrow(b: Book, entries: seq<Entry>, more: seq<Entry>, lines: seq<StatementLine>, line: StatementLine,
                                        posting: Date)
    requires ReceiptsOk(b, entries, lines, posting) && ReceiptsOk(b, more, lines + [line], posting)
    ensures ReceiptsOk(b, entries + more, lines + [line], posting)
  {
    var all := entries + more;
    forall i | 0 <= i < |all| ensures ReadsReceipt(b, all[i], lines + [line], posting) {
      if i < |entries| {
        assert ReadsReceipt(b, entries[i], lines, posting);
      } else {
        assert all[i] == more[i - |entries|];
      }
    }
  }

  /** Reading one more line keeps the other streams as they were. */
  lemma {:induction false} OtherStreams(b: Book, r: Reading, lines: seq<StatementLine>, line: StatementLine, posting: Date)
    requires ReadingOk(b, r, lines, posting)
    ensures ReadingOk(b, r, lines + [line], posting)
  {
    PaymentsGrow(b, r.settling, [], lines, line);
    ReceiptsGrow(b, r.receiving, [], lines, line, posting);
    assert r.settling + [] == r.settling && r.receiving + [] == r.receiving;
  }

  lemma {:induction false} ReadPaymentOk(b: Book, r: Reading, lines: seq<StatementLine>, line: StatementLine, posting: Date)
    requires Valid(b) && ReadingOk(b, r, lines, posting) && IsPayment(line)
    ensures ReadingOk(b, ReadPayment(b, r, |lines|, line), lines + [line], posting)
  {
    hide Match, Valid, Candidates, ReadsPayment, ReadsReceipt, NotedFrom, KeysOf, EntriesDiffer, IsReturn, IsRefund;
    var candidates := Candidates(b, SupplierLine, r.claimed);
    var m := Match(b, line, candidates);
    OtherStreams(b, r, lines, line, posting);
    if m.Found? {
      var e := Entry(|lines|, Settling(line, m.item, m.reference, None));
      FoundReads(b, r.claimed, e, lines, line);
      PaymentsGrow(b, r.settling, [e], lines, line);
      AddEntries(r.settling, [e], r.claimed, KeysOf(r.settling));
      OneKey(e);
    }
  }

  lemma {:induction false} FoundReads(b: Book, claimed: set<Key>, e: Entry, lines: seq<StatementLine>, line: StatementLine)
    requires Valid(b) && IsPayment(line) && e.at == |lines| && e.what.line == line && e.what.discount == None
    requires Match(b, line, Candidates(b, SupplierLine, claimed)) == Found(e.what.item, e.what.reference)
    ensures ReadsPayment(b, e, lines + [line]) && e.what.item.key !in claimed
  {
    hide Match, KeysUnique, ReferenceOf, Quotes, Candidates, OneParty;
    var candidates := Candidates(b, SupplierLine, claimed);
    MatchAnswers(b, line, candidates);
    CandidatesAre(b, SupplierLine, claimed);
  }

  lemma {:induction false} OneKey(e: Entry)
    ensures KeysOf([e]) == {e.what.item.key}
  {
    assert e in [e];
  }

  lemma {:induction false} ReadReceiptOk(b: Book, r: Reading, lines: seq<StatementLine>, line: StatementLine, posting: Date)
    requires Valid(b) && ReadingOk(b, r, lines, posting) && IsReceipt(line)
    ensures ReadingOk(b, ReadReceipt(b, r, |lines|, line, posting), lines + [line], posting)
  {
    hide MatchReceipt, Candidates, TakesCandidate, ReadsPayment, ReadsReceipt, NotedFrom, KeysOf, DiscountOffered,
         ReferenceOf, Quotes, TakenAmount;
    var candidates := Candidates(b, CustomerLine, r.claimed);
    var m := MatchReceipt(b, line, candidates, posting);
    CandidatesAre(b, CustomerLine, r.claimed);
    OtherStreams(b, r, lines, line, posting);
    if m.Settles? {
      ReceiptTakes(b, line, candidates, posting);
      var entries := EntriesOf(|lines|, line, m.taken);
      forall i | 0 <= i < |entries|
        ensures ReadsReceipt(b, entries[i], lines + [line], posting) && entries[i].what.item.key !in r.claimed
      {
        TakenReads(b, r.claimed, lines, line, posting, m.taken[i]);
      }
      ReceiptsGrow(b, r.receiving, entries, lines, line, posting);
      AddEntries(r.receiving, entries, r.claimed, KeysOf(r.receiving));
    }
  }

  lemma {:induction false} TakenReads(b: Book, claimed: set<Key>, lines: seq<StatementLine>, line: StatementLine, posting: Date,
                                      t: Taken<Quote>)
    requires Valid(b) && IsReceipt(line) && Currency(line.currency) != ""
    requires TakesCandidate(b, line, Candidates(b, CustomerLine, claimed), posting, t)
    ensures var e := Entry(|lines|, Settling(line, t.what.item, t.what.reference, t.discount));
      ReadsReceipt(b, e, lines + [line], posting) && t.what.item.key !in claimed
  {
    hide ReferenceOf, Quotes, Candidates, DiscountOffered, KeysUnique;
    CandidatesAre(b, CustomerLine, claimed);
  }

  /** Everything read is what the ledger and the statement say, and no item is taken twice. */
  lemma {:induction false} ReadLinesOk(b: Book, lines: seq<StatementLine>, posting: Date)
    requires Valid(b)
    ensures ReadingOk(b, ReadLines(b, lines, posting), lines, posting)
  {
    hide ReadReceipt, ReadsReceipt, ReadsPayment;
    if |lines| > 0 {
      var before, line := lines[..|lines| - 1], lines[|lines| - 1];
      var r := ReadLines(b, before, posting);
      ReadLinesOk(b, before, posting);
      assert before + [line] == lines;
      if IsPayment(line) {
        ReadPaymentOk(b, r, before, line, posting);
      } else if IsReceipt(line) {
        ReadReceiptOk(b, r, before, line, posting);
      } else {
        OtherStreams(b, r, before, line, posting);
      }
    }
  }

  /** What an answered receipt takes: quoted candidates, each once, whole or by its own discount,
      together worth exactly the line. */
  lemma {:induction false} ReceiptTakes(b: Book, line: StatementLine, candidates: seq<Item>, posting: Date)
    requires MatchReceipt(b, line, candidates, posting).Settles? && KeysUnique(candidates)
    ensures var taken := MatchReceipt(b, line, candidates, posting).taken;
      && line.amount.Some? && Currency(line.currency) != "" && taken != []
      && (forall i :: 0 <= i < |taken| ==> TakesCandidate(b, line, candidates, posting, taken[i]))
      && (forall i, j :: 0 <= i < j < |taken| ==> taken[i].what.item.key != taken[j].what.item.key)
      && Sum(taken, (t: Taken<Quote>) => TakenAmount(t)) == Abs(line.amount.value)
  {
    hide TakesFrom, MatchReceipt, InCurrency, QuotedBy, QuotesUnique, KeysUnique, Currency, ReadingsSummingTo, WaysOfPaying, DiscountOffered,
         TakenAmount;
    var same := InCurrency(QuotedBy(b, line, candidates), Currency(line.currency));
    var taken := MatchReceipt(b, line, candidates, posting).taken;
    SettlesWith(b, line, candidates, posting);
    SameCurrencyMembers(b, line, candidates);
    ReadingTakes(same, posting, Abs(line.amount.value), taken);
    TakesDiffer(same, posting, taken);
    forall i | 0 <= i < |taken| ensures TakesCandidate(b, line, candidates, posting, taken[i]) {
      TakesMember(same, posting, taken, i);
    }
  }

  lemma {:induction false} TakesMember(quoted: seq<Quote>, posting: Date, taken: seq<Taken<Quote>>, i: nat)
    requires TakesFrom(quoted, posting, 0, taken) && i < |taken|
    ensures taken[i].what in quoted && TakenFits(taken[i], posting)
  {
    hide TakenFits;
    assert QuotedFrom(quoted, 0, taken[i].what);
  }

  lemma {:induction false} TakesDiffer(quoted: seq<Quote>, posting: Date, taken: seq<Taken<Quote>>)
    requires TakesFrom(quoted, posting, 0, taken)
    ensures forall i, j :: 0 <= i < j < |taken| ==> taken[i].what.item.key != taken[j].what.item.key
  {
  }

  lemma {:induction false} SettlesWith(b: Book, line: StatementLine, candidates: seq<Item>, posting: Date)
    requires MatchReceipt(b, line, candidates, posting).Settles?
    ensures var same := InCurrency(QuotedBy(b, line, candidates), Currency(line.currency));
      && line.amount.Some? && Currency(line.currency) != ""
      && MatchReceipt(b, line, candidates, posting).taken
         in ReadingsSummingTo(same, WaysOfPaying(same, posting), Abs(line.amount.value))
  {
    var same := InCurrency(QuotedBy(b, line, candidates), Currency(line.currency));
    var readings := ReceiptReadings(same, line, posting);
    assert MatchReceipt(b, line, candidates, posting).taken == readings[0];
  }

  lemma {:induction false} SameCurrencyMembers(b: Book, line: StatementLine, candidates: seq<Item>)
    ensures var same := InCurrency(QuotedBy(b, line, candidates), Currency(line.currency));
      && (forall q :: q in same ==> q.item in candidates && q.reference == ReferenceOf(b, q.item) && Quotes(q.reference, line)
                                    && Currency(q.item.line.currency) == Currency(line.currency))
      && (KeysUnique(candidates) ==> QuotesUnique(same))
  {
    hide ReferenceOf, Quotes, Currency, QuotesUnique, KeysUnique, QuotedBy;
    var quoted := QuotedBy(b, line, candidates);
    var here := (q: Quote) => Currency(q.item.line.currency) == Currency(line.currency);
    QuotedMembers(b, line, candidates);
    FilterMembers(quoted, here);
    if KeysUnique(candidates) {
      FilterQuotesUnique(quoted, here);
    }
  }

  /** A reading the search found takes quoted items, each once, for what it comes to. */
  lemma {:induction false} ReadingTakes(same: seq<Quote>, posting: Date, wanted: int, taken: seq<Taken<Quote>>)
    requires QuotesUnique(same) && taken in ReadingsSummingTo(same, WaysOfPaying(same, posting), wanted)
    ensures TakesFrom(same, posting, 0, taken) && taken != []
    ensures Sum(taken, (t: Taken<Quote>) => TakenAmount(t)) == wanted
  {
    hide TakesFrom, QuotesUnique, TakenAmount, WaysOfPaying, ReadingsSummingTo, NothingNegative;
    var ways := WaysOfPaying(same, posting);
    WaysAreSound(same, posting);
    SearchIsExact(same, ways, wanted, taken);
    var c: seq<nat> :| ValidChoice(ways, c, 0) && Search.Reading(same, ways, c, 0) == taken && Search.Paid(ways, c, 0) == wanted;
    WaysOfPayingFit(same, posting);
    ChoiceTakes(same, ways, posting, c, 0);
    ChoicePays(same, ways, posting, c, 0);
  }

  ghost predicate TakesCandidate(b: Book, line: StatementLine, candidates: seq<Item>, posting: Date, t: Taken<Quote>) {
    && t.what.item in candidates && t.what.reference == ReferenceOf(b, t.what.item) && Quotes(t.what.reference, line)
    && Currency(t.what.item.line.currency) == Currency(line.currency)
    && (t.discount == None || t.discount == DiscountOffered(t.what.item, posting))
  }

  ghost function TakenAmount(t: Taken<Quote>): int {
    Abs(t.what.item.line.amount) - (match t.discount case Some(d) => d.available case None => 0)
  }

  ghost predicate QuotedFrom(quoted: seq<Quote>, index: nat, q: Quote) {
    exists k :: index <= k < |quoted| && q == quoted[k]
  }

  ghost predicate TakenFits(t: Taken<Quote>, posting: Date) {
    t.discount == None || t.discount == DiscountOffered(t.what.item, posting)
  }

  ghost predicate TakenApart(taken: seq<Taken<Quote>>) {
    forall i, j :: 0 <= i < j < |taken| ==> taken[i].what.item.key != taken[j].what.item.key
  }

  ghost predicate TakesFrom(quoted: seq<Quote>, posting: Date, index: nat, taken: seq<Taken<Quote>>) {
    && (forall i :: 0 <= i < |taken| ==> QuotedFrom(quoted, index, taken[i].what) && TakenFits(taken[i], posting))
    && TakenApart(taken)
  }

  lemma {:induction false} TakesOneMore(quoted: seq<Quote>, posting: Date, index: nat, head: Taken<Quote>, rest: seq<Taken<Quote>>)
    requires QuotesUnique(quoted) && index < |quoted| && TakesFrom(quoted, posting, index + 1, rest)
    requires head.what == quoted[index] && TakenFits(head, posting)
    ensures TakesFrom(quoted, posting, index, [head] + rest)
  {
    hide TakenFits;
    var taken := [head] + rest;
    forall i | 0 <= i < |taken| ensures QuotedFrom(quoted, index, taken[i].what) && TakenFits(taken[i], posting) {
      if i > 0 {
        assert taken[i] == rest[i - 1] && QuotedFrom(quoted, index + 1, rest[i - 1].what);
      }
    }
    forall i, j | 0 <= i < j < |taken| ensures taken[i].what.item.key != taken[j].what.item.key {
      assert taken[j] == rest[j - 1] && QuotedFrom(quoted, index + 1, rest[j - 1].what);
      if i > 0 {
        assert taken[i] == rest[i - 1];
      }
    }
  }

  /** A way of paying an item takes it whole, or by the item's own discount. */
  ghost predicate WayFits(q: Quote, way: Way, posting: Date) {
    && (way.discount == None || way.discount == DiscountOffered(q.item, posting))
    && TakenAmount(Taken(q, way.discount)) == way.paid
  }

  ghost predicate WaysFit(quoted: seq<Quote>, ways: seq<seq<Way>>, posting: Date) {
    |ways| == |quoted| && forall i, k :: 0 <= i < |ways| && 0 <= k < |ways[i]| ==> WayFits(quoted[i], ways[i][k], posting)
  }

  lemma {:induction false} WaysOfPayingFit(quoted: seq<Quote>, posting: Date)
    ensures WaysFit(quoted, WaysOfPaying(quoted, posting), posting)
  {
  }

  lemma {:induction false} TakesLater(quoted: seq<Quote>, posting: Date, index: nat, taken: seq<Taken<Quote>>)
    requires TakesFrom(quoted, posting, index + 1, taken)
    ensures TakesFrom(quoted, posting, index, taken)
  {
    forall i | 0 <= i < |taken| ensures QuotedFrom(quoted, index, taken[i].what) {
      assert QuotedFrom(quoted, index + 1, taken[i].what);
    }
  }

  lemma {:induction false} ChoiceTakes(quoted: seq<Quote>, ways: seq<seq<Way>>, posting: Date, c: seq<nat>, index: nat)
    requires QuotesUnique(quoted) && index <= |quoted| && WaysFit(quoted, ways, posting) && ValidChoice(ways, c, index)
    ensures TakesFrom(quoted, posting, index, Search.Reading(quoted, ways, c, index))
    decreases |c|
  {
    hide TakesFrom, QuotesUnique, DiscountOffered;
    if c == [] {
      NothingTaken(quoted, posting, index);
    } else {
      ChoiceTakes(quoted, ways, posting, c[1..], index + 1);
      var rest := Search.Reading(quoted, ways, c[1..], index + 1);
      if c[0] == 0 {
        assert Search.Reading(quoted, ways, c, index) == rest;
        TakesLater(quoted, posting, index, rest);
      } else {
        assert WayFits(quoted[index], ways[index][c[0] - 1], posting);
        TakesOneMore(quoted, posting, index, Taken(quoted[index], ways[index][c[0] - 1].discount), rest);
      }
    }
  }

  lemma {:induction false} NothingTaken(quoted: seq<Quote>, posting: Date, index: nat)
    ensures TakesFrom(quoted, posting, index, [])
  {
  }

  lemma {:induction false} TakenSum(head: Taken<Quote>, rest: seq<Taken<Quote>>)
    ensures Sum([head] + rest, (t: Taken<Quote>) => TakenAmount(t))
         == TakenAmount(head) + Sum(rest, (t: Taken<Quote>) => TakenAmount(t))
  {
    SumCons(head, rest, (t: Taken<Quote>) => TakenAmount(t));
  }

  lemma {:induction false} ChoicePays(quoted: seq<Quote>, ways: seq<seq<Way>>, posting: Date, c: seq<nat>, index: nat)
    requires index <= |quoted| && WaysFit(quoted, ways, posting) && ValidChoice(ways, c, index)
    ensures Sum(Search.Reading(quoted, ways, c, index), (t: Taken<Quote>) => TakenAmount(t)) == Search.Paid(ways, c, index)
    decreases |c|
  {
    hide DiscountOn;
    if c != [] {
      ChoicePays(quoted, ways, posting, c[1..], index + 1);
      var rest := Search.Reading(quoted, ways, c[1..], index + 1);
      if c[0] == 0 {
        assert Search.Reading(quoted, ways, c, index) == rest;
      } else {
        var way := ways[index][c[0] - 1];
        var head := Taken(quoted[index], way.discount);
        assert WayFits(quoted[index], way, posting);
        assert Search.Reading(quoted, ways, c, index) == [head] + rest;
        TakenSum(head, rest);
      }
    }
  }
}
