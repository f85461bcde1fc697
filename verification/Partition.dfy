/** Every line of a statement is cleared, reopened or left unprocessed, and what is reported
    for a processed line adds up to the line. */
module Partition {
  import opened Common
  import opened Text
  import opened Terms
  import opened Search
  import opened Books
  import opened Totals
  import opened Matching
  import opened Posting
  import opened Statements
  import opened Grouping
  import opened Returning

  // ----- how often, and with what amount, a line appears -----

  function RowsAt(rows: seq<Row>, a: nat): int {
    Sum(rows, (row: Row) => if row.at == a then 1 else 0)
  }

  function AmountAt(rows: seq<Row>, a: nat): int {
    Sum(rows, (row: Row) => if row.at == a then row.amount else 0)
  }

  function RefusedAt(refused: seq<Refusal>, a: nat): int {
    Sum(refused, (u: Refusal) => if u.at == a then 1 else 0)
  }

  function NotedAt(noted: seq<Noted>, a: nat): int {
    Sum(noted, (n: Noted) => if n.at == a then 1 else 0)
  }

  function EntriesAt(entries: seq<Entry>, a: nat): int {
    Sum(entries, (e: Entry) => if e.at == a then 1 else 0)
  }

  function ShareAt(side: Side, entries: seq<Entry>, a: nat): int {
    Sum(entries, (e: Entry) => if e.at == a then ShareOf(side, e.what) else 0)
  }

  /** How a line was read: entries and their amounts on either side, notes, and refusals. */
  datatype Tally = Tally(settled: int, paid: int, taken: int, received: int, returned: int, refunded: int, refused: int)

  const NONE := Tally(0, 0, 0, 0, 0, 0, 0)

  ghost function TallyOf(r: Statements.Reading, a: nat): Tally {
    Tally(EntriesAt(r.settling, a), ShareAt(SupplierLine, r.settling, a),
          EntriesAt(r.receiving, a), ShareAt(CustomerLine, r.receiving, a),
          NotedAt(r.returning, a), NotedAt(r.refunding, a), RefusedAt(r.unprocessed, a))
  }

  /** Read once: into one stream, for its whole amount, or refused. */
  ghost predicate ReadOnce(t: Tally, line: StatementLine) {
    if IsRefund(line) then t == NONE.(refunded := 1)
    else if IsReturn(line) then t == NONE.(returned := 1)
    else if IsPayment(line) then t == NONE.(refused := 1) || t == NONE.(settled := 1, paid := AmountOf(line))
    else if IsReceipt(line) then
      t == NONE.(refused := 1) || (t.taken > 0 && t == NONE.(taken := t.taken, received := AmountOf(line)))
    else t == NONE.(refused := 1)
  }

  lemma {:induction false} ReadElsewhere(b: Book, r: Statements.Reading, at: nat, line: StatementLine, posting: Date, a: nat)
    requires a != at
    ensures TallyOf(ReadLine(b, r, at, line, posting), a) == TallyOf(r, a)
  {
    var r' := ReadLine(b, r, at, line, posting);
    if IsPayment(line) {
      match Match(b, line, Candidates(b, SupplierLine, r.claimed)) {
        case Refused(reason) => SumSnoc(r.unprocessed, Refusal(at, line, reason), (u: Refusal) => if u.at == a then 1 else 0);
        case Found(it, reference) =>
          var e := Entry(at, Settling(line, it, reference, None));
          SumSnoc(r.settling, e, (e: Entry) => if e.at == a then 1 else 0);
          SumSnoc(r.settling, e, (e: Entry) => if e.at == a then ShareOf(SupplierLine, e.what) else 0);
      }
    } else if IsReceipt(line) {
      match MatchReceipt(b, line, Candidates(b, CustomerLine, r.claimed), posting) {
        case Unsettled(reason) => SumSnoc(r.unprocessed, Refusal(at, line, reason), (u: Refusal) => if u.at == a then 1 else 0);
        case Settles(taken) =>
          AddedElsewhere(r.receiving, EntriesOf(at, line, taken), at, a);
      }
    } else if IsRefund(line) {
      SumSnoc(r.refunding, Noted(at, line), (n: Noted) => if n.at == a then 1 else 0);
    } else if IsReturn(line) {
      SumSnoc(r.returning, Noted(at, line), (n: Noted) => if n.at == a then 1 else 0);
    } else {
      SumSnoc(r.unprocessed, Refusal(at, line, if IsCredit(line) then KindUnsaid else NoSide),
              (u: Refusal) => if u.at == a then 1 else 0);
    }
  }

  lemma {:induction false} AddedElsewhere(entries: seq<Entry>, more: seq<Entry>, at: nat, a: nat)
    requires a != at && forall i :: 0 <= i < |more| ==> more[i].at == at
    ensures EntriesAt(entries + more, a) == EntriesAt(entries, a)
    ensures ShareAt(CustomerLine, entries + more, a) == ShareAt(CustomerLine, entries, a)
  {
    var f := (e: Entry) => if e.at == a then 1 else 0;
    var g := (e: Entry) => if e.at == a then ShareOf(CustomerLine, e.what) else 0;
    SumAppend(entries, more, f);
    SumAppend(entries, more, g);
    SumZero(more, f);
    SumZero(more, g);
  }

  lemma {:induction false} CountOnes(entries: seq<Entry>, a: nat)
    requires forall i :: 0 <= i < |entries| ==> entries[i].at == a
    ensures EntriesAt(entries, a) == |entries|
  {
    if |entries| > 0 {
      CountOnes(entries[..|entries| - 1], a);
    }
  }

  lemma {:induction false} TakenShare(at: nat, line: StatementLine, taken: seq<Taken<Quote>>)
    ensures ShareAt(CustomerLine, EntriesOf(at, line, taken), at) == Sum(taken, (t: Taken<Quote>) => TakenAmount(t))
  {
    SumAgree(EntriesOf(at, line, taken), (e: Entry) => if e.at == at then ShareOf(CustomerLine, e.what) else 0,
             taken, (t: Taken<Quote>) => TakenAmount(t));
  }

  lemma {:induction false} NotYet(b: Book, r: Statements.Reading, lines: seq<StatementLine>, posting: Date)
    requires ReadingOk(b, r, lines, posting)
    ensures TallyOf(r, |lines|) == NONE
  {
    var a := |lines|;
    forall i | 0 <= i < |r.settling| ensures r.settling[i].at != a {
      assert ReadsPayment(b, r.settling[i], lines);
    }
    forall i | 0 <= i < |r.receiving| ensures r.receiving[i].at != a {
      assert ReadsReceipt(b, r.receiving[i], lines, posting);
    }
    SumZero(r.settling, (e: Entry) => if e.at == a then 1 else 0);
    SumZero(r.settling, (e: Entry) => if e.at == a then ShareOf(SupplierLine, e.what) else 0);
    SumZero(r.receiving, (e: Entry) => if e.at == a then 1 else 0);
    SumZero(r.receiving, (e: Entry) => if e.at == a then ShareOf(CustomerLine, e.what) else 0);
    SumZero(r.returning, (n: Noted) => if n.at == a then 1 else 0);
    SumZero(r.refunding, (n: Noted) => if n.at == a then 1 else 0);
    SumZero(r.unprocessed, (u: Refusal) => if u.at == a then 1 else 0);
  }

  lemma {:induction false} RefusedHere(r: Statements.Reading, at: nat, line: StatementLine, reason: Reason)
    requires TallyOf(r, at) == NONE
    ensures TallyOf(Refuse(r, at, line, reason), at) == NONE.(refused := 1)
  {
    SumSnoc(r.unprocessed, Refusal(at, line, reason), (u: Refusal) => if u.at == at then 1 else 0);
  }

  lemma {:induction false} ReadHere(b: Book, r: Statements.Reading, at: nat, line: StatementLine, posting: Date)
    requires Valid(b) && TallyOf(r, at) == NONE
    ensures ReadOnce(TallyOf(ReadLine(b, r, at, line, posting), at), line)
  {
    if IsPayment(line) {
      PaymentHere(b, r, at, line);
    } else if IsReceipt(line) {
      ReceiptHere(b, r, at, line, posting);
    } else if IsRefund(line) {
      SumSnoc(r.refunding, Noted(at, line), (n: Noted) => if n.at == at then 1 else 0);
    } else if IsReturn(line) {
      SumSnoc(r.returning, Noted(at, line), (n: Noted) => if n.at == at then 1 else 0);
    } else {
      RefusedHere(r, at, line, if IsCredit(line) then KindUnsaid else NoSide);
    }
  }

  lemma {:induction false} PaymentHere(b: Book, r: Statements.Reading, at: nat, line: StatementLine)
    requires TallyOf(r, at) == NONE && IsPayment(line)
    ensures ReadOnce(TallyOf(ReadPayment(b, r, at, line), at), line)
  {
    match Match(b, line, Candidates(b, SupplierLine, r.claimed)) {
      case Refused(reason) => RefusedHere(r, at, line, reason);
      case Found(it, reference) =>
        var e := Entry(at, Settling(line, it, reference, None));
        SumSnoc(r.settling, e, (e: Entry) => if e.at == at then 1 else 0);
        SumSnoc(r.settling, e, (e: Entry) => if e.at == at then ShareOf(SupplierLine, e.what) else 0);
    }
  }

  lemma {:induction false} ReceiptHere(b: Book, r: Statements.Reading, at: nat, line: StatementLine, posting: Date)
    requires Valid(b) && TallyOf(r, at) == NONE && IsReceipt(line)
    ensures ReadOnce(TallyOf(ReadReceipt(b, r, at, line, posting), at), line)
  {
    hide Quotes, EntriesOf, QuotedBy, InvoicedAs, MatchReceipt, Candidates, TakesCandidate, Valid;
    match MatchReceipt(b, line, Candidates(b, CustomerLine, r.claimed), posting) {
      case Unsettled(reason) => RefusedHere(r, at, line, reason);
      case Settles(taken) =>
        TakenInFull(b, line, r.claimed, posting);
        AddedHere(r.receiving, at, line, taken);
    }
  }

  /** A receipt that settles takes something, worth the line. */
  lemma {:induction false} TakenInFull(b: Book, line: StatementLine, claimed: set<Key>, posting: Date)
    requires Valid(b)
    ensures match MatchReceipt(b, line, Candidates(b, CustomerLine, claimed), posting)
      case Unsettled(_) => true
      case Settles(taken) => taken != [] && Sum(taken, (t: Taken<Quote>) => TakenAmount(t)) == AmountOf(line)
  {
    hide Quotes, QuotedBy, InvoicedAs, MatchReceipt, Candidates, TakesCandidate, Sum;
    CandidatesAre(b, CustomerLine, claimed);
    if MatchReceipt(b, line, Candidates(b, CustomerLine, claimed), posting).Settles? {
      ReceiptTakes(b, line, Candidates(b, CustomerLine, claimed), posting);
    }
  }

  lemma {:induction false} AddedHere(entries: seq<Entry>, at: nat, line: StatementLine, taken: seq<Taken<Quote>>)
    ensures var all := entries + EntriesOf(at, line, taken);
      && EntriesAt(all, at) == EntriesAt(entries, at) + |taken|
      && ShareAt(CustomerLine, all, at) == ShareAt(CustomerLine, entries, at) + Sum(taken, (t: Taken<Quote>) => TakenAmount(t))
  {
    var more := EntriesOf(at, line, taken);
    SumAppend(entries, more, (e: Entry) => if e.at == at then 1 else 0);
    SumAppend(entries, more, (e: Entry) => if e.at == at then ShareOf(CustomerLine, e.what) else 0);
    CountOnes(more, at);
    TakenShare(at, line, taken);
  }

  /** Every line is read once. */
  lemma {:induction false} EveryLineRead(b: Book, lines: seq<StatementLine>, posting: Date, a: nat)
    requires Valid(b) && a < |lines|
    ensures ReadOnce(TallyOf(ReadLines(b, lines, posting), a), lines[a])
  {
    var before, line, at := lines[..|lines| - 1], lines[|lines| - 1], |lines| - 1;
    var r := ReadLines(b, before, posting);
    if a < at {
      EveryLineRead(b, before, posting, a);
      ReadElsewhere(b, r, at, line, posting, a);
    } else {
      ReadLinesOk(b, before, posting);
      NotYet(b, r, before, posting);
      ReadHere(b, r, at, line, posting);
    }
  }

  // ----- what came back is reopened for its amount, or refused -----

  /** `n` notes of a line became rows for its whole amount, or refusals. */
  ghost predicate Answered(noted: seq<Noted>, rows: seq<Row>, refused: seq<Refusal>, a: nat) {
    && RowsAt(rows, a) >= 0 && RefusedAt(refused, a) >= 0
    && (NotedAt(noted, a) == 0 ==> RowsAt(rows, a) == 0 && RefusedAt(refused, a) == 0 && AmountAt(rows, a) == 0)
    && (NotedAt(noted, a) == 1 ==>
          || (RowsAt(rows, a) == 0 && AmountAt(rows, a) == 0 && RefusedAt(refused, a) == 1)
          || (RowsAt(rows, a) > 0 && AmountAt(rows, a) == NotedAmount(noted, a) && RefusedAt(refused, a) == 0))
  }

  ghost function NotedAmount(noted: seq<Noted>, a: nat): int {
    Sum(noted, (n: Noted) => if n.at == a then AmountOf(n.line) else 0)
  }

  lemma {:induction false} NotedCounts(noted: seq<Noted>, a: nat)
    ensures NotedAt(noted, a) >= 0
    ensures NotedAt(noted, a) == 0 ==> NotedAmount(noted, a) == 0
  {
    if |noted| > 0 {
      NotedCounts(noted[..|noted| - 1], a);
    }
  }

  /** One more note, answered by rows for its amount or by a refusal. */
  lemma {:induction false} OneMoreAnswered(noted: seq<Noted>, n: Noted, rows: seq<Row>, more: seq<Row>, refused: seq<Refusal>,
                                           last: seq<Refusal>, a: nat)
    requires Answered(noted, rows, refused, a)
    requires || (more == [] && exists reason :: last == [Refusal(n.at, n.line, reason)])
             || (last == [] && more != [] && (forall i :: 0 <= i < |more| ==> more[i].at == n.at)
                 && Sum(more, (row: Row) => row.amount) == AmountOf(n.line))
    ensures Answered(noted + [n], rows + more, refused + last, a)
  {
    var one := (row: Row) => if row.at == a then 1 else 0;
    var amount := (row: Row) => if row.at == a then row.amount else 0;
    var count := (u: Refusal) => if u.at == a then 1 else 0;
    SumSnoc(noted, n, (n: Noted) => if n.at == a then 1 else 0);
    SumSnoc(noted, n, (n: Noted) => if n.at == a then AmountOf(n.line) else 0);
    NotedCounts(noted, a);
    SumAppend(rows, more, one);
    SumAppend(rows, more, amount);
    SumAppend(refused, last, count);
    if more == [] {
      var none: seq<Refusal> := [];
      var reason :| last == [Refusal(n.at, n.line, reason)];
      assert none + last == last;
      SumSnoc(none, last[0], count);
    } else if n.at == a {
      RowCount(more, a);
      SumAgree(more, amount, more, (row: Row) => row.amount);
    } else {
      SumZero(more, one);
      SumZero(more, amount);
    }
  }

  lemma {:induction false} RowCount(rows: seq<Row>, a: nat)
    requires forall i :: 0 <= i < |rows| ==> rows[i].at == a
    ensures RowsAt(rows, a) == |rows|
  {
    if |rows| > 0 {
      RowCount(rows[..|rows| - 1], a);
    }
  }

  lemma {:induction false} OneRow(row: Row)
    ensures Sum([row], (r: Row) => r.amount) == row.amount
  {
    var none: seq<Row> := [];
    SumSnoc(none, row, (r: Row) => r.amount);
    assert none + [row] == [row];
  }

  lemma {:induction false} OneMoreRefused(noted: seq<Noted>, n: Noted, rows: seq<Row>, refused: seq<Refusal>, reason: Reason, a: nat)
    requires Answered(noted, rows, refused, a)
    ensures Answered(noted + [n], rows, refused + [Refusal(n.at, n.line, reason)], a)
  {
    assert rows + [] == rows;
    OneMoreAnswered(noted, n, rows, [], refused, [Refusal(n.at, n.line, reason)], a);
  }

  lemma {:induction false} OneMoreReported(noted: seq<Noted>, n: Noted, rows: seq<Row>, more: seq<Row>, refused: seq<Refusal>, a: nat)
    requires Answered(noted, rows, refused, a)
    requires more != [] && (forall i :: 0 <= i < |more| ==> more[i].at == n.at)
    requires Sum(more, (row: Row) => row.amount) == AmountOf(n.line)
    ensures Answered(noted + [n], rows + more, refused, a)
  {
    assert refused + [] == refused;
    OneMoreAnswered(noted, n, rows, more, refused, [], a);
  }

  lemma {:induction false} ReturnOneAnswers(noted: seq<Noted>, r: Returns, n: Noted, posting: Date, a: nat)
    requires Answered(noted, r.rows, r.refused, a)
    ensures var r' := ReturnOne(r, n, posting); Answered(noted + [n], r'.rows, r'.refused, a)
  {
    var candidates := ClearedItems(r.book, SupplierLine);
    MatchAnswers(r.book, n.line, candidates);
    match Match(r.book, n.line, candidates) {
      case Refused(reason) => OneMoreRefused(noted, n, r.rows, r.refused, reason, a);
      case Found(it, reference) =>
        var row := ReturnRow(n, it, reference, r.book.next);
        OneRow(row);
        OneMoreReported(noted, n, r.rows, [row], r.refused, a);
    }
  }

  lemma {:induction false} ReturnAnswers(b: Book, noted: seq<Noted>, posting: Date, a: nat)
    ensures var r := ReturnAll(b, noted, posting); Answered(noted, r.rows, r.refused, a)
  {
    hide ReturnOne;
    if |noted| > 0 {
      var rest, n := noted[..|noted| - 1], noted[|noted| - 1];
      ReturnAnswers(b, rest, posting, a);
      assert rest + [n] == noted;
      ReturnOneAnswers(rest, ReturnAll(b, rest, posting), n, posting, a);
    }
  }

  lemma {:induction false} ReopenRows(b: Book, n: Noted, items: seq<Quote>, posting: Date)
    ensures var rows := ReopenAll(b, n, items, posting).rows;
      && |rows| == |items| && (forall i :: 0 <= i < |rows| ==> rows[i].at == n.at)
      && Sum(rows, (row: Row) => row.amount) == Sum(items, (q: Quote) => Abs(q.item.line.amount))
  {
    hide Reopen;
    if |items| > 0 {
      var rest, q := items[..|items| - 1], items[|items| - 1];
      ReopenRows(b, n, rest, posting);
      var before := ReopenAll(b, n, rest, posting);
      SumSnoc(before.rows, ReturnRow(n, q.item, q.reference, before.book.next), (row: Row) => row.amount);
    }
  }

  lemma {:induction false} RefundOneAnswers(noted: seq<Noted>, r: Returns, n: Noted, posting: Date, a: nat)
    requires Valid(r.book) && IsRefund(n.line) && Answered(noted, r.rows, r.refused, a)
    ensures var r' := RefundOne(r, n, posting); Answered(noted + [n], r'.rows, r'.refused, a)
  {
    match MatchReturnedReceipt(r.book, n.line, ClearedItems(r.book, CustomerLine)) {
      case Stays(reason) => OneMoreRefused(noted, n, r.rows, r.refused, reason, a);
      case Reopens(items) =>
        RefundIsReopenable(r.book, n.line, items);
        ReopenRows(r.book, n, items, posting);
        OneMoreReported(noted, n, r.rows, ReopenAll(r.book, n, items, posting).rows, r.refused, a);
    }
  }

  ghost predicate AllRefunds(noted: seq<Noted>) {
    forall i :: 0 <= i < |noted| ==> IsRefund(noted[i].line)
  }

  lemma {:induction false} RefundMore(b: Book, rest: seq<Noted>, n: Noted, posting: Date, a: nat)
    requires Valid(RefundAll(b, rest, posting).book) && IsRefund(n.line)
    requires Answered(rest, RefundAll(b, rest, posting).rows, RefundAll(b, rest, posting).refused, a)
    ensures Answered(rest + [n], RefundAll(b, rest + [n], posting).rows, RefundAll(b, rest + [n], posting).refused, a)
  {
    var r := RefundAll(b, rest, posting);
    SnocParts(rest, n);
    assert RefundAll(b, rest + [n], posting) == RefundOne(r, n, posting);
    RefundOneAnswers(rest, r, n, posting, a);
  }

  lemma {:induction false} RefundAnswers(b: Book, noted: seq<Noted>, posting: Date, a: nat)
    requires Valid(b) && AllRefunds(noted)
    ensures Answered(noted, RefundAll(b, noted, posting).rows, RefundAll(b, noted, posting).refused, a)
  {
    hide RefundOne;
    if |noted| > 0 {
      var rest, n := noted[..|noted| - 1], noted[|noted| - 1];
      assert AllRefunds(rest);
      RefundAnswers(b, rest, posting, a);
      RefundAllValid(b, rest, posting);
      RefundMore(b, rest, n, posting, a);
      assert rest + [n] == noted;
    }
  }

  lemma {:induction false} RefundAllValid(b: Book, noted: seq<Noted>, posting: Date)
    requires Valid(b)
    ensures Valid(RefundAll(b, noted, posting).book)
  {
    RefundAllKeeps(b, noted, posting);
  }

  // ----- the whole statement -----

  ghost predicate InRows(rows: seq<Row>, a: nat) {
    exists i :: 0 <= i < |rows| && rows[i].at == a
  }

  ghost predicate InRefused(refused: seq<Refusal>, a: nat) {
    exists i :: 0 <= i < |refused| && refused[i].at == a
  }

  lemma {:induction false} CountsRows(rows: seq<Row>, a: nat)
    ensures RowsAt(rows, a) >= 0 && (RowsAt(rows, a) > 0 <==> InRows(rows, a))
  {
    var f := (row: Row) => if row.at == a then 1 else 0;
    SumNonNegative(rows, f);
    if InRows(rows, a) {
      var i :| 0 <= i < |rows| && rows[i].at == a;
      assert f(rows[i]) == 1;
    } else {
      SumZero(rows, f);
    }
  }

  lemma {:induction false} CountsRefused(refused: seq<Refusal>, a: nat)
    ensures RefusedAt(refused, a) >= 0 && (RefusedAt(refused, a) > 0 <==> InRefused(refused, a))
  {
    var f := (u: Refusal) => if u.at == a then 1 else 0;
    SumNonNegative(refused, f);
    if InRefused(refused, a) {
      var i :| 0 <= i < |refused| && refused[i].at == a;
      assert f(refused[i]) == 1;
    } else {
      SumZero(refused, f);
    }
  }

  lemma {:induction false} ClearedRows(b: Book, side: Side, entries: seq<Entry>, posting: Date, statement: string, a: nat)
    ensures var rows := PostAll(b, side, entries, posting, statement).rows;
      RowsAt(rows, a) == EntriesAt(entries, a) && AmountAt(rows, a) == ShareAt(side, entries, a)
  {
    PostAllRows(b, side, entries, posting, statement, (row: Row) => if row.at == a then 1 else 0,
                (e: Entry) => if e.at == a then 1 else 0);
    PostAllRows(b, side, entries, posting, statement, (row: Row) => if row.at == a then row.amount else 0,
                (e: Entry) => if e.at == a then ShareOf(side, e.what) else 0);
  }

  /** Line `a` is reported in exactly one of the three lists - once, if it is unprocessed - and
      if it was processed the rows reported for it add up to exactly its amount. */
  ghost predicate Accounted(out: Outcome, a: nat, line: StatementLine) {
    var cleared, reopened, refused := InRows(out.cleared, a), InRows(out.reopened, a), InRefused(out.unprocessed, a);
    && (cleared || reopened || refused)
    && !(cleared && reopened) && !(cleared && refused) && !(reopened && refused)
    && (refused ==> RefusedAt(out.unprocessed, a) == 1)
    && (cleared ==> AmountAt(out.cleared, a) == AmountOf(line))
    && (reopened ==> AmountAt(out.reopened, a) == AmountOf(line))
  }

  lemma {:induction false} LinePartition(b: Book, lines: seq<StatementLine>, posting: Date, statement: string, a: nat)
    requires Valid(b) && a < |lines|
    ensures Accounted(Apply(b, lines, posting, statement), a, lines[a])
  {
    var s := StagesOf(b, lines, posting, statement);
    EveryLineRead(b, lines, posting, a);
    StagesKeep(b, lines, posting, statement);
    ClearedRows(b, SupplierLine, s.read.settling, posting, statement, a);
    ClearedRows(s.paid.book, CustomerLine, s.read.receiving, posting, statement, a);
    ReturnAnswers(s.received.book, s.read.returning, posting, a);
    RefundAnswers(s.returned.book, s.read.refunding, posting, a);
    AddUp(s.read, lines, s.paid.rows, s.received.rows, s.returned, s.refunded, a);
  }

  lemma {:induction false} NotedAmountIs(noted: seq<Noted>, lines: seq<StatementLine>, a: nat)
    requires a < |lines| && forall i :: 0 <= i < |noted| ==> NotedFrom(noted[i], lines)
    ensures NotedAmount(noted, a) == NotedAt(noted, a) * AmountOf(lines[a])
  {
    if |noted| > 0 {
      NotedAmountIs(noted[..|noted| - 1], lines, a);
      assert NotedFrom(noted[|noted| - 1], lines);
      var k, m := NotedAt(noted[..|noted| - 1], a), AmountOf(lines[a]);
      assert (k + 1) * m == k * m + m;
    }
  }

  lemma {:induction false} AddUp(r: Statements.Reading, lines: seq<StatementLine>, paid: seq<Row>, received: seq<Row>,
                                 returned: Returns, refunded: Returns, a: nat)
    requires a < |lines| && ReadOnce(TallyOf(r, a), lines[a]) && ReturnsOk(r.returning, lines) && RefundsOk(r.refunding, lines)
    requires RowsAt(paid, a) == EntriesAt(r.settling, a) && AmountAt(paid, a) == ShareAt(SupplierLine, r.settling, a)
    requires RowsAt(received, a) == EntriesAt(r.receiving, a) && AmountAt(received, a) == ShareAt(CustomerLine, r.receiving, a)
    requires Answered(r.returning, returned.rows, returned.refused, a)
    requires Answered(r.refunding, refunded.rows, refunded.refused, a)
    ensures Accounted(Outcome(refunded.book, paid + received, returned.rows + refunded.rows,
                              r.unprocessed + returned.refused + refunded.refused), a, lines[a])
  {
    var one := (row: Row) => if row.at == a then 1 else 0;
    var amount := (row: Row) => if row.at == a then row.amount else 0;
    var count := (u: Refusal) => if u.at == a then 1 else 0;
    SumAppend(paid, received, one);
    SumAppend(paid, received, amount);
    SumAppend(returned.rows, refunded.rows, one);
    SumAppend(returned.rows, refunded.rows, amount);
    SumAppend(r.unprocessed, returned.refused, count);
    SumAppend(r.unprocessed + returned.refused, refunded.refused, count);
    CountsRows(paid + received, a);
    CountsRows(returned.rows + refunded.rows, a);
    CountsRefused(r.unprocessed + returned.refused + refunded.refused, a);
    NotedAmountIs(r.returning, lines, a);
    NotedAmountIs(r.refunding, lines, a);
  }
}
