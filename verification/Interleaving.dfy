/** A statement's effect depends on its four streams, not on how they are interleaved. */
module Interleaving {
  import opened Common
  import opened Text
  import opened Terms
  import opened Search
  import opened Books
  import opened Totals
  import opened Matching
  import opened Posting
  import opened Statements
  import opened Returning

  // ----- reports, without the places of their lines -----

  function PlainRows(rows: seq<Row>): (r: seq<Row>)
    ensures |r| == |rows|
  {
    Map(rows, (row: Row) => row.(at := 0))
  }

  function PlainRefused(refused: seq<Refusal>): (r: seq<Refusal>)
    ensures |r| == |refused|
  {
    Map(refused, (u: Refusal) => u.(at := 0))
  }

  function LinesOf(noted: seq<Noted>): (r: seq<StatementLine>)
    ensures |r| == |noted|
  {
    Map(noted, (n: Noted) => n.line)
  }

  // ----- each stream read on its own -----

  datatype Stream = Stream(taken: seq<Settling>, refused: seq<Refusal>)

  ghost function Keys(taken: seq<Settling>): set<Key> {
    set s | s in taken :: s.item.key
  }

  ghost function PayStream(b: Book, lines: seq<StatementLine>): Stream {
    if |lines| == 0 then Stream([], [])
    else
      var before, line := PayStream(b, lines[..|lines| - 1]), lines[|lines| - 1];
      match Match(b, line, Candidates(b, SupplierLine, Keys(before.taken)))
      case Refused(reason) => before.(refused := before.refused + [Refusal(0, line, reason)])
      case Found(it, reference) => before.(taken := before.taken + [Settling(line, it, reference, None)])
  }

  ghost function ReceiptStream(b: Book, lines: seq<StatementLine>, posting: Date): Stream {
    if |lines| == 0 then Stream([], [])
    else
      var before, line := ReceiptStream(b, lines[..|lines| - 1], posting), lines[|lines| - 1];
      match MatchReceipt(b, line, Candidates(b, CustomerLine, Keys(before.taken)), posting)
      case Unsettled(reason) => before.(refused := before.refused + [Refusal(0, line, reason)])
      case Settles(taken) => before.(taken := before.taken + Bare(EntriesOf(0, line, taken)))
  }

  predicate IsOther(line: StatementLine) {
    !IsPayment(line) && !IsReceipt(line) && !IsReturn(line) && !IsRefund(line)
  }

  ghost function OtherRefused(lines: seq<StatementLine>): seq<Refusal> {
    Map(lines, (line: StatementLine) => Refusal(0, line, if IsCredit(line) then KindUnsaid else NoSide))
  }

  function Payments(lines: seq<StatementLine>): seq<StatementLine> {
    Filter(lines, (l: StatementLine) => IsPayment(l))
  }

  function Receipts(lines: seq<StatementLine>): seq<StatementLine> {
    Filter(lines, (l: StatementLine) => IsReceipt(l))
  }

  function ReturnedPayments(lines: seq<StatementLine>): seq<StatementLine> {
    Filter(lines, (l: StatementLine) => IsReturn(l))
  }

  function RefundedReceipts(lines: seq<StatementLine>): seq<StatementLine> {
    Filter(lines, (l: StatementLine) => IsRefund(l))
  }

  function Others(lines: seq<StatementLine>): seq<StatementLine> {
    Filter(lines, (l: StatementLine) => IsOther(l))
  }

  // ----- reading the mixture is reading each stream -----

  /** What a reading took is what each stream on its own takes. */
  ghost predicate AsStreams(b: Book, r: Statements.Reading, lines: seq<StatementLine>, posting: Date) {
    && Bare(r.settling) == PayStream(b, Payments(lines)).taken
    && Bare(r.receiving) == ReceiptStream(b, Receipts(lines), posting).taken
    && LinesOf(r.returning) == ReturnedPayments(lines)
    && LinesOf(r.refunding) == RefundedReceipts(lines)
  }

  ghost predicate RefusesAsStreams(b: Book, r: Statements.Reading, lines: seq<StatementLine>, posting: Date) {
    multiset(PlainRefused(r.unprocessed)) == multiset(PayStream(b, Payments(lines)).refused)
      + multiset(ReceiptStream(b, Receipts(lines), posting).refused) + multiset(OtherRefused(Others(lines)))
  }

  lemma {:induction false} KeysOfBare(entries: seq<Entry>)
    ensures KeysOf(entries) == Keys(Bare(entries))
  {
    forall k ensures k in KeysOf(entries) <==> k in Keys(Bare(entries)) {
      if k in KeysOf(entries) {
        var e :| e in entries && e.what.item.key == k;
        var i :| 0 <= i < |entries| && entries[i] == e;
        assert Bare(entries)[i] in Bare(entries);
      }
      if k in Keys(Bare(entries)) {
        var s :| s in Bare(entries) && s.item.key == k;
        var i :| 0 <= i < |entries| && Bare(entries)[i] == s;
        assert entries[i] in entries;
      }
    }
  }

  /** What one side's lines may still pay does not depend on what the other side has claimed. */
  lemma {:induction false} OtherSideClaims(b: Book, side: Side, mine: set<Key>, theirs: set<Key>)
    requires forall it :: it in b.items && it.line.side == side ==> it.key !in theirs
    ensures Candidates(b, side, mine + theirs) == Candidates(b, side, mine)
  {
    FilterMembers(b.items, (it: Item) => OpenOn(it, side));
    FilterAgree(OpenItems(b, side), (it: Item) => it.key !in mine + theirs, (it: Item) => it.key !in mine);
  }

  lemma {:induction false} SidesDiffer(b: Book, entries: seq<Entry>, side: Side, other: Side)
    requires Valid(b) && side != other
    requires forall i :: 0 <= i < |entries| ==> entries[i].what.item in b.items && entries[i].what.item.line.side == side
    ensures forall it :: it in b.items && it.line.side == other ==> it.key !in KeysOf(entries)
  {
    assert forall e :: e in entries ==> e.what.item in b.items && e.what.item.line.side == side;
  }

  lemma {:induction false} SameCandidates(b: Book, r: Statements.Reading, lines: seq<StatementLine>, posting: Date)
    requires Valid(b) && ReadingOk(b, r, lines, posting)
    ensures Candidates(b, SupplierLine, r.claimed) == Candidates(b, SupplierLine, Keys(Bare(r.settling)))
    ensures Candidates(b, CustomerLine, r.claimed) == Candidates(b, CustomerLine, Keys(Bare(r.receiving)))
  {
    forall i | 0 <= i < |r.settling| ensures r.settling[i].what.item in b.items && r.settling[i].what.item.line.side == SupplierLine {
      assert ReadsPayment(b, r.settling[i], lines);
    }
    forall i | 0 <= i < |r.receiving| ensures r.receiving[i].what.item in b.items && r.receiving[i].what.item.line.side == CustomerLine {
      assert ReadsReceipt(b, r.receiving[i], lines, posting);
    }
    SidesDiffer(b, r.settling, SupplierLine, CustomerLine);
    SidesDiffer(b, r.receiving, CustomerLine, SupplierLine);
    KeysOfBare(r.settling);
    KeysOfBare(r.receiving);
    OtherSideClaims(b, SupplierLine, KeysOf(r.settling), KeysOf(r.receiving));
    OtherSideClaims(b, CustomerLine, KeysOf(r.receiving), KeysOf(r.settling));
    assert KeysOf(r.settling) + KeysOf(r.receiving) == KeysOf(r.receiving) + KeysOf(r.settling);
  }

  lemma {:induction false} StreamsSnoc(lines: seq<StatementLine>, line: StatementLine)
    ensures Payments(lines + [line]) == Payments(lines) + (if IsPayment(line) then [line] else [])
    ensures Receipts(lines + [line]) == Receipts(lines) + (if IsReceipt(line) then [line] else [])
    ensures ReturnedPayments(lines + [line]) == ReturnedPayments(lines) + (if IsReturn(line) then [line] else [])
    ensures RefundedReceipts(lines + [line]) == RefundedReceipts(lines) + (if IsRefund(line) then [line] else [])
    ensures Others(lines + [line]) == Others(lines) + (if IsOther(line) then [line] else [])
  {
    SnocParts(lines, line);
  }

  lemma {:induction false} RefusedSnoc(refused: seq<Refusal>, u: Refusal)
    ensures PlainRefused(refused + [u]) == PlainRefused(refused) + [u.(at := 0)]
  {
  }

  lemma {:induction false} BareAppend(s: seq<Entry>, t: seq<Entry>)
    ensures Bare(s + t) == Bare(s) + Bare(t)
  {
  }

  lemma {:induction false} PaymentAsStream(b: Book, r: Statements.Reading, lines: seq<StatementLine>, line: StatementLine, posting: Date)
    requires Valid(b) && ReadingOk(b, r, lines, posting) && IsPayment(line)
    requires AsStreams(b, r, lines, posting) && RefusesAsStreams(b, r, lines, posting)
    ensures var r' := ReadPayment(b, r, |lines|, line);
      AsStreams(b, r', lines + [line], posting) && RefusesAsStreams(b, r', lines + [line], posting)
  {
    hide ReadsReceipt, ReadsPayment, Match, Candidates, RefusalsOk, Payments, Receipts, ReturnedPayments,
         RefundedReceipts, Others, ReceiptStream, LinesOf, PaymentsOk, ReceiptsOk, ReturnsOk, RefundsOk;
    StreamsSnoc(lines, line);
    SnocParts(Payments(lines), line);
    SameCandidates(b, r, lines, posting);
    assert Receipts(lines + [line]) == Receipts(lines) && Others(lines + [line]) == Others(lines);
    match Match(b, line, Candidates(b, SupplierLine, r.claimed)) {
      case Refused(reason) => RefusedSnoc(r.unprocessed, Refusal(|lines|, line, reason));
      case Found(it, reference) => BareAppend(r.settling, [Entry(|lines|, Settling(line, it, reference, None))]);
    }
  }

  lemma {:induction false} ReceiptAsStream(b: Book, r: Statements.Reading, lines: seq<StatementLine>, line: StatementLine, posting: Date)
    requires Valid(b) && ReadingOk(b, r, lines, posting) && IsReceipt(line)
    requires AsStreams(b, r, lines, posting) && RefusesAsStreams(b, r, lines, posting)
    ensures var r' := ReadReceipt(b, r, |lines|, line, posting);
      AsStreams(b, r', lines + [line], posting) && RefusesAsStreams(b, r', lines + [line], posting)
  {
    StreamsSnoc(lines, line);
    SnocParts(Receipts(lines), line);
    SameCandidates(b, r, lines, posting);
    assert Payments(lines + [line]) == Payments(lines) && Others(lines + [line]) == Others(lines);
    match MatchReceipt(b, line, Candidates(b, CustomerLine, r.claimed), posting) {
      case Unsettled(reason) => RefusedSnoc(r.unprocessed, Refusal(|lines|, line, reason));
      case Settles(taken) =>
        BareAppend(r.receiving, EntriesOf(|lines|, line, taken));
        assert Bare(EntriesOf(|lines|, line, taken)) == Bare(EntriesOf(0, line, taken));
    }
  }

  lemma {:induction false} NotedAsStream(b: Book, r: Statements.Reading, lines: seq<StatementLine>, line: StatementLine, posting: Date)
    requires IsReturn(line) || IsRefund(line)
    requires AsStreams(b, r, lines, posting) && RefusesAsStreams(b, r, lines, posting)
    ensures var r' := ReadLine(b, r, |lines|, line, posting);
      AsStreams(b, r', lines + [line], posting) && RefusesAsStreams(b, r', lines + [line], posting)
  {
    hide Filter;
    StreamsSnoc(lines, line);
    assert Payments(lines + [line]) == Payments(lines) && Receipts(lines + [line]) == Receipts(lines);
    assert Others(lines + [line]) == Others(lines);
    assert LinesOf(r.returning + [Noted(|lines|, line)]) == LinesOf(r.returning) + [line];
    assert LinesOf(r.refunding + [Noted(|lines|, line)]) == LinesOf(r.refunding) + [line];
  }

  lemma {:induction false} OtherAsStream(b: Book, r: Statements.Reading, lines: seq<StatementLine>, line: StatementLine, posting: Date)
    requires IsOther(line)
    requires AsStreams(b, r, lines, posting) && RefusesAsStreams(b, r, lines, posting)
    ensures var r' := ReadLine(b, r, |lines|, line, posting);
      AsStreams(b, r', lines + [line], posting) && RefusesAsStreams(b, r', lines + [line], posting)
  {
    hide Payments, Receipts, ReturnedPayments, RefundedReceipts, Others, ReadPayment, ReadReceipt, PayStream,
         ReceiptStream, Bare, LinesOf, PlainRefused;
    StreamsSnoc(lines, line);
    assert Payments(lines + [line]) == Payments(lines) && Receipts(lines + [line]) == Receipts(lines);
    assert ReturnedPayments(lines + [line]) == ReturnedPayments(lines);
    assert RefundedReceipts(lines + [line]) == RefundedReceipts(lines);
    var u := Refusal(|lines|, line, if IsCredit(line) then KindUnsaid else NoSide);
    RefusedSnoc(r.unprocessed, u);
    OtherSnoc(Others(lines), line);
  }

  lemma {:induction false} OtherSnoc(others: seq<StatementLine>, line: StatementLine)
    ensures OtherRefused(others + [line])
         == OtherRefused(others) + [Refusal(0, line, if IsCredit(line) then KindUnsaid else NoSide)]
  {
  }

  lemma {:induction false} NothingAsStreams(b: Book, posting: Date)
    ensures AsStreams(b, NOTHING_READ, [], posting) && RefusesAsStreams(b, NOTHING_READ, [], posting)
  {
  }

  lemma {:induction false} LineAsStreams(b: Book, r: Statements.Reading, lines: seq<StatementLine>, line: StatementLine, posting: Date)
    requires Valid(b) && ReadingOk(b, r, lines, posting)
    requires AsStreams(b, r, lines, posting) && RefusesAsStreams(b, r, lines, posting)
    ensures var r' := ReadLine(b, r, |lines|, line, posting);
      AsStreams(b, r', lines + [line], posting) && RefusesAsStreams(b, r', lines + [line], posting)
  {
    hide AsStreams, RefusesAsStreams, Valid, ReadingOk;
    if IsPayment(line) {
      PaymentAsStream(b, r, lines, line, posting);
    } else if IsReceipt(line) {
      ReceiptAsStream(b, r, lines, line, posting);
    } else if IsReturn(line) || IsRefund(line) {
      NotedAsStream(b, r, lines, line, posting);
    } else {
      OtherAsStream(b, r, lines, line, posting);
    }
  }

  lemma {:induction false} ReadsAsStreams(b: Book, lines: seq<StatementLine>, posting: Date)
    requires Valid(b)
    ensures AsStreams(b, ReadLines(b, lines, posting), lines, posting)
    ensures RefusesAsStreams(b, ReadLines(b, lines, posting), lines, posting)
  {
    hide AsStreams, RefusesAsStreams, Valid, ReadingOk, ReadLine;
    if |lines| == 0 {
      NothingAsStreams(b, posting);
      assert lines == [];
    } else {
      var before, line := lines[..|lines| - 1], lines[|lines| - 1];
      ReadsAsStreams(b, before, posting);
      ReadLinesOk(b, before, posting);
      LineAsStreams(b, ReadLines(b, before, posting), before, line, posting);
      assert before + [line] == lines;
    }
  }

  // ----- posting reads only what the entries are, not where their lines stood -----

  lemma {:induction false} SamePayees(s: seq<Entry>, t: seq<Entry>)
    requires Bare(s) == Bare(t)
    ensures Payees(s) == Payees(t)
  {
    assert |s| == |t|;
    if |s| > 0 {
      var n := |s| - 1;
      assert Bare(s)[n] == Bare(t)[n];
      assert Bare(s[..n]) == Bare(s)[..n] == Bare(t)[..n] == Bare(t[..n]);
      SamePayees(s[..n], t[..n]);
    }
  }

  lemma {:induction false} SameGroup(s: seq<Entry>, t: seq<Entry>, p: Payee)
    requires Bare(s) == Bare(t)
    ensures Bare(GroupOf(s, p)) == Bare(GroupOf(t, p))
  {
    assert |s| == |t|;
    if |s| > 0 {
      var n := |s| - 1;
      assert Bare(s)[n] == Bare(t)[n];
      assert Bare(s[..n]) == Bare(s)[..n] == Bare(t)[..n] == Bare(t[..n]);
      SameGroup(s[..n], t[..n], p);
      BareAppend(GroupOf(s[..n], p), if PayeeOf(s[n].what.item) == p then [s[n]] else []);
      BareAppend(GroupOf(t[..n], p), if PayeeOf(t[n].what.item) == p then [t[n]] else []);
    }
  }

  lemma {:induction false} SameRows(side: Side, s: seq<Entry>, t: seq<Entry>, doc: nat)
    requires Bare(s) == Bare(t)
    ensures PlainRows(RowsOf(side, s, doc)) == PlainRows(RowsOf(side, t, doc))
  {
    var x, y := PlainRows(RowsOf(side, s, doc)), PlainRows(RowsOf(side, t, doc));
    assert |s| == |t|;
    forall i | 0 <= i < |s| ensures x[i] == y[i] {
      assert Bare(s)[i] == Bare(t)[i];
    }
  }

  lemma {:induction false} PlainAppend(s: seq<Row>, t: seq<Row>)
    ensures PlainRows(s + t) == PlainRows(s) + PlainRows(t)
  {
  }

  lemma {:induction false} SamePosting(b: Book, side: Side, s: seq<Entry>, t: seq<Entry>, payees: seq<Payee>, posting: Date, statement: string)
    requires Bare(s) == Bare(t)
    ensures var p, q := PostGroups(b, side, s, payees, posting, statement), PostGroups(b, side, t, payees, posting, statement);
      p.book == q.book && PlainRows(p.rows) == PlainRows(q.rows)
  {
    if |payees| > 0 {
      var rest, payee := payees[..|payees| - 1], payees[|payees| - 1];
      SamePosting(b, side, s, t, rest, posting, statement);
      SameGroup(s, t, payee);
      var p, q := PostGroups(b, side, s, rest, posting, statement), PostGroups(b, side, t, rest, posting, statement);
      SameRows(side, GroupOf(s, payee), GroupOf(t, payee), p.book.next);
      PlainAppend(p.rows, RowsOf(side, GroupOf(s, payee), p.book.next));
      PlainAppend(q.rows, RowsOf(side, GroupOf(t, payee), p.book.next));
    }
  }

  ghost predicate SameReturns(x: Returns, y: Returns) {
    x.book == y.book && PlainRows(x.rows) == PlainRows(y.rows) && PlainRefused(x.refused) == PlainRefused(y.refused)
  }

  lemma {:induction false} SameReturnOne(x: Returns, y: Returns, m: Noted, n: Noted, posting: Date)
    requires SameReturns(x, y) && m.line == n.line
    ensures SameReturns(ReturnOne(x, m, posting), ReturnOne(y, n, posting))
  {
    match Match(x.book, m.line, ClearedItems(x.book, SupplierLine)) {
      case Refused(reason) =>
        RefusedSnoc(x.refused, Refusal(m.at, m.line, reason));
        RefusedSnoc(y.refused, Refusal(n.at, n.line, reason));
      case Found(it, reference) =>
        PlainAppend(x.rows, [ReturnRow(m, it, reference, x.book.next)]);
        PlainAppend(y.rows, [ReturnRow(n, it, reference, x.book.next)]);
    }
  }

  lemma {:induction false} SameReturnAll(b: Book, s: seq<Noted>, t: seq<Noted>, posting: Date)
    requires LinesOf(s) == LinesOf(t)
    ensures SameReturns(ReturnAll(b, s, posting), ReturnAll(b, t, posting))
  {
    assert |s| == |t|;
    if |s| > 0 {
      var n := |s| - 1;
      assert LinesOf(s)[n] == LinesOf(t)[n];
      assert LinesOf(s[..n]) == LinesOf(s)[..n] == LinesOf(t)[..n] == LinesOf(t[..n]);
      SameReturnAll(b, s[..n], t[..n], posting);
      SameReturnOne(ReturnAll(b, s[..n], posting), ReturnAll(b, t[..n], posting), s[n], t[n], posting);
    }
  }

  lemma {:induction false} SameReopenAll(b: Book, m: Noted, n: Noted, items: seq<Quote>, posting: Date)
    requires m.line == n.line
    ensures var p, q := ReopenAll(b, m, items, posting), ReopenAll(b, n, items, posting);
      p.book == q.book && PlainRows(p.rows) == PlainRows(q.rows)
  {
    if |items| > 0 {
      var rest, last := items[..|items| - 1], items[|items| - 1];
      SameReopenAll(b, m, n, rest, posting);
      var p, q := ReopenAll(b, m, rest, posting), ReopenAll(b, n, rest, posting);
      PlainAppend(p.rows, [ReturnRow(m, last.item, last.reference, p.book.next)]);
      PlainAppend(q.rows, [ReturnRow(n, last.item, last.reference, p.book.next)]);
    }
  }

  lemma {:induction false} SameRefundOne(x: Returns, y: Returns, m: Noted, n: Noted, posting: Date)
    requires SameReturns(x, y) && m.line == n.line
    ensures SameReturns(RefundOne(x, m, posting), RefundOne(y, n, posting))
  {
    match MatchReturnedReceipt(x.book, m.line, ClearedItems(x.book, CustomerLine)) {
      case Stays(reason) =>
        RefusedSnoc(x.refused, Refusal(m.at, m.line, reason));
        RefusedSnoc(y.refused, Refusal(n.at, n.line, reason));
      case Reopens(items) =>
        SameReopenAll(x.book, m, n, items, posting);
        PlainAppend(x.rows, ReopenAll(x.book, m, items, posting).rows);
        PlainAppend(y.rows, ReopenAll(x.book, n, items, posting).rows);
    }
  }

  lemma {:induction false} SameRefundAll(b: Book, s: seq<Noted>, t: seq<Noted>, posting: Date)
    requires LinesOf(s) == LinesOf(t)
    ensures SameReturns(RefundAll(b, s, posting), RefundAll(b, t, posting))
  {
    assert |s| == |t|;
    if |s| > 0 {
      var n := |s| - 1;
      assert LinesOf(s)[n] == LinesOf(t)[n];
      assert LinesOf(s[..n]) == LinesOf(s)[..n] == LinesOf(t)[..n] == LinesOf(t[..n]);
      SameRefundAll(b, s[..n], t[..n], posting);
      SameRefundOne(RefundAll(b, s[..n], posting), RefundAll(b, t[..n], posting), s[n], t[n], posting);
    }
  }

  // ----- the theorem -----

  /** Two statements of the same four streams, interleaved differently. */
  ghost predicate SameStreams(lines: seq<StatementLine>, other: seq<StatementLine>) {
    && Payments(lines) == Payments(other) && Receipts(lines) == Receipts(other)
    && ReturnedPayments(lines) == ReturnedPayments(other) && RefundedReceipts(lines) == RefundedReceipts(other)
  }

  /** They leave the identical ledger, document numbers included, and report the same clearings
      and reversals in the same posting order, up to where their lines stand. If what neither
      could place is the same too, they report the same lines unprocessed. */
  lemma {:induction false} InterleavingIsImmaterial(b: Book, lines: seq<StatementLine>, other: seq<StatementLine>,
                                                    posting: Date, statement: string)
    requires Valid(b) && SameStreams(lines, other)
    ensures var x, y := Apply(b, lines, posting, statement), Apply(b, other, posting, statement);
      && x.book == y.book
      && PlainRows(x.cleared) == PlainRows(y.cleared) && PlainRows(x.reopened) == PlainRows(y.reopened)
      && (Others(lines) == Others(other)
          ==> multiset(PlainRefused(x.unprocessed)) == multiset(PlainRefused(y.unprocessed)))
  {
    var x, y := StagesOf(b, lines, posting, statement), StagesOf(b, other, posting, statement);
    ReadsAsStreams(b, lines, posting);
    ReadsAsStreams(b, other, posting);
    SamePayees(x.read.settling, y.read.settling);
    SamePosting(b, SupplierLine, x.read.settling, y.read.settling, Payees(x.read.settling), posting, statement);
    SamePayees(x.read.receiving, y.read.receiving);
    SamePosting(x.paid.book, CustomerLine, x.read.receiving, y.read.receiving, Payees(x.read.receiving), posting, statement);
    SameReturnAll(x.received.book, x.read.returning, y.read.returning, posting);
    SameRefundAll(x.returned.book, x.read.refunding, y.read.refunding, posting);
    PlainAppend(x.paid.rows, x.received.rows);
    PlainAppend(y.paid.rows, y.received.rows);
    PlainAppend(x.returned.rows, x.refunded.rows);
    PlainAppend(y.returned.rows, y.refunded.rows);
    PlainRefusals(x.read.unprocessed, x.returned.refused, x.refunded.refused);
    PlainRefusals(y.read.unprocessed, y.returned.refused, y.refunded.refused);
  }

  lemma {:induction false} PlainRefusals(s: seq<Refusal>, t: seq<Refusal>, u: seq<Refusal>)
    ensures multiset(PlainRefused(s + t + u))
         == multiset(PlainRefused(s)) + multiset(PlainRefused(t)) + multiset(PlainRefused(u))
  {
    assert PlainRefused(s + t + u) == PlainRefused(s) + PlainRefused(t) + PlainRefused(u);
  }
}
