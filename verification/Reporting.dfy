/** What a client is shown: the lists of the outcome in the statement's own line order. */
module Reporting {
  import opened Common
  import opened Terms
  import opened Sorting
  import opened Books
  import opened Matching
  import opened Statements
  import opened Partition

  function Report(out: Outcome): Outcome {
    out.(cleared := InOrderOf(out.cleared, (row: Row) => row.at),
         reopened := InOrderOf(out.reopened, (row: Row) => row.at),
         unprocessed := InOrderOf(out.unprocessed, (u: Refusal) => u.at))
  }

  ghost predicate RowsReported(rows: seq<Row>, shown: seq<Row>, a: nat) {
    && Sorted(shown, (row: Row) => row.at)
    && Filter(shown, (row: Row) => row.at == a) == Filter(rows, (row: Row) => row.at == a)
  }

  lemma {:induction false} ReportedRows(rows: seq<Row>, a: nat)
    ensures var shown := InOrderOf(rows, (row: Row) => row.at);
      RowsReported(rows, shown, a) && RowsAt(shown, a) == RowsAt(rows, a) && AmountAt(shown, a) == AmountAt(rows, a)
  {
    var at := (row: Row) => row.at;
    OrderStable(rows, at, a, (row: Row) => row.at == a);
    OrderSum(rows, at, (row: Row) => if row.at == a then 1 else 0);
    OrderSum(rows, at, (row: Row) => if row.at == a then row.amount else 0);
  }

  lemma {:induction false} ReportedRefusals(refused: seq<Refusal>, a: nat)
    ensures var shown := InOrderOf(refused, (u: Refusal) => u.at);
      Sorted(shown, (u: Refusal) => u.at) && RefusedAt(shown, a) == RefusedAt(refused, a)
  {
    var at := (u: Refusal) => u.at;
    OrderSorted(refused, at);
    OrderSum(refused, at, (u: Refusal) => if u.at == a then 1 else 0);
  }

  /** Each list is in line order, a line's rows stay together in the order they were posted in,
      and every line is accounted for as it was posted. */
  lemma {:induction false} ReportAccounts(b: Book, lines: seq<StatementLine>, posting: Date, statement: string, a: nat)
    requires Valid(b) && a < |lines|
    ensures var out, shown := Apply(b, lines, posting, statement), Report(Apply(b, lines, posting, statement));
      && Accounted(shown, a, lines[a])
      && RowsReported(out.cleared, shown.cleared, a) && RowsReported(out.reopened, shown.reopened, a)
      && Sorted(shown.unprocessed, (u: Refusal) => u.at)
  {
    var out := Apply(b, lines, posting, statement);
    LinePartition(b, lines, posting, statement, a);
    ReportedRows(out.cleared, a);
    ReportedRows(out.reopened, a);
    ReportedRefusals(out.unprocessed, a);
    SameCounts(out, Report(out), a, lines[a]);
  }

  lemma {:induction false} SameCounts(out: Outcome, shown: Outcome, a: nat, line: StatementLine)
    requires Accounted(out, a, line)
    requires RowsAt(shown.cleared, a) == RowsAt(out.cleared, a) && AmountAt(shown.cleared, a) == AmountAt(out.cleared, a)
    requires RowsAt(shown.reopened, a) == RowsAt(out.reopened, a) && AmountAt(shown.reopened, a) == AmountAt(out.reopened, a)
    requires RefusedAt(shown.unprocessed, a) == RefusedAt(out.unprocessed, a)
    ensures Accounted(shown, a, line)
  {
    CountsRows(out.cleared, a);
    CountsRows(shown.cleared, a);
    CountsRows(out.reopened, a);
    CountsRows(shown.reopened, a);
    CountsRefused(out.unprocessed, a);
    CountsRefused(shown.unprocessed, a);
  }
}
