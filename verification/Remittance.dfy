/** What one payment document settled, as the supplier has to be told. */
module Remittance {
  import opened Common
  import opened Money
  import opened Text
  import opened Terms
  import opened Books
  import opened Totals
  import opened Matching
  import opened Posting
  import opened Statements
  import opened Grouping
  import opened Returning
  import opened Quoting
  import opened Claims
  import opened Later
  import opened Runs
  import opened Sorting

  datatype Advised = Advised(invoice: Key, reference: string, amount: int, item: nat)

  datatype Advice = Advice(header: Header, payees: set<string>, total: int, rows: seq<Advised>)

  datatype Declined = NoDocument | SettledNothing | DoesNotBalance

  datatype Answer = Advises(advice: Advice) | Declines(why: Declined)

  function HeaderOf(headers: seq<Header>, doc: nat): Option<Header> {
    if |headers| == 0 then None
    else if headers[0].doc == doc then Some(headers[0])
    else HeaderOf(headers[1..], doc)
  }

  predicate SettledBy(it: Item, doc: nat) {
    it.clearing.Cleared? && it.clearing.doc == doc && it.key.doc != doc && it.line.side == SupplierLine
  }

  function ClearingPos(it: Item): nat {
    match it.clearing case Cleared(_, pos, _, _) => pos case Open(_) => 0
  }

  /** The items it settled, in order of the line each points at. */
  function SettledRows(b: Book, doc: nat): seq<Item> {
    InOrderOf(Filter(b.items, (it: Item) => SettledBy(it, doc)), (it: Item) => ClearingPos(it))
  }

  /** The document's line at a position; the last, should there be several. */
  function LineAt(items: seq<Item>, doc: nat, pos: nat): Option<Item> {
    if |items| == 0 then None
    else
      var last := items[|items| - 1];
      if last.key.doc == doc && last.key.pos == pos then Some(last) else LineAt(items[..|items| - 1], doc, pos)
  }

  /** What the payment paid for an item: the line it points at, or its own amount if there is none. */
  function AdvisedAmount(b: Book, doc: nat, it: Item): int {
    match LineAt(b.items, doc, ClearingPos(it)) case Some(paid) => paid.line.amount case None => it.line.amount
  }

  function AdvisedRow(b: Book, doc: nat, it: Item): Advised {
    Advised(it.key, ReferenceOf(b, it), AdvisedAmount(b, doc, it), ClearingPos(it))
  }

  predicate BankRow(b: Book, doc: nat, row: Item) {
    row.key.doc == doc && row.line.supplier == "" && LineAt(b.items, doc, row.key.pos) == Some(row)
  }

  function BankRows(b: Book, doc: nat): seq<Item> {
    Filter(b.items, (row: Item) => BankRow(b, doc, row))
  }

  function SettlementOf(b: Book, doc: nat): Answer {
    match HeaderOf(b.headers, doc)
    case None => Declines(NoDocument)
    case Some(header) =>
      var settled := SettledRows(b, doc);
      if settled == [] then Declines(SettledNothing)
      else
        var total := Sum(settled, (it: Item) => AdvisedAmount(b, doc, it));
        var bank := BankRows(b, doc);
        if bank != [] && Sum(bank, (row: Item) => row.line.amount) != total then Declines(DoesNotBalance)
        else Advises(Advice(header, set it | it in settled :: it.line.supplier, total,
                            Map(settled, (it: Item) => AdvisedRow(b, doc, it))))
  }

  // ----- a payment's remittance, as long as its items stay paid -----

  ghost predicate PaysWhole(group: seq<Settling>) {
    AllWhole(group) && forall i :: 0 <= i < |group| ==> AmountOf(group[i].line) == Owed(group[i])
  }

  /** `d` is a later ledger than the one `Pay` left. */
  ghost predicate PaidThen(b: Book, group: seq<Settling>, posting: Date, statement: string, d: Book) {
    && Valid(b) && Ready(b, group, SupplierLine) && PaysWhole(group) && Valid(d)
    && Follows(Pay(b, group, posting, statement), d)
  }

  /** Item `i` of the group is still cleared by the payment. */
  ghost predicate StillPaid(d: Book, group: seq<Settling>, i: nat, doc: nat)
    requires i < |group|
  {
    exists j :: 0 <= j < |d.items| && d.items[j].key == group[i].item.key && SettledBy(d.items[j], doc)
  }

  lemma {:induction false} PayIs(b: Book, group: seq<Settling>, posting: Date, statement: string)
    requires Valid(b) && Ready(b, group, SupplierLine)
    ensures Pay(b, group, posting, statement)
         == b.(items := TouchRows(b.items, SettlingChanges(group, b.next, posting))
                        + OwnRows(b.next, HeadingOf(group[0].item, "ZP", posting, statement), PayLines(group), SupplierLine, None),
               headers := b.headers + [NewHeader(b.next, HeadingOf(group[0].item, "ZP", posting, statement))],
               invoices := ReleaseRows(b.invoices, SettlingChanges(group, b.next, posting)), next := b.next + 1)
  {
    ReadyChanges(b, group, SupplierLine, posting);
    SettleIs(b, HeadingOf(group[0].item, "ZP", posting, statement), PayLines(group),
             SettlingChanges(group, b.next, posting), SupplierLine, None);
  }

  lemma {:induction false} LineAtIs(items: seq<Item>, doc: nat, pos: nat, k: nat)
    requires k < |items| && items[k].key.doc == doc && items[k].key.pos == pos
    requires forall j :: 0 <= j < |items| && j != k ==> !(items[j].key.doc == doc && items[j].key.pos == pos)
    ensures LineAt(items, doc, pos) == Some(items[k])
  {
    if k < |items| - 1 {
      LineAtIs(items[..|items| - 1], doc, pos, k);
    }
  }

  /** The payment's own row at position `k + 1`, found at the same place in any later ledger. */
  lemma {:induction false} OwnRowLater(b: Book, group: seq<Settling>, posting: Date, statement: string, d: Book, k: nat)
    requires PaidThen(b, group, posting, statement, d) && k <= |group|
    ensures var j, it := |b.items| + k, NewItem(b.next, HeadingOf(group[0].item, "ZP", posting, statement), k + 1, PayLines(group)[k]);
      j < |d.items| && d.items[j].key == it.key && d.items[j].line == it.line
  {
    hide NewItem, PayLines, Settle, Valid, PaysWhole, TouchAll, ClearsForward, ReadyAt, HeadingOf;
    var c := Pay(b, group, posting, statement);
    var own := OwnRows(b.next, HeadingOf(group[0].item, "ZP", posting, statement), PayLines(group), SupplierLine, None);
    PayIs(b, group, posting, statement);
    PayLinesCount(group);
    assert c.items[|b.items| + k] == own[k];
    assert RowIs(d.items[|b.items| + k], c.items[|b.items| + k]);
  }

  lemma {:induction false} PayLinesCount(group: seq<Settling>)
    ensures |PayLines(group)| == |group| + 1
  {
  }

  lemma {:induction false} PaidLineLater(b: Book, group: seq<Settling>, posting: Date, statement: string, d: Book, k: nat)
    requires PaidThen(b, group, posting, statement, d) && k < |group|
    ensures var j := |b.items| + k;
      j < |d.items| && d.items[j].line.amount == AmountOf(group[k].line) && d.items[j].line.supplier != ""
  {
    OwnRowLater(b, group, posting, statement, d, k);
    var _ := ReadyItem(b, group, SupplierLine, k);
    assert PayLines(group)[k] == PayLine(group[k]);
    WholeCentsStay(AmountOf(group[k].line));
  }

  lemma {:induction false} BankLineLater(b: Book, group: seq<Settling>, posting: Date, statement: string, d: Book)
    requires PaidThen(b, group, posting, statement, d)
    ensures var j := |b.items| + |group|;
      j < |d.items| && d.items[j].line.amount == Paid(group) && d.items[j].line.supplier == ""
  {
    hide Valid, Follows, Pay, Settle, NewItem;
    OwnRowLater(b, group, posting, statement, d, |group|);
    BankLineIs(b.next, HeadingOf(group[0].item, "ZP", posting, statement), group);
  }

  lemma {:induction false} BankLineIs(doc: nat, h: Heading, group: seq<Settling>)
    requires AllWhole(group)
    ensures var it := NewItem(doc, h, |group| + 1, PayLines(group)[|group|]);
      it.line.amount == Paid(group) && it.line.supplier == ""
  {
    hide AtCents, Sum;
    PaidWhole(group);
    WholeCentsStay(-Paid(group));
  }

  ghost predicate OnlyRows(d: Book, doc: nat, m: nat, n: nat) {
    m + n < |d.items| && forall j :: 0 <= j < |d.items| ==>
      (d.items[j].key.doc == doc <==> m <= j <= m + n) && (m <= j <= m + n ==> d.items[j].key.pos == j - m + 1)
  }

  /** Its rows are all there is of the document in any later ledger. */
  lemma {:induction false} OwnRowsLater(b: Book, group: seq<Settling>, posting: Date, statement: string, d: Book)
    requires PaidThen(b, group, posting, statement, d)
    ensures OnlyRows(d, b.next, |b.items|, |group|)
  {
    var c := Pay(b, group, posting, statement);
    var m, n := |b.items|, |group|;
    PayIs(b, group, posting, statement);
    forall j | 0 <= j < |d.items|
      ensures (d.items[j].key.doc == b.next <==> m <= j <= m + n) && (m <= j <= m + n ==> d.items[j].key.pos == j - m + 1)
    {
      if j < m {
        TouchAllKeeps(b.items[j], SettlingChanges(group, b.next, posting));
        assert ValidItem(b.items[j], b.next);
        assert RowIs(d.items[j], c.items[j]);
      } else if j <= m + n {
        OwnRowLater(b, group, posting, statement, d, j - m);
      }
    }
  }

  lemma {:induction false} LineAtOwn(d: Book, doc: nat, m: nat, n: nat, k: nat)
    requires OnlyRows(d, doc, m, n) && k <= n
    ensures LineAt(d.items, doc, k + 1) == Some(d.items[m + k])
  {
    LineAtIs(d.items, doc, k + 1, m + k);
  }

  /** A row the payment settles in a later ledger was settled by it at once. */
  lemma {:induction false} SettledBefore(b: Book, group: seq<Settling>, posting: Date, statement: string, d: Book, j: nat)
    requires PaidThen(b, group, posting, statement, d) && j < |d.items| && SettledBy(d.items[j], b.next)
    ensures var c := Pay(b, group, posting, statement);
      && j < |b.items| < |c.items| && c.items[j].clearing == d.items[j].clearing && SettledBy(c.items[j], b.next)
      && c.items[j] == TouchAll(b.items[j], SettlingChanges(group, b.next, posting)) && RowIs(d.items[j], c.items[j])
  {
    var c := Pay(b, group, posting, statement);
    PayIs(b, group, posting, statement);
    OwnRowsLater(b, group, posting, statement, d);
    assert RowIs(d.items[j], c.items[j]);
  }

  /** And it is one of the group's, at that item's place. */
  lemma {:induction false} SettledIsGroup(b: Book, group: seq<Settling>, posting: Date, statement: string, d: Book, j: nat)
    returns (i: nat)
    requires PaidThen(b, group, posting, statement, d) && j < |d.items| && SettledBy(d.items[j], b.next)
    ensures j < |b.items| && i < |group| && RowIs(d.items[j], group[i].item)
    ensures d.items[j].clearing == Cleared(b.next, i + 1, posting.year, posting)
  {
    hide Pay, Follows, PaysWhole, TouchAll, ReadyAt, ItemOk;
    SettledBefore(b, group, posting, statement, d, j);
    i := GroupOfTouched(b, group, posting, j);
    TouchAllKeeps(b.items[j], SettlingChanges(group, b.next, posting));
  }

  /** A row of before that the payment cleared is one of the group's items. */
  lemma {:induction false} GroupOfTouched(b: Book, group: seq<Settling>, posting: Date, j: nat) returns (i: nat)
    requires Valid(b) && Ready(b, group, SupplierLine) && j < |b.items|
    requires SettledBy(TouchAll(b.items[j], SettlingChanges(group, b.next, posting)), b.next)
    ensures i < |group| && RowIs(b.items[j], group[i].item)
    ensures TouchAll(b.items[j], SettlingChanges(group, b.next, posting)).clearing == Cleared(b.next, i + 1, posting.year, posting)
  {
    hide TouchAll, ReadyAt, ItemOk, ChangesOld;
    var changes := SettlingChanges(group, b.next, posting);
    ReadyChanges(b, group, SupplierLine, posting);
    TouchAllKeeps(b.items[j], changes);
    assert ValidItem(b.items[j], b.next);
    i :| 0 <= i < |changes| && changes[i].key == b.items[j].key;
    TouchAllSets(b.items[j], changes, i);
    var k := ReadyItem(b, group, SupplierLine, i);
    assert k == j;
  }

  /** What the remittance gives for a settled row is the line that paid it: the item's own amount. */
  lemma {:induction false} AdvisedIs(b: Book, group: seq<Settling>, posting: Date, statement: string, d: Book, j: nat)
    requires PaidThen(b, group, posting, statement, d) && j < |d.items| && SettledBy(d.items[j], b.next)
    ensures AdvisedAmount(d, b.next, d.items[j]) == d.items[j].line.amount
  {
    hide Pay, Follows, LineAt, OnlyRows, KeysUnique, Ready;
    var i := SettledIsGroup(b, group, posting, statement, d, j);
    OwnRowsLater(b, group, posting, statement, d);
    LineAtOwn(d, b.next, |b.items|, |group|, i);
    PaidLineLater(b, group, posting, statement, d, i);
    assert ValidItem(d.items[j], d.next);
  }

  ghost function SettledAmount(it: Item, doc: nat): int {
    if SettledBy(it, doc) then it.line.amount else 0
  }

  lemma {:induction false} TotalIs(b: Book, group: seq<Settling>, posting: Date, statement: string, d: Book)
    requires PaidThen(b, group, posting, statement, d)
    ensures Sum(SettledRows(d, b.next), (it: Item) => AdvisedAmount(d, b.next, it))
         == Sum(d.items, (it: Item) => SettledAmount(it, b.next))
  {
    var settled := (it: Item) => SettledBy(it, b.next);
    var advised := (it: Item) => AdvisedAmount(d, b.next, it);
    var g := (it: Item) => if SettledBy(it, b.next) then AdvisedAmount(d, b.next, it) else 0;
    OrderSum(Filter(d.items, settled), (it: Item) => ClearingPos(it), advised);
    FilterSum(d.items, settled, advised, g);
    forall j | 0 <= j < |d.items| ensures g(d.items[j]) == SettledAmount(d.items[j], b.next) {
      if SettledBy(d.items[j], b.next) {
        AdvisedIs(b, group, posting, statement, d, j);
      }
    }
    SumAgree(d.items, g, d.items, (it: Item) => SettledAmount(it, b.next));
  }

  lemma {:induction false} SumOnly<T>(s: seq<T>, f: T -> int, k: nat)
    requires k < |s| && forall j :: 0 <= j < |s| && j != k ==> f(s[j]) == 0
    ensures Sum(s, f) == f(s[k])
  {
    var n := |s| - 1;
    if k == n {
      SumZero(s[..n], f);
    } else {
      SumOnly(s[..n], f, k);
    }
  }

  lemma {:induction false} OnlyBankRow(b: Book, group: seq<Settling>, posting: Date, statement: string, d: Book, j: nat)
    requires PaidThen(b, group, posting, statement, d) && j < |d.items|
    ensures BankRow(d, b.next, d.items[j]) <==> j == |b.items| + |group|
  {
    hide Settle, SettlingChanges, OnlyRows, ClearsForward;
    var m, n := |b.items|, |group|;
    OwnRowsLater(b, group, posting, statement, d);
    BankLineLater(b, group, posting, statement, d);
    LineAtOwn(d, b.next, m, n, n);
    if m <= j < m + n {
      PaidLineLater(b, group, posting, statement, d, j - m);
    }
  }

  /** The payment's one bank row carries all it paid. */
  lemma {:induction false} BankIs(b: Book, group: seq<Settling>, posting: Date, statement: string, d: Book)
    requires PaidThen(b, group, posting, statement, d)
    ensures BankRows(d, b.next) != []
    ensures Sum(BankRows(d, b.next), (row: Item) => row.line.amount) == Paid(group)
  {
    hide SettlingChanges, ClearsForward, HeadingOf, Filter, BankRow, PaysWhole, ReadyAt;
    var k := |b.items| + |group|;
    var mine := (row: Item) => BankRow(d, b.next, row);
    var f := (row: Item) => if BankRow(d, b.next, row) then row.line.amount else 0;
    BankLineLater(b, group, posting, statement, d);
    forall j | 0 <= j < |d.items| ensures BankRow(d, b.next, d.items[j]) <==> j == k {
      OnlyBankRow(b, group, posting, statement, d, j);
    }
    FilterMember(d.items, mine, d.items[k]);
    FilterSum(d.items, mine, (row: Item) => row.line.amount, f);
    SumOnly(d.items, f, k);
  }

  /** Just after the payment, what it settled comes to what it paid. */
  lemma {:induction false} SettledAtOnce(b: Book, group: seq<Settling>, posting: Date, statement: string)
    requires Valid(b) && Ready(b, group, SupplierLine) && PaysWhole(group)
    ensures Sum(Pay(b, group, posting, statement).items, (it: Item) => SettledAmount(it, b.next)) == Paid(group)
  {
    hide TouchRows, OwnRows, Settle, PayLines, Sum, ReleaseRows, PaysWhole, Valid, ReadyAt;
    var g := (it: Item) => SettledAmount(it, b.next);
    var changes := SettlingChanges(group, b.next, posting);
    var h := HeadingOf(group[0].item, "ZP", posting, statement);
    PayIs(b, group, posting, statement);
    SettledRowsSum(b, group, posting);
    OwnUnsettled(b.next, h, PayLines(group));
    SumAppend(TouchRows(b.items, changes), OwnRows(b.next, h, PayLines(group), SupplierLine, None), g);
  }

  lemma {:induction false} OwnUnsettled(doc: nat, h: Heading, lines: seq<PostLine>)
    ensures Sum(OwnRows(doc, h, lines, SupplierLine, None), (it: Item) => SettledAmount(it, doc)) == 0
  {
    SumZero(OwnRows(doc, h, lines, SupplierLine, None), (it: Item) => SettledAmount(it, doc));
  }

  lemma {:induction false} SettledRowsSum(b: Book, group: seq<Settling>, posting: Date)
    requires Valid(b) && Ready(b, group, SupplierLine) && PaysWhole(group)
    ensures Sum(TouchRows(b.items, SettlingChanges(group, b.next, posting)), (it: Item) => SettledAmount(it, b.next)) == Paid(group)
  {
    hide Sum;
    var g := (it: Item) => SettledAmount(it, b.next);
    var changes := SettlingChanges(group, b.next, posting);
    var rows := PaidItems(b, group);
    ReadyChanges(b, group, SupplierLine, posting);
    var moved := seq(|group|, i requires 0 <= i < |group| => AmountOf(group[i].line));
    forall i | 0 <= i < |b.items| ensures g(b.items[i]) == 0 {
      assert ValidItem(b.items[i], b.next);
    }
    forall i | 0 <= i < |group| ensures moved[i] == g(rows[i].(clearing := changes[i].clearing)) - g(rows[i]) {
      var k := ReadyItem(b, group, SupplierLine, i);
      assert ReadyAt(b, group[i].item, SupplierLine);
      var l :| 0 <= l < |b.items| && b.items[l] == rows[i];
    }
    BatchSum(b.items, changes, rows, g, moved);
    SumZero(b.items, g);
    SumAgree(moved, (x: int) => x, group, (s: Settling) => AmountOf(s.line));
  }

  lemma {:induction false} PaidItems(b: Book, group: seq<Settling>) returns (rows: seq<Item>)
    requires Valid(b) && Ready(b, group, SupplierLine)
    ensures |rows| == |group|
    ensures forall i :: 0 <= i < |rows| ==> rows[i] in b.items && RowIs(rows[i], group[i].item)
  {
    rows := [];
    for n := 0 to |group|
      invariant |rows| == n
      invariant forall i :: 0 <= i < n ==> rows[i] in b.items && RowIs(rows[i], group[i].item)
    {
      var k := ReadyItem(b, group, SupplierLine, n);
      rows := rows + [b.items[k]];
    }
  }

  lemma {:induction false} SumLess<T>(s: seq<T>, t: seq<T>, f: T -> int)
    requires |s| <= |t| && (forall i :: 0 <= i < |s| ==> f(t[i]) <= f(s[i])) && (forall i :: |s| <= i < |t| ==> f(t[i]) == 0)
    ensures Sum(t, f) <= Sum(s, f)
    ensures Sum(t, f) == Sum(s, f) <==> forall i :: 0 <= i < |s| ==> f(t[i]) == f(s[i])
  {
    if |t| > |s| {
      SumLess(s, t[..|t| - 1], f);
    } else if |s| > 0 {
      var u, v := s[..|s| - 1], t[..|t| - 1];
      SumLess(u, v, f);
      assert forall i :: 0 <= i < |u| ==> u[i] == s[i] && v[i] == t[i];
    }
  }

  /** Some item worth something has been reopened since. */
  ghost predicate Lost(d: Book, group: seq<Settling>, doc: nat) {
    exists i :: 0 <= i < |group| && !StillPaid(d, group, i, doc) && Owed(group[i]) != 0
  }

  lemma {:induction false} TotalAgainstBank(b: Book, group: seq<Settling>, posting: Date, statement: string, d: Book)
    requires PaidThen(b, group, posting, statement, d)
    ensures Sum(d.items, (it: Item) => SettledAmount(it, b.next)) == Paid(group) <==> !Lost(d, group, b.next)
  {
    var c := Pay(b, group, posting, statement);
    var g := (it: Item) => SettledAmount(it, b.next);
    SettledAtOnce(b, group, posting, statement);
    forall j | 0 <= j < |d.items|
      ensures j < |c.items| ==> g(d.items[j]) <= g(c.items[j])
      ensures j >= |c.items| ==> g(d.items[j]) == 0
    {
      assert ValidItem(d.items[j], d.next);
      if j < |c.items| {
        assert RowIs(d.items[j], c.items[j]);
      }
      if SettledBy(d.items[j], b.next) {
        var _ := SettledIsGroup(b, group, posting, statement, d, j);
        PayIs(b, group, posting, statement);
      }
    }
    SumLess(c.items, d.items, g);
    LostIsLess(b, group, posting, statement, d);
  }

  lemma {:induction false} LostIsLess(b: Book, group: seq<Settling>, posting: Date, statement: string, d: Book)
    requires PaidThen(b, group, posting, statement, d)
    ensures var c := Pay(b, group, posting, statement);
      Lost(d, group, b.next)
      <==> exists j :: 0 <= j < |c.items| && SettledAmount(d.items[j], b.next) != SettledAmount(c.items[j], b.next)
  {
    var c := Pay(b, group, posting, statement);
    if Lost(d, group, b.next) {
      var i :| 0 <= i < |group| && !StillPaid(d, group, i, b.next) && Owed(group[i]) != 0;
      var j := LostRow(b, group, posting, statement, d, i);
    }
    forall j | 0 <= j < |c.items| && SettledAmount(d.items[j], b.next) != SettledAmount(c.items[j], b.next)
      ensures Lost(d, group, b.next)
    {
      RowLost(b, group, posting, statement, d, j);
    }
  }

  lemma {:induction false} LostRow(b: Book, group: seq<Settling>, posting: Date, statement: string, d: Book, i: nat) returns (j: nat)
    requires PaidThen(b, group, posting, statement, d)
    requires i < |group| && !StillPaid(d, group, i, b.next) && Owed(group[i]) != 0
    ensures var c := Pay(b, group, posting, statement);
      j < |c.items| && SettledAmount(d.items[j], b.next) != SettledAmount(c.items[j], b.next)
  {
    j := SettledInPayment(b, group, posting, statement, i);
    assert RowIs(d.items[j], Pay(b, group, posting, statement).items[j]);
    var _ := ReadyItem(b, group, SupplierLine, i);
  }

  lemma {:induction false} RowKept(b: Book, group: seq<Settling>, posting: Date, statement: string, d: Book, j: nat)
    requires PaidThen(b, group, posting, statement, d) && j < |d.items| && SettledBy(d.items[j], b.next)
    ensures var c := Pay(b, group, posting, statement);
      j < |c.items| && SettledAmount(d.items[j], b.next) == SettledAmount(c.items[j], b.next)
  {
    SettledBefore(b, group, posting, statement, d, j);
  }

  lemma {:induction false} NotStillPaid(d: Book, group: seq<Settling>, i: nat, j: nat, doc: nat)
    requires KeysUnique(d.items) && i < |group| && j < |d.items|
    requires d.items[j].key == group[i].item.key && !SettledBy(d.items[j], doc)
    ensures !StillPaid(d, group, i, doc)
  {
  }

  lemma {:induction false} RowLost(b: Book, group: seq<Settling>, posting: Date, statement: string, d: Book, j: nat)
    requires PaidThen(b, group, posting, statement, d)
    requires var c := Pay(b, group, posting, statement);
      j < |c.items| && SettledAmount(d.items[j], b.next) != SettledAmount(c.items[j], b.next)
    ensures Lost(d, group, b.next)
  {
    var c := Pay(b, group, posting, statement);
    assert RowIs(d.items[j], c.items[j]);
    if SettledBy(d.items[j], b.next) {
      RowKept(b, group, posting, statement, d, j);
    } else {
      var i := SettledByPay(b, group, posting, statement, j);
      NotStillPaid(d, group, i, j, b.next);
    }
  }

  lemma {:induction false} SettledByPay(b: Book, group: seq<Settling>, posting: Date, statement: string, j: nat) returns (i: nat)
    requires Valid(b) && Ready(b, group, SupplierLine) && PaysWhole(group)
    requires var c := Pay(b, group, posting, statement); j < |c.items| && SettledBy(c.items[j], b.next)
    ensures var c := Pay(b, group, posting, statement);
      i < |group| && c.items[j].key == group[i].item.key && Owed(group[i]) == c.items[j].line.amount
  {
    var c := Pay(b, group, posting, statement);
    PayKeeps(b, group, posting, statement);
    FollowsSelf(c);
    i := SettledIsGroup(b, group, posting, statement, c, j);
    assert ValidItem(c.items[j], c.next);
  }

  lemma {:induction false} SettledInPayment(b: Book, group: seq<Settling>, posting: Date, statement: string, i: nat) returns (j: nat)
    requires Valid(b) && Ready(b, group, SupplierLine) && i < |group|
    ensures var c := Pay(b, group, posting, statement);
      j < |c.items| && RowIs(c.items[j], group[i].item) && SettledBy(c.items[j], b.next)
  {
    var changes := SettlingChanges(group, b.next, posting);
    ReadyChanges(b, group, SupplierLine, posting);
    PayIs(b, group, posting, statement);
    j := ReadyItem(b, group, SupplierLine, i);
    TouchAllKeeps(b.items[j], changes);
    assert changes[i].key == b.items[j].key;
    TouchAllSets(b.items[j], changes, i);
    assert ReadyAt(b, group[i].item, SupplierLine);
  }

  lemma {:induction false} HeaderStays(b: Book, group: seq<Settling>, posting: Date, statement: string, d: Book)
    requires PaidThen(b, group, posting, statement, d)
    ensures group != [] && HeaderOf(d.headers, b.next) == Some(PaymentHeader(b.next, group, posting, statement))
  {
    PayIs(b, group, posting, statement);
    var k := |b.headers|;
    assert d.headers[k] == NewHeader(b.next, HeadingOf(group[0].item, "ZP", posting, statement));
    var _ := ReadyItem(b, group, SupplierLine, 0);
    assert ReadyAt(b, group[0].item, SupplierLine);
    HeaderFound(d.headers, b.next, k);
  }

  /** The header of document `doc`, paying `group`. */
  ghost function PaymentHeader(doc: nat, group: seq<Settling>, posting: Date, statement: string): Header
    requires group != []
  {
    Header(doc, group[0].item.key.company, posting.year, "ZP", posting, group[0].item.line.currency, statement)
  }

  lemma {:induction false} HeaderFound(headers: seq<Header>, doc: nat, k: nat)
    requires k < |headers| && headers[k].doc == doc && forall j :: 0 <= j < k ==> headers[j].doc != doc
    ensures HeaderOf(headers, doc) == Some(headers[k])
  {
    if k > 0 {
      assert headers[0].doc != doc;
      HeaderFound(headers[1..], doc, k - 1);
    }
  }

  /** The rows a remittance lists are the items still paid, each with what paid it. */
  ghost predicate Lists(rows: seq<Advised>, d: Book, group: seq<Settling>, doc: nat) {
    && (forall k :: 0 <= k < |rows| ==> ForSomeItem(rows[k], d, group, doc))
    && (forall i :: 0 <= i < |group| && StillPaid(d, group, i, doc) ==> ListedFor(rows, d, group, i))
    && (forall k, l :: 0 <= k < l < |rows| ==> rows[k].item <= rows[l].item)
  }

  ghost predicate ListedFor(rows: seq<Advised>, d: Book, group: seq<Settling>, i: nat)
    requires i < |group|
  {
    exists k :: 0 <= k < |rows| && RowFor(rows[k], d, group[i], i)
  }

  ghost predicate RowFor(row: Advised, d: Book, s: Settling, i: nat) {
    row.invoice == s.item.key && row.item == i + 1 && row.amount == Owed(s) && Called(d, s.item, row.reference)
  }

  /** The reference is the number of the item's own document, and blank only if it has none. */
  ghost predicate Called(d: Book, it: Item, reference: string) {
    forall r: string :: r != "" ==> (reference == r <==> KnownAs(d, it, r))
  }

  lemma {:induction false} ReferenceCalled(d: Book, row: Item, it: Item)
    requires row.key == it.key && row.line.side == it.line.side
    ensures Called(d, it, ReferenceOf(d, row))
  {
    forall r: string | r != "" ensures ReferenceOf(d, row) == r <==> KnownAs(d, it, r) {
      ReferenceKnown(d, it, r);
    }
  }

  lemma {:induction false} SettledMembers(d: Book, doc: nat)
    ensures forall it :: it in SettledRows(d, doc) <==> it in d.items && SettledBy(it, doc)
    ensures Sorted(SettledRows(d, doc), (it: Item) => ClearingPos(it))
  {
    var mine := (it: Item) => SettledBy(it, doc);
    FilterMembers(d.items, mine);
    OrderMembers(Filter(d.items, mine), (it: Item) => ClearingPos(it));
    OrderSorted(Filter(d.items, mine), (it: Item) => ClearingPos(it));
  }

  ghost predicate ForSomeItem(row: Advised, d: Book, group: seq<Settling>, doc: nat) {
    exists i :: 0 <= i < |group| && StillPaid(d, group, i, doc) && RowFor(row, d, group[i], i)
  }

  lemma {:induction false} ListsStillPaid(b: Book, group: seq<Settling>, posting: Date, statement: string, d: Book)
    requires PaidThen(b, group, posting, statement, d)
    ensures Lists(Map(SettledRows(d, b.next), (it: Item) => AdvisedRow(d, b.next, it)), d, group, b.next)
  {
    var settled := SettledRows(d, b.next);
    var rows := Map(settled, (it: Item) => AdvisedRow(d, b.next, it));
    SettledMembers(d, b.next);
    forall k | 0 <= k < |rows| ensures ForSomeItem(rows[k], d, group, b.next) {
      assert settled[k] in settled;
      var j :| 0 <= j < |d.items| && d.items[j] == settled[k];
      var i := RowAdvised(b, group, posting, statement, d, j);
    }
    forall i | 0 <= i < |group| && StillPaid(d, group, i, b.next) ensures ListedFor(rows, d, group, i) {
      StillPaidListed(b, group, posting, statement, d, i);
    }
  }

  lemma {:induction false} StillPaidListed(b: Book, group: seq<Settling>, posting: Date, statement: string, d: Book, i: nat)
    requires PaidThen(b, group, posting, statement, d) && i < |group| && StillPaid(d, group, i, b.next)
    ensures ListedFor(Map(SettledRows(d, b.next), (it: Item) => AdvisedRow(d, b.next, it)), d, group, i)
  {
    var settled := SettledRows(d, b.next);
    var rows := Map(settled, (it: Item) => AdvisedRow(d, b.next, it));
    SettledMembers(d, b.next);
    var j :| 0 <= j < |d.items| && d.items[j].key == group[i].item.key && SettledBy(d.items[j], b.next);
    var l := RowAdvised(b, group, posting, statement, d, j);
    assert l == i;
    assert d.items[j] in settled;
    var k :| 0 <= k < |settled| && settled[k] == d.items[j];
    assert RowFor(rows[k], d, group[i], i);
  }

  lemma {:induction false} RowAdvised(b: Book, group: seq<Settling>, posting: Date, statement: string, d: Book, j: nat) returns (i: nat)
    requires PaidThen(b, group, posting, statement, d) && j < |d.items| && SettledBy(d.items[j], b.next)
    ensures i < |group| && d.items[j].key == group[i].item.key && StillPaid(d, group, i, b.next)
    ensures RowFor(AdvisedRow(d, b.next, d.items[j]), d, group[i], i)
  {
    i := SettledIsGroup(b, group, posting, statement, d, j);
    AdvisedIs(b, group, posting, statement, d, j);
    ReferenceCalled(d, d.items[j], group[i].item);
    assert ValidItem(d.items[j], d.next);
  }

  /** The payees advised are the suppliers of the items still paid. */
  ghost predicate PayeesOf(payees: set<string>, d: Book, group: seq<Settling>, doc: nat) {
    forall p: string :: p in payees <==> SuppliesPaid(p, d, group, doc)
  }

  ghost predicate SuppliesPaid(p: string, d: Book, group: seq<Settling>, doc: nat) {
    exists i :: 0 <= i < |group| && StillPaid(d, group, i, doc) && group[i].item.line.supplier == p
  }

  lemma {:induction false} PayeesStillPaid(b: Book, group: seq<Settling>, posting: Date, statement: string, d: Book)
    requires PaidThen(b, group, posting, statement, d)
    ensures PayeesOf(set it | it in SettledRows(d, b.next) :: it.line.supplier, d, group, b.next)
  {
    hide PaidThen, SettledRows, SettledBy, SuppliesPaid;
    var settled := SettledRows(d, b.next);
    SettledMembers(d, b.next);
    forall p: string ensures p in (set it | it in settled :: it.line.supplier) <==> SuppliesPaid(p, d, group, b.next) {
      if p in (set it | it in settled :: it.line.supplier) {
        var it :| it in settled && it.line.supplier == p;
        var j :| 0 <= j < |d.items| && d.items[j] == it;
        SupplierSupplies(b, group, posting, statement, d, j);
      }
      if SuppliesPaid(p, d, group, b.next) {
        var j := SupplierRow(b, group, posting, statement, d, p);
        assert d.items[j] in settled;
      }
    }
  }

  lemma {:induction false} SupplierSupplies(b: Book, group: seq<Settling>, posting: Date, statement: string, d: Book, j: nat)
    requires PaidThen(b, group, posting, statement, d) && j < |d.items| && SettledBy(d.items[j], b.next)
    ensures SuppliesPaid(d.items[j].line.supplier, d, group, b.next)
  {
    hide PaidThen, SettledBy, StillPaid;
    var i := SupplierPaid(b, group, posting, statement, d, j);
  }

  lemma {:induction false} SupplierRow(b: Book, group: seq<Settling>, posting: Date, statement: string, d: Book, p: string) returns (j: nat)
    requires PaidThen(b, group, posting, statement, d) && SuppliesPaid(p, d, group, b.next)
    ensures j < |d.items| && SettledBy(d.items[j], b.next) && d.items[j].line.supplier == p
  {
    hide PaidThen, SettledBy;
    var i :| 0 <= i < |group| && StillPaid(d, group, i, b.next) && group[i].item.line.supplier == p;
    j :| 0 <= j < |d.items| && d.items[j].key == group[i].item.key && SettledBy(d.items[j], b.next);
    var k := SupplierPaid(b, group, posting, statement, d, j);
    SameInGroup(b, group, posting, statement, d, i, k);
  }

  lemma {:induction false} SameInGroup(b: Book, group: seq<Settling>, posting: Date, statement: string, d: Book, i: nat, k: nat)
    requires PaidThen(b, group, posting, statement, d)
    requires i < |group| && k < |group| && group[i].item.key == group[k].item.key
    ensures i == k
  {
  }

  lemma {:induction false} SupplierPaid(b: Book, group: seq<Settling>, posting: Date, statement: string, d: Book, j: nat) returns (i: nat)
    requires PaidThen(b, group, posting, statement, d) && j < |d.items| && SettledBy(d.items[j], b.next)
    ensures i < |group| && d.items[j].key == group[i].item.key && StillPaid(d, group, i, b.next)
    ensures d.items[j].line.supplier == group[i].item.line.supplier
  {
    i := SettledIsGroup(b, group, posting, statement, d, j);
  }

  /** How a payment of `group` by document `doc` is advised in the ledger `d`. If every item has been
      reopened there is nothing to advise; otherwise it lists exactly the items still paid, each with
      the amount of the line that paid it, and is refused as out of balance just when an item worth
      something has been reopened. So until one is, it lists them all and its total is the bank's credit. */
  ghost predicate Remits(d: Book, group: seq<Settling>, doc: nat, posting: Date, statement: string) {
    var answer := SettlementOf(d, doc);
    && group != []
    && (answer == Declines(SettledNothing) <==> forall i :: 0 <= i < |group| ==> !StillPaid(d, group, i, doc))
    && (answer != Declines(SettledNothing) ==> (answer == Declines(DoesNotBalance) <==> Lost(d, group, doc)))
    && (answer.Advises? ==>
          && Lists(answer.advice.rows, d, group, doc) && answer.advice.total == Paid(group)
          && PayeesOf(answer.advice.payees, d, group, doc)
          && answer.advice.header == PaymentHeader(doc, group, posting, statement))
    && answer != Declines(NoDocument)
  }

  lemma {:induction false} LaterRemits(b: Book, group: seq<Settling>, posting: Date, statement: string, d: Book)
    requires PaidThen(b, group, posting, statement, d)
    ensures Remits(d, group, b.next, posting, statement)
  {
    hide PaidThen, Pay, LineAt, AdvisedAmount, AdvisedRow, Lists, StillPaid, Lost, Sum, SettledRows, BankRows, SettlementOf, HeaderOf, Map, PayeesOf, PaymentHeader;
    HeaderStays(b, group, posting, statement, d);
    PayeesStillPaid(b, group, posting, statement, d);
    ListsStillPaid(b, group, posting, statement, d);
    TotalIs(b, group, posting, statement, d);
    BankIs(b, group, posting, statement, d);
    TotalAgainstBank(b, group, posting, statement, d);
    NothingListed(Map(SettledRows(d, b.next), (it: Item) => AdvisedRow(d, b.next, it)), d, group, b.next);
    AnswerIs(d, b.next, Paid(group));
  }

  /** Nothing is listed just when nothing is still paid. */
  lemma {:induction false} NothingListed(rows: seq<Advised>, d: Book, group: seq<Settling>, doc: nat)
    requires Lists(rows, d, group, doc)
    ensures rows == [] <==> forall i :: 0 <= i < |group| ==> !StillPaid(d, group, i, doc)
  {
    hide StillPaid, RowFor;
    if rows != [] {
      assert ForSomeItem(rows[0], d, group, doc);
    }
    forall i | 0 <= i < |group| && StillPaid(d, group, i, doc) ensures rows != [] {
      assert ListedFor(rows, d, group, i);
    }
  }

  /** The answer, from the rows settled and what the bank's row says. */
  lemma {:induction false} AnswerIs(d: Book, doc: nat, paid: int)
    requires HeaderOf(d.headers, doc).Some?
    requires BankRows(d, doc) != [] && Sum(BankRows(d, doc), (row: Item) => row.line.amount) == paid
    ensures var answer, settled := SettlementOf(d, doc), SettledRows(d, doc);
      var total := Sum(settled, (it: Item) => AdvisedAmount(d, doc, it));
      && answer != Declines(NoDocument)
      && (answer == Declines(SettledNothing) <==> settled == [])
      && (settled != [] ==> (answer == Declines(DoesNotBalance) <==> total != paid))
      && (answer.Advises? ==> settled != [] && answer.advice.total == total
                              && answer.advice.rows == Map(settled, (it: Item) => AdvisedRow(d, doc, it))
                              && answer.advice.payees == (set it | it in settled :: it.line.supplier)
                              && answer.advice.header == HeaderOf(d.headers, doc).value)
  {
    hide LineAt, AdvisedAmount, AdvisedRow, Sum, SettledRows, BankRows, HeaderOf, Map;
  }

  /** So after any run from the ledger a payment left. */
  lemma {:induction false} RemittanceAgrees(b: Book, group: seq<Settling>, posting: Date, statement: string, steps: seq<Step>)
    requires Valid(b) && Ready(b, group, SupplierLine) && PaysWhole(group)
    ensures Remits(Run(Pay(b, group, posting, statement), steps), group, b.next, posting, statement)
  {
    hide Valid, ReadyAt, PaysWhole, Pay, Run, Remits, Follows;
    var c := Pay(b, group, posting, statement);
    PayKeeps(b, group, posting, statement);
    RunFollows(c, steps);
    LaterRemits(b, group, posting, statement, Run(c, steps));
  }

  /** The payments a statement posts pay each item its own amount. */
  lemma {:induction false} StatementPaysWhole(b: Book, lines: seq<StatementLine>, posting: Date, statement: string, k: nat,
                                              at: Book, group: seq<Settling>)
    requires Valid(b) && CentsOnly(b) && PaysIn(b, lines, posting, statement, k, at, group)
    ensures PaysWhole(group)
  {
    hide ReadLines, Valid, ReadsPayment, Reads, ReceiptsOk, ClaimsOk, ReturnsOk, RefundsOk, RefusalsOk, WholeCents;
    var entries := ReadLines(b, lines, posting).settling;
    var payee := Payees(entries)[k];
    ReadLinesOk(b, lines, posting);
    forall i | 0 <= i < |group| ensures AmountOf(group[i].line) == Owed(group[i]) && WholeCents(Owed(group[i])) {
      var j := MemberOfGroup(entries, payee, i);
      EntryPaysWhole(b, entries[j], lines);
    }
  }

  lemma {:induction false} EntryPaysWhole(b: Book, e: Entry, lines: seq<StatementLine>)
    requires CentsOnly(b) && ReadsPayment(b, e, lines)
    ensures AmountOf(e.what.line) == Owed(e.what) && WholeCents(Owed(e.what))
  {
    var k :| 0 <= k < |b.items| && b.items[k] == e.what.item;
  }

  /** And so for each payment of a statement, through the rest of that statement and any run after it. */
  lemma {:induction false} StatementRemits(b: Book, lines: seq<StatementLine>, posting: Date, statement: string, k: nat,
                                           at: Book, group: seq<Settling>, steps: seq<Step>)
    requires Valid(b) && CentsOnly(b) && PaysIn(b, lines, posting, statement, k, at, group)
    ensures Remits(Run(Apply(b, lines, posting, statement).book, steps), group, at.next, posting, statement)
  {
    hide Valid, ReadyAt, PaysWhole, Pay, Run, Remits, Follows, Apply, PaysIn, CentsOnly;
    PaymentFollowed(b, lines, posting, statement, k, at, group);
    var c, d := Pay(at, group, posting, statement), Apply(b, lines, posting, statement).book;
    StatementPaysWhole(b, lines, posting, statement, k, at, group);
    StatementKeeps(b, lines, posting, statement);
    RunFollows(d, steps);
    FollowsChain(c, d, Run(d, steps));
    LaterRemits(at, group, posting, statement, Run(d, steps));
  }
}
