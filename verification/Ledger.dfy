/** The ledger the service keeps, changed in place: documents posted line by line, items cleared
    one at a time, a statement's lines read in a loop and posted payee by payee. Each method leaves
    the ledger the value its specification says, where the laws are proved. */
module LedgerTables {
  import opened Common
  import opened Money
  import opened Text
  import opened Terms
  import opened Search
  import opened Books
  import opened Matching
  import opened Posting
  import opened Statements
  import opened Claims
  import opened Invoices
  import Receivables
  import Totals
  import opened Sorting
  import opened Reporting
  import opened Remittance

  class Ledger {
    var items: seq<Item>
    var headers: seq<Header>
    var invoices: seq<Invoice>
    var billings: seq<Billing>
    var next: nat

    /** The ledger's value. */
    ghost function Contents(): Book
      reads this
    {
      Book(items, headers, invoices, billings, next)
    }

    constructor (next: nat)
      ensures Contents() == Book([], [], [], [], next)
    {
      items, headers, invoices, billings := [], [], [], [];
      this.next := next;
    }

    /** A copy of the tables, for the queries that only read them. */
    method Snapshot() returns (b: Book)
      ensures b == Contents()
    {
      b := Book(items, headers, invoices, billings, next);
    }

    // ----- documents -----

    method PostJournalEntry(h: Heading, lines: seq<PostLine>) returns (doc: nat)
      modifies this
      ensures doc == old(next) && Contents() == Post(old(Contents()), h, lines)
    {
      doc := next;
      next := next + 1;
      headers := headers + [NewHeader(doc, h)];
      for i := 0 to |lines|
        invariant items == old(items) + NewItems(doc, h, lines[..i])
        invariant headers == old(headers) + [NewHeader(doc, h)] && next == doc + 1
        invariant invoices == old(invoices) && billings == old(billings)
      {
        items := items + [NewItem(doc, h, i + 1, lines[i])];
        assert NewItems(doc, h, lines[..i + 1]) == NewItems(doc, h, lines[..i]) + [NewItem(doc, h, i + 1, lines[i])];
      }
      assert lines[..|lines|] == lines;
    }

    /** Every row of the item's document, and the invoice that posted it, forget the run and nothing
        else; a row that named its invoice's run still does. */
    method ReleasePaymentRun(key: Key)
      modifies this`items, this`invoices
      ensures AllLetGo(old(Contents()), Contents(), key)
      ensures Agrees(old(Contents())) ==> Agrees(Contents())
    {
      for i := 0 to |items|
        modifies this`items
        invariant |items| == |old(items)| && items[i..] == old(items)[i..]
        invariant forall k :: 0 <= k < i ==> LetGo(old(items)[k], items[k], key)
      {
        assert items[i] == items[i..][0] && old(items)[i] == old(items)[i..][0];
        if SameDoc(items[i].key, key) {
          items := items[i := items[i].(claim := NO_CLAIM)];
        }
        assert items[i + 1..] == old(items)[i..][1..];
      }
      for i := 0 to |invoices|
        modifies this`invoices
        invariant |invoices| == |old(invoices)| && invoices[i..] == old(invoices)[i..]
        invariant forall k :: 0 <= k < i ==> BillLetGo(old(invoices)[k], invoices[k], key)
      {
        assert invoices[i] == invoices[i..][0] && old(invoices)[i] == old(invoices)[i..][0];
        if BillOf(invoices[i].bill, key) {
          invoices := invoices[i := invoices[i].(claim := NO_CLAIM)];
        }
        assert invoices[i + 1..] == old(invoices)[i..][1..];
      }
      if Agrees(old(Contents())) {
        LetGoAgrees(old(Contents()), Contents(), key);
      }
    }

    method SetClearing(key: Key, clearing: Clearing)
      modifies this`items, this`invoices
      ensures Contents() == Books.SetClearing(old(Contents()), Change(key, clearing))
    {
      var rows := items;
      items := seq(|rows|, i requires 0 <= i < |rows| =>
        if rows[i].key == key then rows[i].(clearing := clearing) else rows[i]);
      ghost var b := Contents();
      ReleasePaymentRun(key);
      ClearedThenLetGo(old(Contents()), b, Contents(), Change(key, clearing));
    }

    method SelfClear(doc: nat, company: string, year: int, posting: Date, side: Side, only: Option<nat>)
      modifies this`items, this`invoices
      ensures Contents() == Books.SelfClear(old(Contents()), doc, company, year, posting, side, only)
    {
      var rows := OwnLines(items, doc, company, year, side, None);
      ghost var own: seq<Item> := [];
      for i := 0 to |rows|
        invariant own == OwnLines(rows[..i], doc, company, year, side, only)
        invariant Contents() == SetAll(old(Contents()), OwnChanges(own, doc, year, posting))
      {
        OneMoreOwn(old(items), i, doc, company, year, side, only);
        if only.Some? && rows[i].key.pos > only.value {
          continue;
        }
        SetClearing(rows[i].key, Cleared(doc, rows[i].key.pos, year, posting));
        OwnChangesSnoc(old(Contents()), own, rows[i], doc, year, posting);
        own := own + [rows[i]];
      }
      assert rows[..|rows|] == rows;
      OwnLinesTwice(old(items), doc, company, year, side, only);
    }

    method Pay(group: seq<Settling>, posting: Date, statement: string) returns (doc: nat, amounts: seq<int>)
      requires group != []
      modifies this
      ensures doc == old(next) && Contents() == Posting.Pay(old(Contents()), group, posting, statement)
      ensures amounts == Map(group, (s: Settling) => AmountOf(s.line))
    {
      var first := group[0].item;
      amounts := Map(group, (s: Settling) => AmountOf(s.line));
      var lines := Map(group, (s: Settling) => PayLine(s));
      lines := lines + [OnAccount(BANK_ACCOUNT, -Sum(amounts, (x: int) => x))];
      SumAgree(amounts, (x: int) => x, group, (s: Settling) => AmountOf(s.line));
      var h := HeadingOf(first, "ZP", posting, statement);
      doc := PostJournalEntry(h, lines);
      ClearGroup(group, doc, posting);
      SelfClear(doc, CompanyOf(h), posting.year, posting, SupplierLine, None);
    }

    /** The items of a group, each pointed at its line of the document. */
    method ClearGroup(group: seq<Settling>, doc: nat, posting: Date)
      modifies this`items, this`invoices
      ensures Contents() == SetAll(old(Contents()), SettlingChanges(group, doc, posting))
    {
      ghost var changes := SettlingChanges(group, doc, posting);
      for i := 0 to |group|
        invariant Contents() == SetAll(old(Contents()), changes[..i])
      {
        SetClearing(group[i].item.key, Cleared(doc, i + 1, posting.year, posting));
        assert changes[..i + 1] == changes[..i] + [changes[i]];
        SetAllSnoc(old(Contents()), changes[..i], changes[i]);
      }
      assert changes[..|group|] == changes;
    }

    static method LinesForDiscounts(group: seq<Settling>) returns (lines: seq<PostLine>)
      ensures lines == DiscountLines(group)
    {
      lines := [];
      for i := 0 to |group|
        invariant lines == DiscountLines(group[..i])
      {
        var s := group[i];
        assert group[..i + 1] == group[..i] + [s];
        Receivables.DiscountLinesSnoc(group[..i], s);
        if TakenOff(s) == 0 {
          continue;
        }
        if Earned(s) == TakenOff(s) {
          lines := lines + [OnAccount(CASH_DISCOUNT_ACCOUNT, TakenOff(s))];
          continue;
        }
        lines := lines + [OnCustomer(s.item.line.customer, TakenOff(s))];
      }
      assert group[..|group|] == group;
    }

    method Collect(group: seq<Settling>, posting: Date, statement: string) returns (doc: nat, amounts: seq<int>)
      requires group != []
      modifies this
      ensures doc == old(next) && Contents() == Posting.Collect(old(Contents()), group, posting, statement)
      ensures amounts == Map(group, (s: Settling) => Owed(s) - TakenOff(s))
    {
      var first := group[0].item;
      var clearing := Map(group, (s: Settling) => CollectLine(s));
      var discounts := LinesForDiscounts(group);
      var lines := clearing + [OnAccount(BANK_ACCOUNT, Received(group))] + discounts;
      var h := HeadingOf(first, "DZ", posting, statement);
      doc := PostJournalEntry(h, lines);
      ClearGroup(group, doc, posting);
      amounts := Map(group, (s: Settling) => Owed(s) - TakenOff(s));
      SelfClear(doc, CompanyOf(h), posting.year, posting, CustomerLine, Some(|clearing|));
    }

    method Reopen(it: Item, line: StatementLine, posting: Date) returns (doc: nat, amount: int)
      modifies this
      ensures doc == old(next) && amount == Abs(it.line.amount)
      ensures Contents() == Posting.Reopen(old(Contents()), it, line, posting)
    {
      amount := Abs(it.line.amount);
      var h := ReopenHeading(it, line, posting);
      doc := PostJournalEntry(h, ReopenLines(it));
      SetAllOne(Contents(), Change(it.key, Open(true)));
      SetClearing(it.key, Open(true));
      SelfClear(doc, CompanyOf(h), posting.year, posting, ReopenSide(it), None);
    }

    // ----- matching a line -----

    /** Every way of paying them, counting that of leaving one out. */
    static method CountWays(ways: seq<seq<Way>>) returns (count: nat)
      ensures count == WaysCount(ways)
    {
      count := 1;
      for i := 0 to |ways|
        invariant count == WaysCount(ways[..i])
      {
        count := count * (1 + |ways[i]|);
        assert ways[..i + 1][..i] == ways[..i];
      }
      assert ways[..|ways|] == ways;
    }

    method MatchReceipt(line: StatementLine, candidates: seq<Item>, paidOn: Date) returns (s: Settlement)
      ensures s == Matching.MatchReceipt(Contents(), line, candidates, paidOn)
    {
      hide WaysCount, WaysOfPaying, QuotedBy, InCurrency, Match, Hits;
      var b := Snapshot();
      var paidIn := Currency(line.currency);
      var quoted := QuotedBy(b, line, candidates);
      if quoted == [] {
        return Unsettled(NothingQuoted);
      }
      var same := InCurrency(quoted, paidIn);
      if line.amount.None? || paidIn == "" || same == [] {
        return Unsettled(ReasonOf(Match(b, line, candidates)));
      }
      if |same| > MOST_QUOTED {
        return Unsettled(TooManyQuoted);
      }
      var ways := WaysOfPayingAll(same, paidOn);
      var count := CountWays(ways);
      if count - 1 > MOST_WAYS {
        return Unsettled(TooManyWays);
      }
      var readings := SearchFrom(same, ways, Abs(line.amount.value), 0, 0, [], []);
      if |readings| == 1 {
        return Settles(readings[0]);
      }
      return Unsettled(if readings == [] then NoReading else SeveralReadings);
    }

    static method WaysOfPayingAll(quoted: seq<Quote>, paidOn: Date) returns (ways: seq<seq<Way>>)
      ensures ways == WaysOfPaying(quoted, paidOn)
    {
      ways := [];
      for i := 0 to |quoted|
        invariant ways == WaysOfPaying(quoted, paidOn)[..i]
      {
        var owed: int := Abs(quoted[i].item.line.amount);
        var options := [Way(owed, None)];
        var offered := DiscountOffered(quoted[i].item, paidOn);
        if offered.Some? {
          options := options + [Way(owed - offered.value.available, offered)];
        }
        assert WaysOfPaying(quoted, paidOn)[i] == options;
        ways := ways + [options];
      }
    }

    method MatchReturnedReceipt(line: StatementLine) returns (r: Matching.Returning)
      ensures r == Matching.MatchReturnedReceipt(Contents(), line, ClearedItems(Contents(), CustomerLine))
    {
      var b := Snapshot();
      var candidates := ClearedItems(b, CustomerLine);
      var paidIn := Currency(line.currency);
      var quoted := QuotedBy(b, line, candidates);
      if quoted == [] {
        return Stays(NothingQuoted);
      }
      if exists q | q in quoted :: q.item.clearing.Cleared? && PaidNet(b, q.item) {
        return Stays(TookDiscount);
      }
      var same := InCurrency(quoted, paidIn);
      if line.amount.Some? && paidIn != "" && 0 < |same| <= MOST_QUOTED {
        var sets := EverySetSummingTo(same, (q: Quote) => Abs(q.item.line.amount), Abs(line.amount.value));
        if |sets| == 1 {
          return Reopens(sets[0]);
        }
        if sets != [] {
          return Stays(SeveralReadings);
        }
      }
      return Stays(ReasonOf(Match(b, line, candidates)));
    }

    // ----- a statement -----

    static method TakeReading(at: nat, line: StatementLine, taken: seq<Taken<Quote>>, receiving: seq<Entry>, claimed: set<Key>)
      returns (receiving': seq<Entry>, claimed': set<Key>)
      ensures receiving' == receiving + EntriesOf(at, line, taken)
      ensures claimed' == claimed + KeysOf(EntriesOf(at, line, taken))
    {
      ghost var entries := EntriesOf(at, line, taken);
      receiving', claimed' := receiving, claimed;
      for k := 0 to |taken|
        invariant receiving' == receiving + entries[..k]
        invariant claimed' == claimed + KeysOf(entries[..k])
      {
        var t := taken[k];
        KeysSnoc(entries[..k], entries[k]);
        assert entries[..k + 1] == entries[..k] + [entries[k]];
        claimed' := claimed' + {t.what.item.key};
        receiving' := receiving' + [Entry(at, Settling(line, t.what.item, t.what.reference, t.discount))];
      }
      assert entries[..|taken|] == entries;
    }

    /** Every line is read before anything is posted, an item spoken for by one line being no
        candidate for a later one. */
    method ReadStatement(lines: seq<StatementLine>, posting: Date) returns (r: Statements.Reading)
      ensures r == ReadLines(Contents(), lines, posting)
    {
      var b := Snapshot();
      var settling: seq<Entry>, receiving: seq<Entry> := [], [];
      var returning: seq<Noted>, refunding: seq<Noted> := [], [];
      var unprocessed: seq<Refusal> := [];
      var claimed: set<Key> := {};
      for at := 0 to |lines|
        invariant Reading(settling, receiving, returning, refunding, unprocessed, claimed)
               == ReadLines(b, lines[..at], posting)
      {
        var line := lines[at];
        assert lines[..at + 1][..at] == lines[..at];
        ghost var before := ReadLines(b, lines[..at], posting);
        assert ReadLines(b, lines[..at + 1], posting) == ReadLine(b, before, at, line, posting);
        if IsDebit(line) && line.action == ComesBack {
          refunding := refunding + [Noted(at, line)];
        } else if IsDebit(line) {
          match Match(b, line, Candidates(b, SupplierLine, claimed)) {
            case Refused(reason) =>
              unprocessed := unprocessed + [Refusal(at, line, reason)];
            case Found(it, reference) =>
              claimed := claimed + {it.key};
              settling := settling + [Entry(at, Settling(line, it, reference, None))];
          }
        } else if IsCredit(line) && line.action == ComesBack {
          returning := returning + [Noted(at, line)];
        } else if IsCredit(line) && line.action == Arrives {
          var s := MatchReceipt(line, Candidates(b, CustomerLine, claimed), posting);
          match s {
            case Unsettled(reason) =>
              unprocessed := unprocessed + [Refusal(at, line, reason)];
            case Settles(taken) =>
              receiving, claimed := TakeReading(at, line, taken, receiving, claimed);
          }
        } else {
          unprocessed := unprocessed + [Refusal(at, line, if IsCredit(line) then KindUnsaid else NoSide)];
        }
      }
      assert lines[..|lines|] == lines;
      r := Reading(settling, receiving, returning, refunding, unprocessed, claimed);
    }

    /** The entries grouped by payee, in the order their payees were first named. */
    static method ByPayee(entries: seq<Entry>) returns (order: seq<Payee>, groups: map<Payee, seq<Entry>>)
      ensures order == Payees(entries)
      ensures groups == map p | p in order :: GroupOf(entries, p)
      ensures forall p :: p in order ==> p in groups && groups[p] == GroupOf(entries, p) && groups[p] != []
    {
      hide PayeeOf;
      order, groups := [], map[];
      for i := 0 to |entries|
        invariant order == Payees(entries[..i])
        invariant forall p :: p in groups <==> p in order
        invariant forall p :: p in groups ==> groups[p] == GroupOf(entries[..i], p) && groups[p] != []
        invariant forall p :: p !in groups ==> GroupOf(entries[..i], p) == []
      {
        var e := entries[i];
        var payee := PayeeOf(e.what.item);
        assert entries[..i + 1] == entries[..i] + [e];
        assert entries[..i + 1][..i] == entries[..i];
        forall p ensures GroupOf(entries[..i + 1], p)
          == GroupOf(entries[..i], p) + (if payee == p then [e] else [])
        {
          FilterSnoc(entries[..i], e, (x: Entry) => PayeeOf(x.what.item) == p);
        }
        if payee !in groups {
          order := order + [payee];
          groups := groups[payee := []];
        }
        groups := groups[payee := groups[payee] + [e]];
      }
      assert entries[..|entries|] == entries;
    }

    method PostPayee(side: Side, group: seq<Entry>, posting: Date, statement: string) returns (rows: seq<Row>)
      requires group != []
      modifies this
      ensures Contents() == PostGroup(old(Contents()), side, Bare(group), posting, statement)
      ensures rows == RowsOf(side, group, old(next))
    {
      var doc, amounts;
      if side == SupplierLine {
        doc, amounts := Pay(Bare(group), posting, statement);
      } else {
        doc, amounts := Collect(Bare(group), posting, statement);
      }
      rows := RowsPosted(side, group, doc, amounts);
    }

    static method RowsPosted(side: Side, group: seq<Entry>, doc: nat, amounts: seq<int>) returns (rows: seq<Row>)
      requires |amounts| == |group|
      requires forall k :: 0 <= k < |group| ==> amounts[k] == ShareOf(side, group[k].what)
      ensures rows == RowsOf(side, group, doc)
    {
      rows := [];
      for k := 0 to |group|
        invariant rows == RowsOf(side, group, doc)[..k]
      {
        var e := group[k];
        rows := rows + [Row(e.at, e.what.line.id, e.what.reference, e.what.item.key, doc, amounts[k])];
      }
    }

    /** One document for each payee: payments on the supplier side, receipts on the customer's. */
    method PostByPayee(side: Side, entries: seq<Entry>, posting: Date, statement: string) returns (rows: seq<Row>)
      modifies this
      ensures Posted(Contents(), rows) == PostAll(old(Contents()), side, entries, posting, statement)
    {
      hide PostGroup, GroupOf, PayeeOf, RowsOf, Payees;
      var order, groups := ByPayee(entries);
      rows := [];
      for i := 0 to |order|
        invariant Posted(Contents(), rows) == PostGroups(old(Contents()), side, entries, order[..i], posting, statement)
      {
        assert order[..i + 1][..i] == order[..i];
        assert order[i] in order;
        var group := groups[order[i]];
        var more := PostPayee(side, group, posting, statement);
        rows := rows + more;
      }
      assert order[..|order|] == order;
    }

    /** Our payments that came back, after the payments. */
    method TakeReturns(noted: seq<Noted>, posting: Date) returns (rows: seq<Row>, refused: seq<Refusal>)
      modifies this
      ensures Returns(Contents(), rows, refused) == ReturnAll(old(Contents()), noted, posting)
    {
      rows, refused := [], [];
      for i := 0 to |noted|
        invariant Returns(Contents(), rows, refused) == ReturnAll(old(Contents()), noted[..i], posting)
      {
        assert noted[..i + 1][..i] == noted[..i];
        var n := noted[i];
        var b := Snapshot();
        match Match(b, n.line, ClearedItems(b, SupplierLine)) {
          case Refused(reason) =>
            refused := refused + [Refusal(n.at, n.line, reason)];
          case Found(it, reference) =>
            var doc, amount := Reopen(it, n.line, posting);
            rows := rows + [Row(n.at, n.line.id, reference, it.key, doc, amount)];
        }
      }
      assert noted[..|noted|] == noted;
    }

    method ReopenTransfer(n: Noted, items: seq<Quote>, posting: Date) returns (rows: seq<Row>)
      modifies this
      ensures Posted(Contents(), rows) == ReopenAll(old(Contents()), n, items, posting)
    {
      rows := [];
      for k := 0 to |items|
        invariant Posted(Contents(), rows) == ReopenAll(old(Contents()), n, items[..k], posting)
      {
        assert items[..k + 1][..k] == items[..k];
        var doc, amount := Reopen(items[k].item, n.line, posting);
        rows := rows + [Row(n.at, n.line.id, items[k].reference, items[k].item.key, doc, amount)];
      }
      assert items[..|items|] == items;
    }

    /** Receipts that went back, after the receipts: every item the transfer had settled. */
    method TakeRefunds(noted: seq<Noted>, posting: Date) returns (rows: seq<Row>, refused: seq<Refusal>)
      modifies this
      ensures Returns(Contents(), rows, refused) == RefundAll(old(Contents()), noted, posting)
    {
      rows, refused := [], [];
      for i := 0 to |noted|
        invariant Returns(Contents(), rows, refused) == RefundAll(old(Contents()), noted[..i], posting)
      {
        assert noted[..i + 1][..i] == noted[..i];
        var n := noted[i];
        var r := MatchReturnedReceipt(n.line);
        match r {
          case Stays(reason) =>
            refused := refused + [Refusal(n.at, n.line, reason)];
          case Reopens(items) =>
            var more := ReopenTransfer(n, items, posting);
            rows := rows + more;
        }
      }
      assert noted[..|noted|] == noted;
    }

    method ApplyStatement(lines: seq<StatementLine>, posting: Date, statement: string) returns (out: Outcome)
      modifies this
      ensures out == Report(Apply(old(Contents()), lines, posting, statement))
      ensures Contents() == Apply(old(Contents()), lines, posting, statement).book
    {
      var r := ReadStatement(lines, posting);
      var paid := PostByPayee(SupplierLine, r.settling, posting, statement);
      var received := PostByPayee(CustomerLine, r.receiving, posting, statement);
      var returned, notReturned := TakeReturns(r.returning, posting);
      var refunded, notRefunded := TakeRefunds(r.refunding, posting);
      var b := Snapshot();
      out := Report(Outcome(b, paid + received, returned + refunded, r.unprocessed + notReturned + notRefunded));
    }

    // ----- invoices and billing -----

    method PostSupplierInvoice(inv: Incoming) returns (error: Option<Error>)
      modifies this
      ensures match PostInvoice(old(Contents()), inv)
              case Ok(c) => error == None && Contents() == c
              case Err(e) => error == Some(e) && Contents() == old(Contents())
    {
      if inv.supplier == "" {
        return Some(NoSupplier);
      }
      var lines := InvoiceLines(inv);
      if Totals.BalanceOf(lines) != 0 || !ItemsAddUp(inv) {
        return Some(Unbalanced);
      }
      var h := Heading(inv.company, "RE", inv.posting, inv.currency, inv.reference);
      var doc := PostJournalEntry(h, lines);
      invoices := invoices + [Invoice(Bill(Some(doc), CompanyOf(h), inv.posting.year, inv.reference, AtCents(inv.gross)),
                                      inv.block, NO_CLAIM)];
      return None;
    }

    /** A client changes an invoice, and the items of the document it posted follow. */
    method UpdateInvoice(at: nat, change: InvoiceChange) returns (error: Option<Error>)
      modifies this
      ensures match Invoices.UpdateInvoice(old(Contents()), at, change)
              case Ok(c) => error == None && Contents() == c
              case Err(e) => error == Some(e) && Contents() == old(Contents())
      ensures error == None ==> at < |invoices| && forall i :: 0 <= i < |items| ==> AgreesWith(invoices[at], items[i])
      ensures Valid(old(Contents())) && Agrees(old(Contents())) ==> Agrees(Contents())
    {
      if at >= |invoices| {
        return Some(NotFound);
      }
      if Valid(old(Contents())) {
        UpdateKeeps(old(Contents()), at, change);
      }
      var merged := Changed(invoices[at], change);
      invoices := invoices[at := merged];
      var rows := items;
      items := seq(|rows|, i requires 0 <= i < |rows| => Reach(rows[i], merged));
      return None;
    }

    /** The billing document and the document it posts name each other; that one comes to nothing. */
    method BillOrder(order: Order, rate: Rate) returns (doc: nat)
      modifies this
      ensures doc == old(next) && Contents() == Invoices.BillOrder(old(Contents()), order, rate)
      ensures Valid(old(Contents())) ==> Valid(Contents()) && Totals.DocumentBalance(items, doc) == 0
    {
      if Valid(old(Contents())) {
        BillingKeeps(old(Contents()), order, rate);
        BillingBalances(old(Contents()), order, rate, next);
      }
      var net := OrderNet(order);
      var tax := OrderTax(order, rate);
      billings := billings + [Billing(order.number, None, net + tax)];
      doc := PostJournalEntry(Heading("1710", "RV", order.today, order.currency, order.number), BillingLines(order, rate));
      billings := billings[|billings| - 1 := Billing(order.number, Some(doc), net + tax)];
      assert billings == old(billings) + [Billing(order.number, Some(doc), net + tax)];
    }

    // ----- a payment's remittance -----

    /** A row for each item, and their total as it goes. */
    static method AdviceRows(b: Book, doc: nat, settled: seq<Item>) returns (rows: seq<Advised>, total: int)
      ensures rows == Map(settled, (it: Item) => AdvisedRow(b, doc, it))
      ensures total == Sum(settled, (it: Item) => AdvisedAmount(b, doc, it))
    {
      rows, total := [], 0;
      ghost var amountOf := (it: Item) => AdvisedAmount(b, doc, it);
      for i := 0 to |settled|
        invariant rows == Map(settled, (it: Item) => AdvisedRow(b, doc, it))[..i]
        invariant total == Sum(settled[..i], amountOf)
      {
        var it := settled[i];
        var paid := LineAt(b.items, doc, ClearingPos(it));
        var amount := if paid.Some? then paid.value.line.amount else it.line.amount;
        assert settled[..i + 1] == settled[..i] + [it];
        SumSnoc(settled[..i], it, amountOf);
        total := total + amount;
        rows := rows + [Advised(it.key, ReferenceOf(b, it), amount, ClearingPos(it))];
      }
      assert settled[..|settled|] == settled;
      SumAgree(settled, amountOf, settled, (it: Item) => AdvisedAmount(b, doc, it));
    }

    method SettlementOf(doc: nat) returns (answer: Answer)
      ensures answer == Remittance.SettlementOf(Contents(), doc)
    {
      var b := Snapshot();
      var header := HeaderOf(b.headers, doc);
      if header.None? {
        return Declines(NoDocument);
      }
      var settled := SettledRows(b, doc);
      if settled == [] {
        return Declines(SettledNothing);
      }
      var rows, total := AdviceRows(b, doc, settled);
      var bank := BankRows(b, doc);
      if bank != [] && Sum(bank, (row: Item) => row.line.amount) != total {
        return Declines(DoesNotBalance);
      }
      return Advises(Advice(header.value, set it | it in settled :: it.line.supplier, total, rows));
    }
  }

  lemma {:induction false} SetAllSnoc(b: Book, changes: seq<Change>, change: Change)
    ensures SetAll(b, changes + [change]) == Books.SetClearing(SetAll(b, changes), change)
  {
    SnocParts(changes, change);
  }

  lemma {:induction false} ClearedThenLetGo(b: Book, c: Book, d: Book, change: Change)
    requires c == b.(items := Map(b.items, (it: Item) => if it.key == change.key then it.(clearing := change.clearing) else it))
    requires AllLetGo(c, d, change.key) && d.headers == c.headers && d.billings == c.billings && d.next == c.next
    ensures d == Books.SetClearing(b, change)
  {
    var e := Books.SetClearing(b, change);
    forall i | 0 <= i < |d.items| ensures d.items[i] == e.items[i] {
      assert LetGo(c.items[i], d.items[i], change.key);
    }
    forall i | 0 <= i < |d.invoices| ensures d.invoices[i] == e.invoices[i] {
      assert BillLetGo(c.invoices[i], d.invoices[i], change.key);
    }
    assert d.items == e.items && d.invoices == e.invoices;
  }

  /** One more of a document's lines, kept if it is within what was asked for. */
  lemma {:induction false} OneMoreOwn(items: seq<Item>, i: nat, doc: nat, company: string, year: int, side: Side, only: Option<nat>)
    requires i < |OwnLines(items, doc, company, year, side, None)|
    ensures var rows := OwnLines(items, doc, company, year, side, None);
      OwnLines(rows[..i + 1], doc, company, year, side, only)
      == OwnLines(rows[..i], doc, company, year, side, only)
         + (if only.Some? && rows[i].key.pos > only.value then [] else [rows[i]])
  {
    hide Filter;
    var rows := OwnLines(items, doc, company, year, side, None);
    FilterMembers(items, (it: Item) => OwnLine(it, doc, company, year, side, None));
    assert rows[..i + 1] == rows[..i] + [rows[i]];
    FilterSnoc(rows[..i], rows[i], (it: Item) => OwnLine(it, doc, company, year, side, only));
  }

  lemma {:induction false} OwnLinesTwice(items: seq<Item>, doc: nat, company: string, year: int, side: Side, only: Option<nat>)
    ensures OwnLines(OwnLines(items, doc, company, year, side, None), doc, company, year, side, only)
         == OwnLines(items, doc, company, year, side, only)
  {
    hide Filter;
    var within := (it: Item) => OwnLine(it, doc, company, year, side, only);
    FilterTwice(items, (it: Item) => OwnLine(it, doc, company, year, side, None), within, within);
  }

  lemma {:induction false} OwnChangesSnoc(b: Book, own: seq<Item>, it: Item, doc: nat, year: int, posting: Date)
    ensures SetAll(b, OwnChanges(own + [it], doc, year, posting))
         == Books.SetClearing(SetAll(b, OwnChanges(own, doc, year, posting)), Change(it.key, Cleared(doc, it.key.pos, year, posting)))
  {
    hide Books.SetClearing;
    var change := Change(it.key, Cleared(doc, it.key.pos, year, posting));
    assert OwnChanges(own + [it], doc, year, posting) == OwnChanges(own, doc, year, posting) + [change];
    SetAllSnoc(b, OwnChanges(own, doc, year, posting), change);
  }

  lemma {:induction false} SetAllOne(b: Book, change: Change)
    ensures SetAll(b, [change]) == Books.SetClearing(b, change)
  {
    SetAllSnoc(b, [], change);
    assert [] + [change] == [change];
  }

  lemma {:induction false} KeysSnoc(entries: seq<Entry>, e: Entry)
    ensures KeysOf(entries + [e]) == KeysOf(entries) + {e.what.item.key}
  {
    assert forall x :: x in entries + [e] <==> x in entries || x == e;
  }
}
