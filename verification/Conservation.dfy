/** What a whole statement does to the bank, and that every document it posts balances. */
module Conservation {
  import opened Common
  import opened Money
  import opened Text
  import opened Terms
  import opened Search
  import opened Books
  import opened Totals
  import opened Matching
  import opened Posting
  import opened Receivables
  import opened Statements
  import opened Grouping
  import opened Returning

  /** What a line moves in one currency: in for a credit, out for a debit. */
  function Movement(line: StatementLine, currency: string): int {
    match line.amount
    case Some(a) => if Currency(line.currency) == currency then a else 0
    case None => 0
  }

  function LinesMove(lines: seq<StatementLine>, currency: string): int {
    Sum(lines, (l: StatementLine) => Movement(l, currency))
  }

  function RefusedMove(refused: seq<Refusal>, currency: string): int {
    Sum(refused, (u: Refusal) => Movement(u.line, currency))
  }

  function NotedMove(noted: seq<Noted>, currency: string): int {
    Sum(noted, (n: Noted) => Movement(n.line, currency))
  }

  /** What an entry moves: out what its line paid, or in what its item brought. */
  function EntryMove(side: Side, s: Settling, currency: string): int {
    if Currency(s.item.line.currency) != currency then 0
    else if side == SupplierLine then -AmountOf(s.line) else Owed(s) - TakenOff(s)
  }

  function EntriesMove(side: Side, entries: seq<Entry>, currency: string): int {
    Sum(entries, (e: Entry) => EntryMove(side, e.what, currency))
  }

  function BankBalance(b: Book, currency: string): int {
    AccountBalance(b.items, "0000113100", currency)
  }

  // ----- reading takes nothing and adds nothing -----

  ghost function ReadMove(r: Statements.Reading, currency: string): int {
    EntriesMove(SupplierLine, r.settling, currency) + EntriesMove(CustomerLine, r.receiving, currency)
    + NotedMove(r.returning, currency) + NotedMove(r.refunding, currency) + RefusedMove(r.unprocessed, currency)
  }

  lemma {:induction false} ReadPaymentMoves(b: Book, r: Statements.Reading, at: nat, line: StatementLine, currency: string)
    requires Valid(b) && IsPayment(line)
    ensures ReadMove(ReadPayment(b, r, at, line), currency) == ReadMove(r, currency) + Movement(line, currency)
  {
    var candidates := Candidates(b, SupplierLine, r.claimed);
    match Match(b, line, candidates) {
      case Refused(reason) =>
        SumSnoc(r.unprocessed, Refusal(at, line, reason), (u: Refusal) => Movement(u.line, currency));
      case Found(it, reference) =>
        MatchAnswers(b, line, candidates);
        SumSnoc(r.settling, Entry(at, Settling(line, it, reference, None)),
                (e: Entry) => EntryMove(SupplierLine, e.what, currency));
    }
  }

  lemma {:induction false} ReadReceiptMoves(b: Book, r: Statements.Reading, at: nat, line: StatementLine, posting: Date, currency: string)
    requires Valid(b) && IsReceipt(line)
    ensures ReadMove(ReadReceipt(b, r, at, line, posting), currency) == ReadMove(r, currency) + Movement(line, currency)
  {
    var candidates := Candidates(b, CustomerLine, r.claimed);
    match MatchReceipt(b, line, candidates, posting) {
      case Unsettled(reason) =>
        SumSnoc(r.unprocessed, Refusal(at, line, reason), (u: Refusal) => Movement(u.line, currency));
      case Settles(taken) =>
        CandidatesAre(b, CustomerLine, r.claimed);
        ReceiptTakes(b, line, candidates, posting);
        SumAppend(r.receiving, EntriesOf(at, line, taken), (e: Entry) => EntryMove(CustomerLine, e.what, currency));
        TakenMoves(b, at, line, candidates, posting, taken, currency);
    }
  }

  lemma {:induction false} TakenMoves(b: Book, at: nat, line: StatementLine, candidates: seq<Item>, posting: Date,
                                      taken: seq<Taken<Quote>>, currency: string)
    requires forall i :: 0 <= i < |taken| ==> TakesCandidate(b, line, candidates, posting, taken[i])
    ensures EntriesMove(CustomerLine, EntriesOf(at, line, taken), currency)
         == if Currency(line.currency) == currency then Sum(taken, (t: Taken<Quote>) => TakenAmount(t)) else 0
  {
    var entries := EntriesOf(at, line, taken);
    var f := (e: Entry) => EntryMove(CustomerLine, e.what, currency);
    var g := (t: Taken<Quote>) => TakenAmount(t);
    var mine := Currency(line.currency) == currency;
    forall i | 0 <= i < |taken| ensures f(entries[i]) == if mine then g(taken[i]) else 0 {
      assert TakesCandidate(b, line, candidates, posting, taken[i]);
    }
    if mine {
      SumAgree(entries, f, taken, g);
    } else {
      SumZero(entries, f);
    }
  }

  /** Whatever way the lines are read, what they move is what the five streams move. */
  lemma {:induction false} ReadLinesMove(b: Book, lines: seq<StatementLine>, posting: Date, currency: string)
    requires Valid(b)
    ensures ReadMove(ReadLines(b, lines, posting), currency) == LinesMove(lines, currency)
  {
    if |lines| > 0 {
      var before, line, at := lines[..|lines| - 1], lines[|lines| - 1], |lines| - 1;
      var r := ReadLines(b, before, posting);
      ReadLinesMove(b, before, posting, currency);
      if IsPayment(line) {
        ReadPaymentMoves(b, r, at, line, currency);
      } else if IsReceipt(line) {
        ReadReceiptMoves(b, r, at, line, posting, currency);
      } else if IsRefund(line) {
        SumSnoc(r.refunding, Noted(at, line), (n: Noted) => Movement(n.line, currency));
      } else if IsReturn(line) {
        SumSnoc(r.returning, Noted(at, line), (n: Noted) => Movement(n.line, currency));
      } else {
        SumSnoc(r.unprocessed, Refusal(at, line, if IsCredit(line) then KindUnsaid else NoSide),
                (u: Refusal) => Movement(u.line, currency));
      }
    }
  }

  // ----- posting moves the bank by the entries -----

  lemma {:induction false} PostGroupMoves(b: Book, side: Side, group: seq<Settling>, posting: Date, statement: string, currency: string)
    requires side != GLLine && Valid(b) && Ready(b, group, side) && AllExact(group)
    requires side == SupplierLine ==> AllWhole(group)
    ensures BankBalance(PostGroup(b, side, group, posting, statement), currency)
         == BankBalance(b, currency) + Sum(group, (s: Settling) => EntryMove(side, s, currency))
  {
    assert ReadyAt(b, group[0].item, side);
    var f := (s: Settling) => EntryMove(side, s, currency);
    if Currency(group[0].item.line.currency) != currency {
      SumZero(group, f);
    } else if side == SupplierLine {
      SumScale(group, (s: Settling) => AmountOf(s.line), -1, f);
    } else {
      SumAgree(group, f, group, (s: Settling) => Owed(s) - TakenOff(s));
      ExactSums(group);
    }
    if side == SupplierLine {
      PayMoves(b, group, posting, statement, currency);
    } else {
      CollectMoves(b, group, posting, statement, currency);
    }
  }

  lemma {:induction false} PostGroupBalances(b: Book, side: Side, group: seq<Settling>, posting: Date, statement: string, doc: nat)
    requires side != GLLine && Valid(b) && Ready(b, group, side) && AllExact(group)
    requires side == SupplierLine ==> AllWhole(group)
    ensures DocumentBalance(PostGroup(b, side, group, posting, statement).items, doc)
         == if doc == b.next then 0 else DocumentBalance(b.items, doc)
  {
    if side == SupplierLine {
      PayBalances(b, group, posting, statement, doc);
    } else {
      CollectBalances(b, group, posting, statement, doc);
    }
  }

  /** Every document numbered from `from` on balances. */
  ghost predicate BalancedFrom(b: Book, from: nat) {
    forall doc: nat :: from <= doc < b.next ==> DocumentBalance(b.items, doc) == 0
  }

  ghost predicate ExactEntries(entries: seq<Entry>, side: Side) {
    forall i :: 0 <= i < |entries| ==> Exact(entries[i].what) && (side == SupplierLine ==> WholeCents(AmountOf(entries[i].what.line)))
  }

  lemma {:induction false} ExactGroup(entries: seq<Entry>, side: Side, p: Payee)
    requires ExactEntries(entries, side)
    ensures AllExact(Bare(GroupOf(entries, p))) && (side == SupplierLine ==> AllWhole(Bare(GroupOf(entries, p))))
  {
    var group := GroupOf(entries, p);
    FilterMembers(entries, (e: Entry) => PayeeOf(e.what.item) == p);
    forall i | 0 <= i < |group|
      ensures Exact(Bare(group)[i]) && (side == SupplierLine ==> WholeCents(AmountOf(Bare(group)[i].line)))
    {
      assert group[i] in entries;
    }
  }

  lemma {:induction false} PostGroupsMove(b: Book, side: Side, entries: seq<Entry>, payees: seq<Payee>, posting: Date,
                                          statement: string, currency: string)
    requires side != GLLine && Valid(b) && Pending(b, side, entries) && ExactEntries(entries, side) && Distinct(payees)
    requires forall p :: p in payees ==> GroupOf(entries, p) != []
    ensures BankBalance(PostGroups(b, side, entries, payees, posting, statement).book, currency)
         == BankBalance(b, currency) + SumGroups(entries, payees, (e: Entry) => EntryMove(side, e.what, currency))
  {
    hide Grows, Ready, ValidItem, PostGroup, BankBalance, Pending, ExactEntries, DoneSoFar, AllExact, AllWhole, KeysUnique;
    if |payees| > 0 {
      var rest, p := payees[..|payees| - 1], payees[|payees| - 1];
      PostGroupsMove(b, side, entries, rest, posting, statement, currency);
      var c := PostGroups(b, side, entries, rest, posting, statement).book;
      var group := GroupOf(entries, p);
      assert payees == rest + [p] && p !in rest;
      PostGroupsKeep(b, side, entries, rest, posting, statement);
      GroupReady(b, c, side, entries, rest, p);
      ExactGroup(entries, side, p);
      PostGroupMoves(c, side, Bare(group), posting, statement, currency);
      SumAgree(group, (e: Entry) => EntryMove(side, e.what, currency),
               Bare(group), (s: Settling) => EntryMove(side, s, currency));
    }
  }

  lemma {:induction false} PostGroupsBalance(b: Book, side: Side, entries: seq<Entry>, payees: seq<Payee>, posting: Date,
                                             statement: string, from: nat)
    requires side != GLLine && Valid(b) && Pending(b, side, entries) && ExactEntries(entries, side) && Distinct(payees)
    requires forall p :: p in payees ==> GroupOf(entries, p) != []
    requires BalancedFrom(b, from)
    ensures BalancedFrom(PostGroups(b, side, entries, payees, posting, statement).book, from)
  {
    hide Valid, PostGroup, Ready, Pending, ExactEntries, GroupOf, DocumentBalance, Grows, DoneSoFar, AllExact, AllWhole;
    if |payees| > 0 {
      var rest, p := payees[..|payees| - 1], payees[|payees| - 1];
      PostGroupsBalance(b, side, entries, rest, posting, statement, from);
      var c := PostGroups(b, side, entries, rest, posting, statement).book;
      var group := Bare(GroupOf(entries, p));
      assert payees == rest + [p] && p !in rest;
      PostGroupsKeep(b, side, entries, rest, posting, statement);
      GroupReady(b, c, side, entries, rest, p);
      ExactGroup(entries, side, p);
      PostGroupKeeps(c, side, group, posting, statement);
      var d := PostGroup(c, side, group, posting, statement);
      forall doc: nat | from <= doc < d.next ensures DocumentBalance(d.items, doc) == 0 {
        PostGroupBalances(c, side, group, posting, statement, doc);
      }
    }
  }

  lemma {:induction false} PostAllMoves(b: Book, side: Side, entries: seq<Entry>, posting: Date, statement: string, from: nat,
                                        currency: string)
    requires side != GLLine && Valid(b) && Pending(b, side, entries) && ExactEntries(entries, side) && BalancedFrom(b, from)
    ensures var c := PostAll(b, side, entries, posting, statement).book;
      && BankBalance(c, currency) == BankBalance(b, currency) + EntriesMove(side, entries, currency)
      && BalancedFrom(c, from)
  {
    PayeesAre(entries);
    GroupsExist(entries);
    PostGroupsMove(b, side, entries, Payees(entries), posting, statement, currency);
    PostGroupsBalance(b, side, entries, Payees(entries), posting, statement, from);
    GroupsSumAll(entries, (e: Entry) => EntryMove(side, e.what, currency));
  }

  // ----- whole cents -----

  lemma {:induction false} ReadIsExact(b: Book, r: Statements.Reading, lines: seq<StatementLine>, posting: Date)
    requires Valid(b) && CentsOnly(b) && ReadingOk(b, r, lines, posting)
    ensures ExactEntries(r.settling, SupplierLine) && ExactEntries(r.receiving, CustomerLine)
  {
    forall i | 0 <= i < |r.settling|
      ensures Exact(r.settling[i].what) && WholeCents(AmountOf(r.settling[i].what.line))
    {
      assert ReadsPayment(b, r.settling[i], lines);
      assert WholeCents(r.settling[i].what.item.line.amount);
    }
    forall i | 0 <= i < |r.receiving| ensures Exact(r.receiving[i].what) {
      assert ReadsReceipt(b, r.receiving[i], lines, posting);
      ReceiptExact(b, r.receiving[i], lines, posting);
    }
  }

  lemma {:induction false} ReceiptExact(b: Book, e: Entry, lines: seq<StatementLine>, posting: Date)
    requires Valid(b) && CentsOnly(b) && ReadsReceipt(b, e, lines, posting)
    ensures Exact(e.what)
  {
    var it := e.what.item;
    assert WholeCents(it.line.amount);
    if it.line.baseline.Some? {
      DiscountFits(it.line.terms, it.line.baseline.value, posting, Abs(it.line.amount));
    }
  }

  // ----- what came back -----

  /** What a document leaves true whatever it was: the invariant, whole cents, balance. */
  ghost predicate Sound(b: Book, c: Book, from: nat) {
    && Valid(c) && Grows(b, c) && CentsOnly(c) && BalancedFrom(c, from)
  }

  lemma {:induction false} ReopenSound(b: Book, it: Item, line: StatementLine, posting: Date, from: nat, currency: string)
    requires Valid(b) && CentsOnly(b) && BalancedFrom(b, from) && Current(b, it) && it.line.currency != ""
    ensures var c := Reopen(b, it, line, posting);
      && Sound(b, c, from) && c.next == b.next + 1
      && BankBalance(c, currency) == BankBalance(b, currency)
         + (if Currency(it.line.currency) != currency then 0
            else if it.line.side == CustomerLine then -Abs(it.line.amount) else Abs(it.line.amount))
  {
    var c := Reopen(b, it, line, posting);
    var k :| 0 <= k < |b.items| && RowIs(b.items[k], it);
    assert WholeCents(b.items[k].line.amount) && ValidItem(b.items[k], b.next);
    ReopenKeeps(b, it, line, posting);
    ReopenMoves(b, it, line, posting, currency);
    SettleIs(b, ReopenHeading(it, line, posting), ReopenLines(it), [Change(it.key, Open(true))], ReopenSide(it), None);
    forall doc: nat | from <= doc < c.next ensures DocumentBalance(c.items, doc) == 0 {
      ReopenBalances(b, it, line, posting, doc);
    }
  }

  /** What a returned payment finds: a cleared payable of the line's amount and currency. */
  lemma {:induction false} ReturnFinds(b: Book, line: StatementLine)
    requires Valid(b) && Match(b, line, ClearedItems(b, SupplierLine)).Found?
    ensures var it := Match(b, line, ClearedItems(b, SupplierLine)).item;
      && Current(b, it) && it.line.side == SupplierLine && it.line.currency != ""
      && line.amount.Some? && Abs(it.line.amount) == Abs(line.amount.value)
      && Currency(it.line.currency) == Currency(line.currency)
  {
    hide Match, Valid, Quotes, ReferenceOf, OneParty;
    MatchAnswers(b, line, ClearedItems(b, SupplierLine));
    ClearedItemsAre(b, SupplierLine);
    RowIsCurrent(b, Match(b, line, ClearedItems(b, SupplierLine)).item);
    assert Currency("") == "";
  }

  lemma {:induction false} ReturnOneMoves(r: Returns, n: Noted, posting: Date, from: nat, currency: string)
    requires Valid(r.book) && CentsOnly(r.book) && BalancedFrom(r.book, from) && IsReturn(n.line)
    ensures var r' := ReturnOne(r, n, posting);
      && Sound(r.book, r'.book, from)
      && BankBalance(r'.book, currency) + RefusedMove(r'.refused, currency)
         == BankBalance(r.book, currency) + RefusedMove(r.refused, currency) + Movement(n.line, currency)
  {
    hide Match, Reopen, Current, BankBalance;
    match Match(r.book, n.line, ClearedItems(r.book, SupplierLine)) {
      case Refused(reason) =>
        SumSnoc(r.refused, Refusal(n.at, n.line, reason), (u: Refusal) => Movement(u.line, currency));
      case Found(it, reference) =>
        ReturnFinds(r.book, n.line);
        ReopenSound(r.book, it, n.line, posting, from, currency);
    }
  }

  lemma {:induction false} ReturnAllMoves(b: Book, noted: seq<Noted>, posting: Date, from: nat, currency: string)
    requires Valid(b) && CentsOnly(b) && BalancedFrom(b, from)
    requires forall i :: 0 <= i < |noted| ==> IsReturn(noted[i].line)
    ensures var r := ReturnAll(b, noted, posting);
      && Sound(b, r.book, from)
      && BankBalance(r.book, currency) + RefusedMove(r.refused, currency) == BankBalance(b, currency) + NotedMove(noted, currency)
  {
    if |noted| > 0 {
      var rest, n := noted[..|noted| - 1], noted[|noted| - 1];
      ReturnAllMoves(b, rest, posting, from, currency);
      var r := ReturnAll(b, rest, posting);
      ReturnOneMoves(r, n, posting, from, currency);
      GrowsChain(b, r.book, ReturnOne(r, n, posting).book);
    }
  }

  // ----- returned receipts -----

  lemma {:induction false} ReopenAllMoves(b: Book, n: Noted, items: seq<Quote>, posting: Date, from: nat, paidIn: string, currency: string)
    requires Valid(b) && CentsOnly(b) && BalancedFrom(b, from) && Reopenable(b, items, paidIn)
    ensures var p := ReopenAll(b, n, items, posting);
      && Sound(b, p.book, from)
      && BankBalance(p.book, currency) == BankBalance(b, currency)
         - (if paidIn == currency then Sum(items, (q: Quote) => Abs(q.item.line.amount)) else 0)
  {
    if |items| > 0 {
      var rest, q := items[..|items| - 1], items[|items| - 1];
      assert forall i :: 0 <= i < |rest| ==> rest[i] == items[i];
      ReopenAllMoves(b, n, rest, posting, from, paidIn, currency);
      var c := ReopenAll(b, n, rest, posting).book;
      assert ReopenableAt(b, q.item, paidIn);
      CurrentGrows(b, c, q.item);
      ReopenSound(c, q.item, n.line, posting, from, currency);
      GrowsChain(b, c, Reopen(c, q.item, n.line, posting));
    }
  }

  lemma {:induction false} RefundOneMoves(r: Returns, n: Noted, posting: Date, from: nat, currency: string)
    requires Valid(r.book) && CentsOnly(r.book) && BalancedFrom(r.book, from) && IsRefund(n.line)
    ensures var r' := RefundOne(r, n, posting);
      && Sound(r.book, r'.book, from)
      && BankBalance(r'.book, currency) + RefusedMove(r'.refused, currency)
         == BankBalance(r.book, currency) + RefusedMove(r.refused, currency) + Movement(n.line, currency)
  {
    match MatchReturnedReceipt(r.book, n.line, ClearedItems(r.book, CustomerLine)) {
      case Stays(reason) =>
        SumSnoc(r.refused, Refusal(n.at, n.line, reason), (u: Refusal) => Movement(u.line, currency));
      case Reopens(items) =>
        RefundIsReopenable(r.book, n.line, items);
        ReopenAllMoves(r.book, n, items, posting, from, Currency(n.line.currency), currency);
    }
  }

  lemma {:induction false} RefundAllMoves(b: Book, noted: seq<Noted>, posting: Date, from: nat, currency: string)
    requires Valid(b) && CentsOnly(b) && BalancedFrom(b, from)
    requires forall i :: 0 <= i < |noted| ==> IsRefund(noted[i].line)
    ensures var r := RefundAll(b, noted, posting);
      && Sound(b, r.book, from)
      && BankBalance(r.book, currency) + RefusedMove(r.refused, currency) == BankBalance(b, currency) + NotedMove(noted, currency)
  {
    if |noted| > 0 {
      var rest, n := noted[..|noted| - 1], noted[|noted| - 1];
      RefundAllMoves(b, rest, posting, from, currency);
      var r := RefundAll(b, rest, posting);
      RefundOneMoves(r, n, posting, from, currency);
      GrowsChain(b, r.book, RefundOne(r, n, posting).book);
    }
  }

  // ----- the statement -----

  /** A ledger of whole cents takes any statement to one, keeps its invariant, and every
      document it posts balances. The bank moves, in each currency, by exactly the lines that
      were processed: all of them less those reported unprocessed. */
  lemma {:induction false} StatementMovesBank(b: Book, lines: seq<StatementLine>, posting: Date, statement: string, from: nat,
                                              currency: string)
    requires Valid(b) && CentsOnly(b) && BalancedFrom(b, from)
    ensures var out := Apply(b, lines, posting, statement);
      && Sound(b, out.book, from)
      && BankBalance(out.book, currency)
         == BankBalance(b, currency) + LinesMove(lines, currency) - RefusedMove(out.unprocessed, currency)
  {
    var s := StagesOf(b, lines, posting, statement);
    var r, returned, refunded := s.read, s.returned, s.refunded;
    StagesKeep(b, lines, posting, statement);
    StatementKeeps(b, lines, posting, statement);
    ReadLinesMove(b, lines, posting, currency);
    ReadIsExact(b, r, lines, posting);
    PostAllKeeps(b, SupplierLine, r.settling, posting, statement);
    PostAllMoves(b, SupplierLine, r.settling, posting, statement, from, currency);
    PostAllKeeps(s.paid.book, CustomerLine, r.receiving, posting, statement);
    PostAllMoves(s.paid.book, CustomerLine, r.receiving, posting, statement, from, currency);
    ReturnAllMoves(s.received.book, r.returning, posting, from, currency);
    RefundAllMoves(returned.book, r.refunding, posting, from, currency);
    SumAppend(r.unprocessed, returned.refused, (u: Refusal) => Movement(u.line, currency));
    SumAppend(r.unprocessed + returned.refused, refunded.refused, (u: Refusal) => Movement(u.line, currency));
  }
}
