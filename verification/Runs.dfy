/** Whole runs: invoices posted and changed, orders billed and statements applied, in any order. */
module Runs {
  import opened Common
  import opened Money
  import opened Text
  import opened Terms
  import opened Books
  import opened Totals
  import opened Matching
  import opened Statements
  import opened Grouping
  import opened Returning
  import opened Conservation
  import opened History
  import opened Claims
  import opened Later
  import opened Invoices

  datatype Step =
    | TakeStatement(lines: seq<StatementLine>, posting: Date, statement: string)
    | TakeInvoice(inv: Incoming)
    | ChangeInvoice(at: nat, change: InvoiceChange)
    | BillFor(order: Order, rate: Rate)

  /** A step the ledger refuses leaves it as it was. */
  function Do(b: Book, step: Step): Book {
    match step
    case TakeStatement(lines, posting, statement) => Apply(b, lines, posting, statement).book
    case TakeInvoice(inv) => (match PostInvoice(b, inv) case Ok(c) => c case Err(_) => b)
    case ChangeInvoice(at, change) => (match UpdateInvoice(b, at, change) case Ok(c) => c case Err(_) => b)
    case BillFor(order, rate) => BillOrder(b, order, rate)
  }

  function Run(b: Book, steps: seq<Step>): Book {
    if |steps| == 0 then b else Do(Run(b, steps[..|steps| - 1]), steps[|steps| - 1])
  }

  // ----- what holds in every state reached -----

  ghost predicate InOrder(b: Book, from: nat) {
    Valid(b) && CentsOnly(b) && BalancedFrom(b, from) && Agrees(b)
  }

  /** A ledger nothing has been posted to, its number range starting anywhere. */
  function EmptyBook(next: nat): Book {
    Book([], [], [], [], next)
  }

  lemma {:induction false} DoKeeps(b: Book, step: Step, from: nat)
    requires InOrder(b, from)
    ensures InOrder(Do(b, step), from)
  {
    var c := Do(b, step);
    match step {
      case TakeStatement(lines, posting, statement) =>
        StatementMovesBank(b, lines, posting, statement, from, "");
        StatementAgrees(b, lines, posting, statement);
      case TakeInvoice(inv) =>
        if PostInvoice(b, inv).Ok? {
          InvoiceKeeps(b, inv);
          forall doc: nat | from <= doc < c.next ensures DocumentBalance(c.items, doc) == 0 {
            InvoiceBalances(b, inv, doc);
          }
        }
      case ChangeInvoice(at, change) =>
        if at < |b.invoices| {
          UpdateKeeps(b, at, change);
          forall doc: nat | from <= doc < c.next ensures DocumentBalance(c.items, doc) == 0 {
            UpdateBalances(b, at, change, doc);
          }
        }
      case BillFor(order, rate) =>
        BillingKeeps(b, order, rate);
        forall doc: nat | from <= doc < c.next ensures DocumentBalance(c.items, doc) == 0 {
          BillingBalances(b, order, rate, doc);
        }
    }
  }

  /** Every state of every run: keys unique and numbers ahead of their use, amounts whole cents,
      every document balanced, invoices and their open items agreeing on block and claim. */
  lemma {:induction false} RunKeeps(b: Book, steps: seq<Step>, from: nat)
    requires InOrder(b, from)
    ensures InOrder(Run(b, steps), from)
  {
    if |steps| > 0 {
      RunKeeps(b, steps[..|steps| - 1], from);
      DoKeeps(Run(b, steps[..|steps| - 1]), steps[|steps| - 1], from);
    }
  }

  lemma {:induction false} ReachableInOrder(next: nat, steps: seq<Step>)
    ensures InOrder(Run(EmptyBook(next), steps), next)
  {
    RunKeeps(EmptyBook(next), steps, next);
  }

  // ----- nothing posted is taken away -----

  lemma {:induction false} AddsFollows(b: Book, c: Book)
    requires Extends(b, c) && Valid(b)
    requires forall i :: 0 <= i < |b.items| ==> c.items[i].clearing == b.items[i].clearing
    requires forall i :: |b.items| <= i < |c.items| ==> c.items[i].clearing.Open?
    ensures Follows(b, c)
  {
  }

  lemma {:induction false} PostFollows(b: Book, h: Heading, lines: seq<PostLine>, c: Book)
    requires Valid(b) && c.items == Post(b, h, lines).items && c.headers == Post(b, h, lines).headers && c.next == b.next + 1
    ensures Follows(b, c)
  {
    hide NewItem;
    PostExtends(b, h, lines);
    forall i | 0 <= i < |b.items| ensures c.items[i] == b.items[i] {
      assert c.items[..|b.items|][i] == b.items[i];
    }
    AddsFollows(b, c);
  }

  lemma {:induction false} StepFollows(b: Book, step: Step)
    requires Valid(b)
    ensures Follows(b, Do(b, step))
  {
    hide Valid, InvoiceLines, BillingLines, Apply, NewItem, Extends, ClearsForward;
    match step {
      case TakeStatement(lines, posting, statement) =>
        StatementFollows(b, lines, posting, statement);
      case TakeInvoice(inv) =>
        FollowsSelf(b);
        if PostInvoice(b, inv).Ok? {
          PostFollows(b, Heading(inv.company, "RE", inv.posting, inv.currency, inv.reference), InvoiceLines(inv), Do(b, step));
        }
      case ChangeInvoice(at, change) =>
        FollowsSelf(b);
        if at < |b.invoices| {
          UpdateKeeps(b, at, change);
          UpdateFollows(b, at, change);
        }
      case BillFor(order, rate) =>
        PostFollows(b, Heading("1710", "RV", order.today, order.currency, order.number), BillingLines(order, rate), Do(b, step));
    }
  }

  lemma {:induction false} UpdateFollows(b: Book, at: nat, change: InvoiceChange)
    requires Valid(b) && at < |b.invoices|
    ensures Follows(b, UpdateInvoice(b, at, change).value)
  {
    UpdateKeeps(b, at, change);
    AddsFollows(b, UpdateInvoice(b, at, change).value);
  }

  lemma {:induction false} StepValid(b: Book, step: Step)
    requires Valid(b)
    ensures Valid(Do(b, step)) && (CentsOnly(b) ==> CentsOnly(Do(b, step)))
  {
    hide Valid, InvoiceLines, BillingLines, Apply, NewItem, CentsOnly;
    match step {
      case TakeStatement(lines, posting, statement) =>
        StatementKeeps(b, lines, posting, statement);
        if CentsOnly(b) {
          StatementMovesBank(b, lines, posting, statement, b.next, "");
        }
      case TakeInvoice(inv) =>
        if PostInvoice(b, inv).Ok? {
          InvoiceKeeps(b, inv);
        }
      case ChangeInvoice(at, change) =>
        if at < |b.invoices| {
          UpdateKeeps(b, at, change);
        }
      case BillFor(order, rate) =>
        BillingKeeps(b, order, rate);
    }
  }

  /** Whatever is done - statements applied, invoices posted or changed, orders billed - the rows and
      documents there were stay, with all that was said in them, and nothing is ever again cleared on
      the account of a document that was already there. */
  lemma {:induction false} RunFollows(b: Book, steps: seq<Step>)
    requires Valid(b)
    ensures Valid(Run(b, steps)) && Follows(b, Run(b, steps)) && (CentsOnly(b) ==> CentsOnly(Run(b, steps)))
  {
    hide Valid, Follows, CentsOnly, Do;
    FollowsSelf(b);
    if |steps| > 0 {
      var rest, last := steps[..|steps| - 1], steps[|steps| - 1];
      RunFollows(b, rest);
      StepValid(Run(b, rest), last);
      StepFollows(Run(b, rest), last);
      FollowsChain(b, Run(b, rest), Run(b, steps));
    }
  }

  // ----- nothing is paid twice -----

  function StepEvents(b: Book, step: Step): seq<Event> {
    match step
    case TakeStatement(lines, posting, statement) => EventsOf(Apply(b, lines, posting, statement))
    case _ => []
  }

  function RunEvents(b: Book, steps: seq<Step>): seq<Event> {
    if |steps| == 0 then []
    else
      var rest := steps[..|steps| - 1];
      RunEvents(b, rest) + StepEvents(Run(b, rest), steps[|steps| - 1])
  }

  /** Rows kept with their clearing, rows added after them: every key is as it was. */
  lemma {:induction false} SameClearing(b: Book, c: Book, key: Key)
    requires Valid(b) && Valid(c) && HasKey(b, key) && |b.items| <= |c.items|
    requires forall i :: 0 <= i < |b.items| ==> c.items[i].key == b.items[i].key && c.items[i].clearing == b.items[i].clearing
    ensures HasKey(c, key) && (IsCleared(c, key) <==> IsCleared(b, key))
  {
    var i :| 0 <= i < |b.items| && b.items[i].key == key;
    assert c.items[i].key == key;
    OpenOrCleared(b, key);
    OpenOrCleared(c, key);
  }

  lemma {:induction false} DoAlternates(b: Book, step: Step, key: Key)
    requires Valid(b) && HasKey(b, key)
    ensures Valid(Do(b, step)) && HasKey(Do(b, step), key)
    ensures Play(StepEvents(b, step), key, IsCleared(b, key)) == Some(IsCleared(Do(b, step), key))
  {
    hide IsCleared, InvoiceLines, BillingLines, Apply, EventsOf, CentsOnly, Agrees, NewItem;
    match step {
      case TakeStatement(lines, posting, statement) =>
        StatementAlternates(b, lines, posting, statement, key);
        StatementKeeps(b, lines, posting, statement);
        HasKeyGrows(b, Do(b, step), key);
      case TakeInvoice(inv) =>
        if PostInvoice(b, inv).Ok? {
          InvoiceKeeps(b, inv);
          SameClearing(b, Do(b, step), key);
        }
      case ChangeInvoice(at, change) =>
        if at < |b.invoices| {
          UpdateKeeps(b, at, change);
          SameClearing(b, Do(b, step), key);
        }
      case BillFor(order, rate) =>
        BillingKeeps(b, order, rate);
        SameClearing(b, Do(b, step), key);
    }
  }

  lemma {:induction false} RunAlternates(b: Book, steps: seq<Step>, key: Key)
    requires Valid(b) && HasKey(b, key)
    ensures Valid(Run(b, steps)) && HasKey(Run(b, steps), key)
    ensures Play(RunEvents(b, steps), key, IsCleared(b, key)) == Some(IsCleared(Run(b, steps), key))
  {
    if |steps| > 0 {
      var rest, last := steps[..|steps| - 1], steps[|steps| - 1];
      RunAlternates(b, rest, key);
      var c := Run(b, rest);
      DoAlternates(c, last, key);
      PlayAppend(RunEvents(b, rest), StepEvents(c, last), key, IsCleared(b, key));
    }
  }

  /** An item that starts open: after any run, and at every point along it, its clearings are as
      many as its reversals or one more - so between two payments of it lies a return - and at the
      end they are one more exactly when it is cleared. */
  lemma {:induction false} NeverPaidTwice(b: Book, steps: seq<Step>, key: Key, n: nat)
    requires Valid(b) && IsOpen(b, key) && n <= |RunEvents(b, steps)|
    ensures var events := RunEvents(b, steps);
      && 0 <= Count(events[..n], Clear(key)) - Count(events[..n], Reverse(key)) <= 1
      && Count(events, Clear(key)) - Count(events, Reverse(key)) == (if IsCleared(Run(b, steps), key) then 1 else 0)
  {
    var events := RunEvents(b, steps);
    OpenOrCleared(b, key);
    RunAlternates(b, steps, key);
    PlayPrefix(events, key, false, n);
    PlayCounts(events[..n], key, false);
    PlayCounts(events, key, false);
  }
}
