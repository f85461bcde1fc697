# Proofs about a mock SAP system

A Dafny model of the parts of `mocksap` that keep books, and proofs about it.

- **Open items and bank statements.** The ledger is a value (`Books.Book`): accounting document rows,
  document headers, supplier invoices, billing documents and a number range. A statement is read line by
  line into four streams - payments, receipts, returned payments, returned receipts - posted one document
  for each payee, and what came back is reversed. `LedgerTables.Ledger` is the same ledger changed in place,
  method for method; each method leaves the value its specification says, and the laws are proved of the
  specifications: what every statement and every run keeps, what it moves, and what it reports.
- **Deliveries** against a sales order: an over-delivery tolerance, split shipments, a status.
- **Delta replication**: stamped rows, a log of deletions, a token that is a truncated moment.
- **The `$filter` compiler**: tokens to an expression, an expression to SQL with its bind values, and the SQL
  read back with the database's precedences and worth, in three-valued logic, what the filter means.
- **Cascading deletes**, **IBAN check digits** and **key predicates**.

Amounts and quantities are whole numbers of thousandths; rounding (`Money.HalfUp`) is half away from zero.
The files are one module each and build on one another in this order: `Common`, `Money`, `Text`, `Decimals`,
`Sorting`, `Terms`, `Search`, `Books`, `Totals`, `Matching`, `Posting`, `Receivables`, `Statements`,
`Grouping`, `Returning`, `Answers`, `Quoting`, `Conservation`, `Partition`, `History`, `Interleaving`, `Claims`,
`Later`, `Discounts`, `Invoices`, `Vouchers`, `Runs`, `Refunds`, `Remittance`, `Outcomes`, `Reporting`, `Ledger`; then
`Deliveries`; `Timestamps`, `Replication`; `FilterSyntax`, `FilterGrammar`, `FilterSql`, `FilterCompiler`, `SqlReading`,
`FilterMeaning`, `FilterWords`; `Cascade`; `Iban`; `KeyPredicates`. `dfyconfig.toml` lists them.

Definitions that many proofs go through are also given outright, in words, figures and rows and not by one another:
what a line quotes (`Quoting`), which discount terms give and what becomes of it (`Discounts`), every header and row of
every document (`Vouchers`), every row of an outcome (`Outcomes`), every word of a filter (`FilterWords`).

Properties that turned out not to hold of the code as it is, each with a counterexample and the exact condition
under which the code does what was meant:

- A document that `balance_of` accepts can post rows that are a cent out, when its lines are finer than a
  cent (`Totals.AcceptedAndOut`); it comes to nothing if and only if what rounding takes off its lines is, all
  together, less than half a cent either way (`Totals.AcceptedBalances`) - as when every line is whole cents.
- A shipment split into parts finer than a thousandth can exceed what one call would be refused
  (`Deliveries.FinePartsSlip`). Two parts get the answer the whole would get if and only if the room the second
  leaves does not lie between the first and what is stored of it (`Deliveries.FineParts`); whole thousandths may
  be split freely (`Deliveries.SplitShipment`), and the stored total never exceeds the tolerance
  (`Deliveries.RunTolerated`).
- A row deleted and created again between two delta reads is lost to the client
  (`Replication.RecreatedIsLost`, `Replication.LostStaysLost`); the replica is exact exactly where this does
  not happen (`Replication.ReplicaConverges`).
- A parenthesis in a `$filter` always holds a condition, so `(2 add 1) eq 3` is false of every row
  (`FilterMeaning.GroupingLost`); a value in one is kept just when it is 0, 1 or null
  (`FilterMeaning.ParenKeeps`), and where all of them are, grouping is what is selected
  (`FilterMeaning.GroupedFilterMeans`). The repository's README lists parentheses and arithmetic without saying so.
- `endswith` with the empty text holds of the empty text only (`FilterMeaning.EndsWithMeans`).
- The MOD 97 test does not tell three letter-digit pairs from their reversal: B1, M2 and X3
  (`Iban.SwapRefused`).
- A key predicate does not read back when a composite key has a line break in a value, or a single key an
  equals sign (`KeyPredicates.CompositeRoundTrip`, `KeyPredicates.SingleRoundTrip`).

## Model

| member | source | states |
|---|---|---|
| Search.SearchFrom | mocksap/reconcile.py:439-451 | the pruned backtracking search, as it recurses and appends, finds exactly the specified hits in order |
| Search.SearchIsExact | mocksap/reconcile.py:429-454 | a reading is found if and only if some choice per item (left out, or one of its ways) gives it, it is not empty, and it comes to exactly the amount: pruning loses nothing and nothing else is found |
| Search.SearchFindsOnce | mocksap/reconcile.py:429-454 | no reading is found twice when the items differ and an item's ways differ in their discount |
| Search.SearchIsBounded | mocksap/reconcile.py:520-528 | the ends the search reaches are at most the product of one plus the ways, which is what the guard counts |
| Search.EverySetSummingTo | mocksap/reconcile.py:364-373 | the loop over bit masks collects exactly the sets, in mask order, that come to the amount |
| Search.SetsAreReadings | mocksap/reconcile.py:364-454 | with no discounts on offer a set is found by the one search if and only if it is found, paid in full, by the other |
| Search.SearchAnswers | mocksap/reconcile.py:429-454 | one reading is found if and only if exactly one choice - each item left out or paid one of its ways, not all left out - comes to the amount, and it is that choice; none is found if and only if none does |
| Search.SetsAnswer | mocksap/reconcile.py:364-373 | one set is found if and only if exactly one choice of items, whole or left out, comes to the amount, and it is that choice |
| Terms.DiscountFits | mocksap/documents.py:326-364 | a discount under the table's terms is whole cents, between nothing and the amount, and earned whole or not at all |
| Terms.OwnRateFits | mocksap/documents.py:298-309 | a document's own rate up to 100% keeps the discount within a whole-cent amount |
| Money.HalfUpNearest | mocksap/money.py:56-71 | rounding is off by at most a half, and an exact half goes away from zero |
| Text.StripMeans | mocksap/reconcile.py:83-101 | a text is what is stripped from it on either side, all spaces, around a rest that neither begins nor ends with one |
| Text.ContainsMeans | mocksap/reconcile.py:171-174 | a text has another as a part if and only if it is something, that, and something |
| Text.TightMeans | mocksap/reconcile.py:72-80 | the tight form leaves out the spaces and nothing else |
| Text.SpacesAre | mocksap/reconcile.py:72-80 | the characters that count as spaces |
| Text.CasesAre | mocksap/reconcile.py:214-216 | upper and lower case, letter by letter |
| Matching.WaysAreSound | mocksap/reconcile.py:410-426 | what a payer could have sent is never negative, and an item's two ways differ in their discount, as the search needs |
| Matching.MatchAnswers | mocksap/reconcile.py:249-355 | a line is answered if and only if some item fits it in reference, amount and currency and either all that fit are one party's or exactly one carries a payment run's claim, which is then the answer |
| Matching.PartyIsDetermined | mocksap/reconcile.py:249-355 | neither being answered nor the party paid depends on the order of the candidates; where a claim decides, nor does the item |
| Statements.ReceiptTakes | mocksap/reconcile.py:466-557 | an answered receipt takes quoted open items of the line's currency, each once, whole or by its own discount, together worth exactly the line |
| Statements.ReadLinesOk | mocksap/reconcile.py:1101-1164 | reading all lines first with a set of claimed items never takes an item twice, and every entry is what the ledger and the line say |
| Answers.ReceiptAnswered | mocksap/reconcile.py:466-557 | money arriving is answered if and only if the line can be searched and exactly one choice of the items it quotes in its currency - left out, whole or net of the discount on offer - comes to its amount; the answer is that choice |
| Answers.ReceiptIsBounded | mocksap/reconcile.py:518-528 | a line that passes the guard on the number of ways is searched in no more ends than the guard allows |
| Answers.RefundAnswered | mocksap/reconcile.py:582-631 | money going back is answered if and only if nothing quoted was cleared by a receipt that took a discount and exactly one choice of the items, whole or left out, comes to its amount; the answer is that choice |
| Quoting.QuotesSays | mocksap/reconcile.py:153-174 | a line quotes a reference if and only if it states exactly it, blanks at the ends aside, or states none and its note has the reference as a part, as it stands or with both rid of their spaces |
| Quoting.ReferenceKnown | mocksap/reconcile.py:122-150 | the reference looked for is the number of the first billing naming the item's document, for a receivable, or of the first invoice that posted it, for a payable |
| Quoting.MatchSays | mocksap/reconcile.py:153-355 | an answered payment or return is for an item of the line's amount and currency, known by a reference the line states or, stating none, has in its note; the answer gives that reference |
| Quoting.MatchFinds | mocksap/reconcile.py:249-355 | and it is answered wherever an item is so paid and every other that is belongs to the same party; a sole candidate is then the answer |
| Quoting.MatchTies | mocksap/reconcile.py:249-355 | two candidates of different parties that the line pays are answered if and only if exactly one is in a payment run, by that one |
| Quoting.ReceiptSays | mocksap/reconcile.py:466-557 | every item a receipt takes is named by the line with the reference it is taken under, in the line's currency |
| Quoting.RefundSays | mocksap/reconcile.py:582-631 | and so every item a returned receipt gives back |
| Quoting.SearchedAreNamed | mocksap/reconcile.py:239-246 | the items searched over are exactly the candidates the line so names |
| Quoting.StatementSays | mocksap/reconcile.py:1101-1164 | whatever a statement settles its line names by the reference reported, a payment for exactly the item's amount |
| Books.NewItemAmount | mocksap/documents.py:393-405 | a posted row is whole cents and carries the rounded line's sign as debit or credit |
| Books.SetAllRows | mocksap/reconcile.py:634-645 | clearing one item after another is the same as changing each row of the table on its own |
| Books.SettleIs | mocksap/reconcile.py:634-684 | the whole new state after posting, clearing others and self-clearing: old rows under the clearings named, then the document's rows, its own lines cleared up to where that was asked |
| Books.SettleKeeps | mocksap/reconcile.py:729-940 | a settled document keeps keys unique, numbers ahead of their use and amounts whole cents, and only adds rows |
| Totals.RoundingBound | mocksap/documents.py:717-727 | amounts of any fineness whose sum rounds to nothing have a rounded sum below half a cent for each of them and one more |
| Totals.AcceptedDocument | mocksap/documents.py:393-400 | a document `balance_of` accepts posts rows out by less than half a cent for each line and one more, and by nothing when every line is whole cents |
| Totals.AcceptedBalances | mocksap/documents.py:393-400 | an accepted document comes to nothing if and only if what rounding takes off its lines sums to strictly less than half a cent either way |
| Totals.AcceptedAndOut | mocksap/documents.py:393-400 | on any ledger three lines that come to nothing and are accepted post a document a cent out |
| Totals.SettleMovesAccount | mocksap/documents.py:393-410 | an account moves, in each currency, by exactly what the document's lines on it were rounded to |
| Totals.SettleOpenKeys | mocksap/reconcile.py:648-684 | after a document that only clears, the open items are the old ones it did not name and then those of its own lines it left open |
| Posting.PayMoves | mocksap/reconcile.py:729-775 | a payment takes exactly the total of its lines out of the bank, in its currency only |
| Posting.PayBalances | mocksap/reconcile.py:729-775 | a payment's debits and credits come to nothing, and no other document's change |
| Posting.CollectMoves | mocksap/reconcile.py:785-864 | a receipt brings the bank what was owed less the discounts taken and charges the discount account the earned ones |
| Posting.CollectBalances | mocksap/reconcile.py:785-864 | a receipt's debits and credits come to nothing, and no other document's change |
| Posting.ReopenMoves | mocksap/reconcile.py:897-940 | a return moves the bank by the item's amount, in for a payment of ours and out for a receipt |
| Posting.ReopenBalances | mocksap/reconcile.py:897-940 | a return's debit and credit come to nothing, whatever the amount |
| Receivables.PayLeavesOpen | mocksap/reconcile.py:729-775 | after a payment the open payables are the old ones less those paid: its own lines are no new debt |
| Receivables.CollectLeavesOpen | mocksap/reconcile.py:785-864 | after a receipt the open receivables are the old ones less those cleared, then one new line of that amount and customer for each discount not earned |
| Receivables.CollectConserves | mocksap/reconcile.py:785-864 | for each invoice, and in total, what was owed is cash, an earned discount or a newly opened unearned one |
| Receivables.ReopenOpens | mocksap/reconcile.py:897-940 | a return puts the item's amount back among what is open on its side, and nothing else |
| Receivables.PaidNetIsDiscount | mocksap/reconcile.py:560-577 | each item a receipt cleared reads as paid net if and only if the receipt took a discount on some item |
| Receivables.PaidNetStays | mocksap/reconcile.py:560-577 | and reads the same in any ledger with the same rows and more, whatever became of invoices and billings |
| Returning.RefundTakes | mocksap/reconcile.py:582-631 | an answered return of a receipt takes back quoted cleared items, each once and none of a receipt that took a discount, together worth exactly the line |
| Returning.StatementKeeps | mocksap/reconcile.py:1086-1244 | every statement keeps the ledger's invariant and only adds to it |
| Grouping.PostAllKeeps | mocksap/reconcile.py:1169-1173 | posting group by group finds every item still open and clears, of the items there were, exactly the entries' |
| Grouping.GroupsSumAll | mocksap/reconcile.py:1170-1173 | summing over the groups by payee is summing over the entries |
| Conservation.StatementMovesBank | mocksap/reconcile.py:1086-1244 | on a ledger of whole cents the bank moves, in each currency, by exactly the signed sum of the lines processed, every document posted balances, and amounts stay whole cents |
| Partition.EveryLineRead | mocksap/reconcile.py:1101-1164 | every line is read once, into one stream for its whole amount or as unprocessed |
| Partition.LinePartition | mocksap/reconcile.py:1086-1244 | every line is reported in exactly one of the three lists, and the amounts of a processed line's rows add up to exactly the line |
| Reporting.ReportAccounts | mocksap/reconcile.py:1076-1083 | the lists shown are in line order, a line's rows in the order they were posted, and account for every line as the posting did |
| Sorting.OrderStable | mocksap/reconcile.py:1076-1083 | the sort orders by number and keeps elements of one number in the order they were in |
| History.StatementAlternates | mocksap/reconcile.py:1105-1220 | a statement's clearings and reversals of an item alternate, from whether it was cleared to whether it is |
| Interleaving.InterleavingIsImmaterial | mocksap/reconcile.py:1099-1220 | two statements of the same four streams, interleaved differently, leave the identical ledger, document numbers included, and report the same rows in posting order up to their line numbers |
| Refunds.RefundIsSound | mocksap/reconcile.py:582-631 | a processed refund reopens cleared receivables of undiscounted receipts worth exactly the line, the bank gives up that much and that much is owed again |
| Refunds.PaidNetForGood | mocksap/reconcile.py:560-577 | after any run from the ledger a receipt left, an item it still has cleared reads as paid net if and only if it took a discount on some item |
| Refunds.StatementPaidNet | mocksap/reconcile.py:785-864 | so for each receipt of any statement, through the rest of that statement and any run after it |
| Refunds.RefundedReceiptTookNone | mocksap/reconcile.py:560-606 | after any run of statements, invoices, changes and billings, at any returned receipt of any statement: an item a receipt cleared is given back only if that receipt took no discount on any item |
| Refunds.RefundUndoesReceipt | mocksap/reconcile.py:785-940 | a receipt without discounts and the return of all its items cancel, whatever run of statements, invoices, changes and billings lies between |
| Claims.StatementAgrees | mocksap/store.py:68-98 | a statement leaves invoices and their supplier lines agreeing on block and claim, and no claim on either row of a payable whose clearing it changed |
| Later.StatementFollows | mocksap/reconcile.py:1086-1244 | so for one statement: what was there stays, and nothing is cleared on an older document's account |
| Discounts.OfferedIs | mocksap/documents.py:213-364 | a discount is on offer if and only if the terms are `0002` or `0003` and 2% or 3% of the amount is a cent or more; it is that to the cent, earned whole up to 10 or 14 days after the baseline date and not at all later |
| Discounts.CollectPostsDiscounts | mocksap/reconcile.py:785-864 | a receipt charges the discount account exactly the discounts taken in time, and opens one line for each other, of its customer and amount, and no more |
| Discounts.StatementDiscounts | mocksap/reconcile.py:785-864 | so for every receipt of every statement: nobody deducts anything but what the terms give |
| Discounts.SoleReceipt | mocksap/reconcile.py:410-557 | a sole receivable the line names is settled if and only if the line is for its amount, or for that less exactly the discount of its terms |
| Invoices.InvoiceAccepted | mocksap/documents.py:472-555 | an invoice is accepted if and only if it names a supplier, its gross is its net plus its tax, and items that all state an amount come to the net |
| Invoices.InvoiceBalances | mocksap/documents.py:512-555 | an accepted invoice posts a document that comes to nothing |
| Invoices.BillingBalances | mocksap/documents.py:736-790 | billing an order at any rate posts a document that comes to nothing, tax rounded half up |
| Invoices.InvoiceKeeps | mocksap/documents.py:472-584 | posting an invoice keeps the ledger's invariant and the agreement of invoices with their open items |
| Invoices.UpdateKeeps | mocksap/store.py:39-65 | changing an invoice's block, run or reference keeps them too, and changes no row's facts or clearing |
| Vouchers.PaymentIs | mocksap/reconcile.py:729-775 | a payment, row by row: its header, a debit on each item's own supplier for its line's amount, one credit on the bank for them all; its supplier lines cleared by itself, each item by the line of its place, nothing else touched |
| Vouchers.ReceiptIs | mocksap/reconcile.py:785-864 | a receipt, row by row: each customer credited with the whole item, the bank debited with what came, each discount on the discount account or, unearned, on the customer again and open; only the clearing lines cleared |
| Vouchers.ReturnIs | mocksap/reconcile.py:891-940 | a return, row by row: the item's amount out of the bank and onto the customer, or into it and off the supplier; its own party line cleared, the item open again and marked reversed, nothing else touched |
| Vouchers.BillingIs | mocksap/documents.py:736-793 | a billing: the order's customer debited with net and tax on the order's terms from today, revenue credited with the net, output tax with the tax; net is what the items come to and tax that times the rate, each the nearest cent with a half going up; the billing names document and gross |
| Vouchers.InvoiceIs | mocksap/documents.py:472-584 | an invoice is accepted if and only if it names a supplier, the rounded gross is net and tax, and items that all state an amount come to the net; then the supplier is credited on its terms, baseline and block, expense and input tax debited, and its row names the document |
| Vouchers.UpdateIs | mocksap/store.py:39-65 | a change takes over what it states and leaves the rest, on the invoice and on the supplier lines it posted and nowhere else |
| Vouchers.RoundsToOne | mocksap/money.py:56-71 | only one amount of whole cents is nearest to a fraction with a half going outwards |
| Runs.RunKeeps | mocksap/store.py:39-98 | in every state of every run of statements, invoices, changes and billings: unique keys, whole cents, balanced documents, invoices and open items agreeing |
| Runs.ReachableInOrder | mocksap/reconcile.py:1086-1244 | so from an empty ledger, whatever is done |
| Runs.RunFollows | mocksap/reconcile.py:634-684 | no run takes a row or a document away or changes what it says, and none clears anything more on the account of a document that was already there |
| Runs.NeverPaidTwice | mocksap/reconcile.py:634-684 | for an item that started open, at every point of every run its clearings are its reversals or one more, and in the end one more if and only if it is cleared |
| Remittance.RemittanceAgrees | mocksap/reconcile.py:943-1021 | after any run of statements, invoices, changes and billings a payment's remittance lists exactly the items still paid, each with the amount of the line that paid it and the number of the supplier's invoice; the payees are their suppliers, the header the payment's; it is refused as out of balance if and only if an item worth something was reopened, and otherwise totals the bank's credit |
| Remittance.StatementRemits | mocksap/reconcile.py:729-1021 | so for each payment of any statement, through the rest of that statement and any run after it |
| Outcomes.StatementClears | mocksap/reconcile.py:1086-1186 | a row reported as cleared names an item that was open and that its line names by the row's reference, money out for a payable and declared arriving for a receivable; the item carries the row's document as its clearing, dated the posting day, a payment or receipt of the statement; the amount is the item's, or less the discount its terms give |
| Outcomes.OneDocumentEach | mocksap/reconcile.py:693-714 | two items a statement clears share a document if and only if they are of one side, supplier or customer, company and currency |
| Outcomes.StatementReopens | mocksap/reconcile.py:1187-1223 | a row reported as reopened names an item cleared when the line was matched and named by it under the row's reference, money declared to come back; its document quotes the line, and the item is open and marked reversed at the statement's end |
| Outcomes.RefusedForKind | mocksap/reconcile.py:1117-1164 | a line is refused for its side if and only if it moves nothing, and for its kind if and only if it is money in of undeclared kind |
| Outcomes.StatementPays | mocksap/reconcile.py:729-775 | every payment of a statement is posted row by row as a payment is, and stays |
| Outcomes.StatementCollects | mocksap/reconcile.py:785-864 | and so every receipt |
| LedgerTables.Ledger.PostJournalEntry | mocksap/documents.py:367-417 | number, header and rows, one insert a line: the new ledger is the old one with the document posted |
| LedgerTables.Ledger.SetClearing | mocksap/reconcile.py:634-645 | the item's clearing fields are set and every row of its document, and its invoice, forgets the payment run |
| LedgerTables.Ledger.ReleasePaymentRun | mocksap/store.py:68-98 | row by row, the item's whole document and the invoice that posted it end with no claim, every other row as it was, no key, line, block or clearing changed; invoices and open items that agreed still do |
| LedgerTables.Ledger.SelfClear | mocksap/reconcile.py:648-684 | the loop over the document's lines on its side, skipping those not named, clears exactly those lines by the document |
| LedgerTables.Ledger.Pay | mocksap/reconcile.py:729-775 | the ledger afterwards is the specified payment of the group, the amounts those of the lines |
| LedgerTables.Ledger.Collect | mocksap/reconcile.py:785-864 | the ledger afterwards is the specified receipt, the amounts what was owed less the discounts |
| LedgerTables.Ledger.Reopen | mocksap/reconcile.py:897-940 | the ledger afterwards is the specified return of the item |
| LedgerTables.Ledger.MatchReceipt | mocksap/reconcile.py:466-557 | the guards, the count of ways and the search, step by step, answer as specified |
| LedgerTables.Ledger.MatchReturnedReceipt | mocksap/reconcile.py:582-631 | the same for a receipt going back, with the search over sets |
| LedgerTables.Ledger.ReadStatement | mocksap/reconcile.py:1094-1164 | the loop over the lines with its lists and its set of claimed items reads what is specified |
| LedgerTables.Ledger.PostByPayee | mocksap/reconcile.py:1169-1186 | grouping in a dictionary and posting in its order leaves the ledger and the rows specified |
| LedgerTables.Ledger.ByPayee | mocksap/reconcile.py:1170-1172 | the dictionary holds the payees in the order first named, each with its entries in order and none without |
| LedgerTables.Ledger.TakeReturns | mocksap/reconcile.py:1192-1204 | returned payments are matched against what is cleared by then and reversed one after another |
| LedgerTables.Ledger.TakeRefunds | mocksap/reconcile.py:1209-1223 | returned receipts reopen every item of the transfer, each by a document of its own |
| LedgerTables.Ledger.ApplyStatement | mocksap/reconcile.py:1086-1244 | the whole statement: the ledger and the reported outcome are those specified |
| LedgerTables.Ledger.PostSupplierInvoice | mocksap/documents.py:472-584 | accepted, the ledger has the document and the invoice; refused, it is as it was |
| LedgerTables.Ledger.UpdateInvoice | mocksap/store.py:39-65 | the invoice changes and every supplier line of its document then says the same of block and run; a ledger in agreement stays so, and an unknown invoice changes nothing |
| LedgerTables.Ledger.BillOrder | mocksap/documents.py:736-793 | billing document and journal entry, the one naming the other; the ledger stays valid and the document comes to nothing |
| LedgerTables.Ledger.SettlementOf | mocksap/reconcile.py:943-1021 | the remittance built row by row is the one specified |
| Deliveries.CreateAnswers | mocksap/documents.py:112-149 | a call is refused, changing nothing, if and only if some line asks for more than its item allows; it stops half way if and only if it names an item twice; otherwise every item has what it had and what was asked |
| Deliveries.CreateTolerated | mocksap/documents.py:78-149 | every call, however it ends, keeps each limited item's stored total within its quantity and tolerance, even after rounding to three places |
| Deliveries.RunTolerated | mocksap/documents.py:78-149 | so over any run of calls |
| Deliveries.RunWithinFigures | mocksap/documents.py:78-109 | over any run no limited item has more than half a thousandth above its quantity with tolerance, and none without tolerance more than its quantity |
| Deliveries.NothingSentYet | mocksap/documents.py:78-109 | as does an order nothing was sent for, to start with |
| Deliveries.RefusedByFigures | mocksap/documents.py:78-109 | one line is refused if and only if it would bring its item above the whole number of thousandths nearest to quantity and tolerance, a half counted up |
| Deliveries.CallWrites | mocksap/documents.py:112-187 | a call that goes through draws one number and writes one row for each line, its quantity to the nearest thousandth, and nothing else; the order's status is what its totals say |
| Deliveries.SplitIndependence | mocksap/documents.py:152-187 | however the same quantities are split over accepted deliveries, every item has had the same and the status is the same |
| Deliveries.SplitShipment | mocksap/documents.py:78-109 | whole thousandths may be sent at once if and only if they may be sent in two parts |
| Deliveries.FineParts | mocksap/documents.py:78-149 | two parts of any fineness get the answer the whole would get if and only if the item is unlimited or, the first part being permitted, it fits in the room the second leaves just when its stored quantity does; where it is not permitted, it must not fit there |
| Deliveries.FinePartsSlip | mocksap/documents.py:112-149 | with one thousandth left, 1.2 of one is refused at once and sent in parts |
| Deliveries.NeverBackwards | mocksap/documents.py:152-187 | over a run that takes nothing back an order's status never goes backwards |
| Deliveries.DeliveryDesk.DeliveredSoFar | mocksap/documents.py:43-63 | the dictionary summed row by row holds each position's total over all deliveries of the order |
| Deliveries.DeliveryDesk.DeliveryStatus | mocksap/documents.py:152-171 | the two flags answer fully, partly or not yet as the totals say |
| Deliveries.DeliveryDesk.CreateDelivery | mocksap/documents.py:112-149 | the tables and the answer after a call are those specified |
| Timestamps.IsoOrder | mocksap/store.py:221-234 | the ISO texts of two moments compare as text exactly as the moments do in time, though a whole second's has no fraction |
| Timestamps.TokenRoundTrip | mocksap/delta.py:46-63 | a token reads back as its moment to the millisecond, quoted or not |
| Timestamps.IsoReads | mocksap/store.py:237-245 | the ISO text gives year, month, day, hour, minute and second at their places, and microseconds only where there are any |
| Timestamps.TokenReads | mocksap/delta.py:46-49 | the token gives the same fields run together, down to the millisecond |
| Timestamps.CalendarIs | mocksap/delta.py:52-63 | the days of the years and of February, leap years counted |
| Replication.Advance | mocksap/store.py:221-234 | a change stamp moves strictly forward and is never behind now, and never further than now or a millisecond on |
| Replication.DeltaIsExact | mocksap/delta.py:78-104 | applying a delta leaves exactly the table if and only if no row in it had its key deleted at or after the token |
| Replication.ReplicaConverges | mocksap/service.py:592-682 | over any run of writes interleaved with reads, tokens taken before their queries: the client holds exactly the table after every answered read if and only if no delta read finds a row whose key was deleted since its token |
| Replication.FreshKeysConverge | mocksap/service.py:592-682 | so over every run that never creates a key again |
| Replication.RecreatedIsLost | mocksap/service.py:643-682 | a row deleted and created again between two reads is missing after the second |
| Replication.LostStaysLost | mocksap/service.py:643-682 | and stays missing once the token is past its stamp |
| Replication.EntitySet.InsertRow | mocksap/store.py:359-452 | a new key's row is stamped now, to the millisecond; an existing key is refused and nothing changes |
| Replication.EntitySet.UpdateRow | mocksap/store.py:497-533 | the row's stamp advances with its value |
| Replication.EntitySet.DeleteRow | mocksap/store.py:546-592 | the row goes and its key is logged |
| Replication.EntitySet.DeletedSince | mocksap/delta.py:94-104 | the loop over the log collects the keys deleted at or after the moment, in order |
| Replication.EntitySet.ReadDelta | mocksap/service.py:643-682 | the answer is what changed and what was deleted since the token, and its link reads back as the moment taken before the query |
| FilterCompiler.FilterParser.ParseFilter | mocksap/odata.py:323-371 | the parser moving over its tokens builds the fragment of the expression read, or fails as the reading fails |
| FilterCompiler.FilterParser.ParseComparison | mocksap/odata.py:393-409 | one comparison, with its test for a bare null and its comparison with zero, from wherever it stands |
| FilterCompiler.FilterParser.ParsePrimary | mocksap/odata.py:422-458 | one primary, literals only of the service's version |
| FilterCompiler.Combine | mocksap/odata.py:498-504 | a function's template takes its arguments' SQL and, in the template's order and as often as it names them, their values |
| FilterGrammar.ReadsTheGrammar | mocksap/odata.py:373-546 | a filter is read as an expression if and only if it is a sentence of that expression in the grammar of `or`, `and`, `not`, comparison, left-to-right arithmetic, primaries and calls |
| FilterGrammar.Unambiguous | mocksap/odata.py:373-546 | no filter is a sentence of two expressions |
| FilterSql.FilterBinds | mocksap/odata.py:312-320 | every filter binds exactly one value for each mark, and put in in order they stand where the filter's literals stood |
| FilterSql.MergedBinds | mocksap/service.py:563-566 | so beside a condition of the request's own |
| SqlReading.ConditionReadBack | mocksap/odata.py:373-420 | the SQL of a condition, read with the database's precedences, is the tree that was meant |
| FilterMeaning.FilterMeans | mocksap/odata.py:323-546 | an accepted filter with its boolean functions standing alone selects, by its SQL and bound values, exactly the rows it means, in three-valued logic |
| FilterMeaning.SentenceMeans | mocksap/odata.py:323-546 | so a sentence of the grammar selects exactly the rows the expression it is a sentence of means |
| FilterMeaning.MergedMeans | mocksap/service.py:563-566 | merged with another condition, exactly the rows both mean |
| FilterMeaning.GroupedFilterMeans | mocksap/odata.py:422-427 | for every row in which no parenthesised value used as one is other than 0, 1 or null, nor a null literal, grouping is honoured |
| FilterMeaning.GroupingAgrees | mocksap/odata.py:422-427 | the grouping reading is the code's own expression exactly where no parenthesis is around a value used as one |
| FilterMeaning.GroupedSelects | mocksap/odata.py:407-427 | and selects a row as the code does wherever every such value is 0, 1 or null |
| FilterMeaning.GroupingLost | mocksap/odata.py:422-427 | a sum in parentheses compared with itself is false |
| FilterMeaning.ParenKeeps | mocksap/odata.py:407-427 | a value in parentheses keeps its worth if and only if that is 0, 1 or null |
| FilterMeaning.EndsWithMeans | mocksap/odata.py:515-517 | on texts `endswith` is the suffix test if and only if the suffix is not empty or the text is |
| FilterMeaning.SubstringMeans | mocksap/odata.py:536-540 | `substring` counts from 0, and from beyond the end answers the empty text |
| FilterWords.ComparisonWords | mocksap/odata.py:393-409 | a property, one of eq, ne, gt, ge, lt, le in any case, and a number: accepted, and it selects the rows whose number is equal, unequal, greater, not less, less or not greater |
| FilterWords.ArithmeticWords | mocksap/odata.py:411-420 | with add, sub, mul, div or mod between and a result to equal, the rows for which sum, difference, product, quotient or remainder is that |
| FilterWords.NullWords | mocksap/odata.py:393-409 | compared with null by eq, a property selects the rows holding nothing there, and by any other word the rows holding something |
| FilterWords.JoiningWords | mocksap/odata.py:373-391 | `a or not b and c` selects where a holds, or b fails and c holds, and leaves out where a fails and b holds or c fails; otherwise it is not known, as each is of a row holding nothing |
| FilterWords.GroupedWords | mocksap/odata.py:373-427 | `(a or b) and c` selects where a or b holds and c does |
| FilterWords.CallsAccepted | mocksap/odata.py:460-504 | a call is accepted if and only if the function is one of those there are and has as many arguments as it takes |
| FilterWords.ConditionNames | mocksap/odata.py:506-517 | the four conditions on texts select where the one text is a part, the beginning or the end of the other |
| FilterWords.ValueNames | mocksap/odata.py:518-546 | each other function selects where what its name says of its arguments equals the value compared with |
| FilterWords.FirstAtMeans | mocksap/odata.py:518-522 | `indexof` counts from 0 to where the part first stands, and is -1 where it nowhere does |
| FilterWords.LiteralsTaken | mocksap/odata.py:422-458 | a literal is taken by a service of its version only, and one that is no date by none |
| Cascade.Tables.Delete | mocksap/store.py:583-592 | exactly the row and every row reachable from it along to-many navigations are gone, each logged once, whatever the cycles or double paths; and the schema's links, spelled out, decide the same |
| Cascade.Tables.DeleteChildren | mocksap/store.py:560-580 | below a row: the rows gone are reached from it, no row gone has a child left, each is logged once; and it ends |
| Cascade.PathIsGone | mocksap/store.py:560-580 | where no removed row has a child left, every path of rows that were there ends in a removed one |
| Cascade.LinksAre | mocksap/store.py:560-580 | said of the schema and the fields alone: every row gone but the first has one gone before it with a to-many navigation to its entity whose pairs of columns agree, and every row so linked to one gone is gone |
| Cascade.GoneIsTargeted | mocksap/store.py:560-580 | so a row of an entity no to-many navigation leads to survives, unless it is the one deleted |
| Iban.BuiltPasses | mocksap/bank.py:38-46 | the MOD 97 test accepts every IBAN built, for account numbers of any length |
| Iban.OnlyCheckDigits | mocksap/bank.py:38-41 | of any two digits in their place the test accepts those, and otherwise only a pair 97 away from them |
| Iban.BuiltIsValid | mocksap/bank.py:27-46 | and the whole check accepts it if and only if its length is from 15 to 34 |
| Iban.ValidMeans | mocksap/bank.py:16-35 | accepted, spaces and case aside, is what has 15 to 34 characters, two letters, two digits, letters and digits, and leaves 1 when read digit by digit with the first four last, a letter as two digits |
| Iban.LetterValues | mocksap/bank.py:20-24 | A to Z are 10 to 35 |
| Iban.ChangeRefused | mocksap/bank.py:20-35 | one digit, or letter, replaced by another always fails the test |
| Iban.SwapRefused | mocksap/bank.py:20-35 | two different neighbours of the account number swapped fail the test, unless they are B1, M2 or X3 |
| KeyPredicates.CompositeRoundTrip | mocksap/odata.py:632-708 | several string keys: what is printed reads back as the same values, quotes and commas and all, if and only if no value has a line break |
| KeyPredicates.SingleRoundTrip | mocksap/odata.py:632-708 | one string key: if and only if its value has no equals sign |
| KeyPredicates.PairsInAnyOrder | mocksap/odata.py:632-659 | pairs of an entity's keys in any order are read as their values, and refused as incomplete if and only if one is missing |
| KeyPredicates.PrintedAs | mocksap/odata.py:693-708 | how one key and two are written |
| KeyPredicates.DoubledAs | mocksap/odata.py:693-708 | a value's quotes are written twice and nothing else of it changed |
| KeyPredicates.ParseKeyPredicate | mocksap/odata.py:632-659 | the loop over the parts reads, or fails, as specified |
| KeyPredicates.SplitAtCommas | mocksap/odata.py:662-674 | the loop over the characters splits at the commas outside quotes |

## Left out

- The HTTP service, authentication, batch requests, IDoc and XML parsing, metadata, `$apply`, the command line and the clock: the model starts from parsed statement lines, typed rows and tokens.
- SQLite: tables are sequences, sets or maps; a query without an order reads rows in the order they were inserted.
- Texts: header and line texts, the wording of reasons, and the findings about balances and late discounts. A refusal is a tag.
- Document numbers and years are whole numbers, not padded texts; number ranges of billing documents are a parameter.
- Text is ASCII: spaces, upper and lower case and letters outside it are not modelled.
- Line amounts finer than a thousandth are not modelled, except in `Totals.RoundingBound`; statement lines carry an amount of thousandths.
- `Books.NewItem`: a line that arrives already claimed by a payment run, which only the test-data endpoints post, is not modelled, nor are the net due date and the fields only shown.
- Matching.MatchReturnedReceipt: more than sixteen cleared receivables quoted by one line are refused in the model, where the code may fail instead.
- Remittance.RemittanceAgrees: the payee is the set of the suppliers' numbers, not the least of them.
- `/_mock/open-items`, which sets clearing fields by hand, and changes of an invoice's accounting document or company code.
- Invoice items, goods receipts and billing items as rows of their own.
- Deliveries: a line is given its order's item; the delivery's weight, and IDocs that name several orders.
- Timestamps.TokenRoundTrip: years are written in four digits; a platform whose `strftime` does not pad years before 1000 is not modelled.
- Replication.ReplicaConverges: unfiltered reads of one entity set by one client; deletions that cascade into it count as deletions of its rows.
- `$filter` tokenizing, and the values literals stand for, are given; arithmetic and comparison of values are whatever the database does, the same on both sides.
- FilterMeaning.FilterMeans: boolean functions used as operands, whose SQL has no parentheses, are not given a meaning.
- KeyPredicates.CompositeRoundTrip: keys are strings; numbers, dates and GUIDs as keys are left out.
- Iban.BuiltIsValid: countries without an IBAN and the BIC's length are left out.
