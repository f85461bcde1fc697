/** What comes after: whatever is done to a ledger, the rows and documents it had stay what they
    were, and only their own documents' clearings can be taken back. */
module Later {
  import opened Common
  import opened Text
  import opened Terms
  import opened Books
  import opened Totals
  import opened Matching
  import opened Posting
  import opened Statements
  import opened Grouping
  import opened Returning
  import opened Claims

  /** Whatever an older document has cleared in `c`, it had already cleared in `b`. */
  ghost predicate ClearsForward(b: Book, c: Book) {
    forall i :: 0 <= i < |c.items| && c.items[i].clearing.Cleared? && c.items[i].clearing.doc < b.next
      ==> i < |b.items| && b.items[i].clearing == c.items[i].clearing
  }

  /** `c` is a later ledger than `b`. */
  ghost predicate Follows(b: Book, c: Book) {
    Extends(b, c) && ClearsForward(b, c)
  }

  lemma {:induction false} FollowsSelf(b: Book)
    ensures Follows(b, b)
  {
  }

  lemma {:induction false} FollowsChain(a: Book, b: Book, c: Book)
    requires Follows(a, b) && Follows(b, c)
    ensures Follows(a, c)
  {
    ExtendsChain(a, b, c);
  }

  lemma {:induction false} CurrentFollows(b: Book, c: Book, it: Item)
    requires Extends(b, c) && Current(b, it)
    ensures Current(c, it)
  {
    var i :| 0 <= i < |b.items| && RowIs(b.items[i], it);
    assert RowIs(c.items[i], b.items[i]);
  }

  // ----- after the documents of a statement -----

  lemma {:induction false} SettleClearsForward(b: Book, h: Heading, lines: seq<PostLine>, changes: seq<Change>, side: Side, only: Option<nat>)
    requires Valid(b) && ChangesDistinct(changes) && ChangesOld(b, changes)
    requires forall j :: 0 <= j < |changes| && changes[j].clearing.Cleared? ==> changes[j].clearing.doc == b.next
    ensures ClearsForward(b, Settle(b, h, lines, changes, side, only))
  {
    hide Settle, OwnRow, NewItem;
    var c := Settle(b, h, lines, changes, side, only);
    SettleIs(b, h, lines, changes, side, only);
    forall i | 0 <= i < |c.items| && c.items[i].clearing.Cleared? && c.items[i].clearing.doc < b.next
      ensures i < |b.items| && b.items[i].clearing == c.items[i].clearing
    {
      if i < |b.items| {
        OldClearing(b.items[i], changes, b.next);
      } else {
        OwnClearing(b.next, h, lines, side, only, i - |b.items|);
      }
    }
  }

  lemma {:induction false} OldClearing(it: Item, changes: seq<Change>, doc: nat)
    requires ChangesDistinct(changes)
    requires forall j :: 0 <= j < |changes| && changes[j].clearing.Cleared? ==> changes[j].clearing.doc == doc
    ensures var c := TouchAll(it, changes).clearing; c.Cleared? && c.doc < doc ==> it.clearing == c
  {
    TouchAllKeeps(it, changes);
    if Names(changes, it.key) {
      var j :| 0 <= j < |changes| && changes[j].key == it.key;
      TouchAllSets(it, changes, j);
    }
  }

  lemma {:induction false} OwnClearing(doc: nat, h: Heading, lines: seq<PostLine>, side: Side, only: Option<nat>, i: nat)
    requires i < |lines|
    ensures var c := OwnRows(doc, h, lines, side, only)[i].clearing; c.Cleared? ==> c.doc == doc
  {
  }

  lemma {:induction false} DocFollows(b: Book, d: Doc)
    requires Valid(b) && DocOk(b, d)
    ensures Valid(PostDoc(b, d)) && Follows(b, PostDoc(b, d))
  {
    hide Settle;
    SettleKeeps(b, d.h, d.lines, d.changes, d.side, d.only);
    SettleClearsForward(b, d.h, d.lines, d.changes, d.side, d.only);
    GrowsExtends(b, PostDoc(b, d));
  }

  lemma {:induction false} DocsFollow(b: Book, docs: seq<Doc>)
    requires Valid(b) && DocsOk(b, docs)
    ensures Valid(PostDocs(b, docs)) && Follows(b, PostDocs(b, docs))
  {
    hide Follows, PostDoc, DocOk, Valid;
    FollowsSelf(b);
    if |docs| > 0 {
      var rest, d := docs[..|docs| - 1], docs[|docs| - 1];
      DocsFollow(b, rest);
      DocFollows(PostDocs(b, rest), d);
      FollowsChain(b, PostDocs(b, rest), PostDocs(b, docs));
    }
  }

  /** No later statement takes anything from a ledger, nor clears anything on an older document's account. */
  lemma {:induction false} StatementFollows(b: Book, lines: seq<StatementLine>, posting: Date, statement: string)
    requires Valid(b)
    ensures var c := Apply(b, lines, posting, statement).book; Valid(c) && Follows(b, c)
  {
    var docs := StatementDocs(b, lines, posting, statement);
    DocsFollow(b, docs);
  }

  // ----- from the middle of a statement -----

  lemma {:induction false} GroupsFollow(b: Book, side: Side, entries: seq<Entry>, payees: seq<Payee>, posting: Date, statement: string, k: nat)
    requires side != GLLine && Valid(b) && Pending(b, side, entries) && Distinct(payees) && k <= |payees|
    requires forall p :: p in payees ==> GroupOf(entries, p) != []
    ensures var c, d := PostGroups(b, side, entries, payees[..k], posting, statement).book,
                        PostGroups(b, side, entries, payees, posting, statement).book;
      Valid(c) && Valid(d) && Follows(c, d)
  {
    hide Follows, PostGroup, Valid, Settle, GroupOf, Pending, PostDoc, DocOk;
    var d := PostGroups(b, side, entries, payees, posting, statement).book;
    PostGroupsKeep(b, side, entries, payees, posting, statement);
    if k == |payees| {
      assert payees[..k] == payees;
      FollowsSelf(d);
    } else {
      var rest, p := payees[..|payees| - 1], payees[|payees| - 1];
      assert rest[..k] == payees[..k] && payees == rest + [p];
      GroupsFollow(b, side, entries, rest, posting, statement, k);
      var c := PostGroups(b, side, entries, rest, posting, statement).book;
      PostGroupsKeep(b, side, entries, rest, posting, statement);
      assert p !in rest;
      GroupReady(b, c, side, entries, rest, p);
      var doc := GroupDoc(c, side, Bare(GroupOf(entries, p)), posting, statement);
      DocFollows(c, doc);
      FollowsChain(PostGroups(b, side, entries, payees[..k], posting, statement).book, c, d);
    }
  }

  /** Each stage of a statement leaves a later ledger than the one before. */
  lemma {:induction false} StagesFollow(b: Book, lines: seq<StatementLine>, posting: Date, statement: string)
    requires Valid(b)
    ensures var s := StagesOf(b, lines, posting, statement);
      && Follows(b, s.paid.book) && Follows(s.paid.book, s.received.book)
      && Follows(s.received.book, s.returned.book) && Follows(s.returned.book, s.refunded.book)
  {
    hide Follows, Valid, PostAll, ReturnAll, RefundAll, Pending, PostDocs, DocsOk, ReadLines;
    var s := StagesOf(b, lines, posting, statement);
    StagesKeep(b, lines, posting, statement);
    var docs := AllDocs(b, SupplierLine, s.read.settling, posting, statement);
    DocsFollow(b, docs);
    docs := AllDocs(s.paid.book, CustomerLine, s.read.receiving, posting, statement);
    DocsFollow(s.paid.book, docs);
    docs := ReturnDocs(s.received.book, s.read.returning, posting);
    DocsFollow(s.received.book, docs);
    docs := RefundDocs(s.returned.book, s.read.refunding, posting);
    DocsFollow(s.returned.book, docs);
  }

  /** The group of the `k`th payee, the ledger it is posted to, and how it is from there to the
      end of its stage. */
  ghost predicate PostedAt(b: Book, side: Side, entries: seq<Entry>, posting: Date, statement: string, k: nat,
                           at: Book, group: seq<Settling>)
  {
    && k < |Payees(entries)| && group == Bare(GroupOf(entries, Payees(entries)[k]))
    && at == PostGroups(b, side, entries, Payees(entries)[..k], posting, statement).book
  }

  lemma {:induction false} GroupFollowed(b: Book, side: Side, entries: seq<Entry>, posting: Date, statement: string, k: nat,
                                         at: Book, group: seq<Settling>)
    requires side != GLLine && Valid(b) && Pending(b, side, entries)
    requires PostedAt(b, side, entries, posting, statement, k, at, group)
    ensures Valid(at) && Ready(at, group, side) && (CentsOnly(b) ==> CentsOnly(at))
    ensures Follows(PostGroup(at, side, group, posting, statement), PostAll(b, side, entries, posting, statement).book)
  {
    hide Follows, PostGroup, Valid, GroupOf, Pending, Ready, DoneSoFar, Grows;
    var payees := Payees(entries);
    var first := payees[..k];
    PayeesAre(entries);
    GroupsExist(entries);
    PostGroupsKeep(b, side, entries, first, posting, statement);
    assert payees[k] !in first && payees[..k + 1][..k] == first;
    GroupReady(b, at, side, entries, first, payees[k]);
    GroupsFollow(b, side, entries, payees, posting, statement, k + 1);
  }

  /** The `k`th payment document of a statement, as its ledger goes on to the statement's end. */
  ghost predicate PaysIn(b: Book, lines: seq<StatementLine>, posting: Date, statement: string, k: nat, at: Book, group: seq<Settling>) {
    PostedAt(b, SupplierLine, ReadLines(b, lines, posting).settling, posting, statement, k, at, group)
  }

  ghost predicate CollectsIn(b: Book, lines: seq<StatementLine>, posting: Date, statement: string, k: nat, at: Book, group: seq<Settling>) {
    var s := StagesOf(b, lines, posting, statement);
    PostedAt(s.paid.book, CustomerLine, s.read.receiving, posting, statement, k, at, group)
  }

  lemma {:induction false} PaymentFollowed(b: Book, lines: seq<StatementLine>, posting: Date, statement: string, k: nat,
                                           at: Book, group: seq<Settling>)
    requires Valid(b) && PaysIn(b, lines, posting, statement, k, at, group)
    ensures Valid(at) && Ready(at, group, SupplierLine) && (CentsOnly(b) ==> CentsOnly(at))
    ensures Follows(Pay(at, group, posting, statement), Apply(b, lines, posting, statement).book)
  {
    hide Follows, Pay, Valid, PostAll, ReturnAll, RefundAll, Pending, ReadLines, PostedAt, CentsOnly;
    var s := StagesOf(b, lines, posting, statement);
    StagesKeep(b, lines, posting, statement);
    StagesFollow(b, lines, posting, statement);
    GroupFollowed(b, SupplierLine, s.read.settling, posting, statement, k, at, group);
    var c := Pay(at, group, posting, statement);
    FollowsChain(c, s.paid.book, s.received.book);
    FollowsChain(c, s.received.book, s.returned.book);
    FollowsChain(c, s.returned.book, s.refunded.book);
  }

  lemma {:induction false} ReceiptFollowed(b: Book, lines: seq<StatementLine>, posting: Date, statement: string, k: nat,
                                           at: Book, group: seq<Settling>)
    requires Valid(b) && CollectsIn(b, lines, posting, statement, k, at, group)
    ensures Valid(at) && Ready(at, group, CustomerLine)
    ensures Follows(Collect(at, group, posting, statement), Apply(b, lines, posting, statement).book)
  {
    hide Follows, Collect, Valid, PostAll, ReturnAll, RefundAll, Pending, ReadLines, PostedAt, CentsOnly;
    var s := StagesOf(b, lines, posting, statement);
    StagesKeep(b, lines, posting, statement);
    StagesFollow(b, lines, posting, statement);
    GroupFollowed(s.paid.book, CustomerLine, s.read.receiving, posting, statement, k, at, group);
    var c := Collect(at, group, posting, statement);
    FollowsChain(c, s.received.book, s.returned.book);
    FollowsChain(c, s.returned.book, s.refunded.book);
  }

  /** The ledger a statement's `k`th returned receipt is matched against. */
  ghost function RefundPoint(b: Book, lines: seq<StatementLine>, posting: Date, statement: string, k: nat): Book {
    var s := StagesOf(b, lines, posting, statement);
    RefundAll(s.returned.book, if k <= |s.read.refunding| then s.read.refunding[..k] else s.read.refunding, posting).book
  }

  lemma {:induction false} RefundPointFollows(b: Book, lines: seq<StatementLine>, posting: Date, statement: string, k: nat)
    requires Valid(b)
    ensures var c := RefundPoint(b, lines, posting, statement, k); Valid(c) && Follows(b, c)
  {
    hide Follows, Valid, PostAll, ReturnAll, RefundAll, Pending, PostDocs, DocsOk, ReadLines;
    var s := StagesOf(b, lines, posting, statement);
    var noted := if k <= |s.read.refunding| then s.read.refunding[..k] else s.read.refunding;
    StagesKeep(b, lines, posting, statement);
    StagesFollow(b, lines, posting, statement);
    FollowsChain(b, s.paid.book, s.received.book);
    FollowsChain(b, s.received.book, s.returned.book);
    var docs := RefundDocs(s.returned.book, noted, posting);
    DocsFollow(s.returned.book, docs);
    FollowsChain(b, s.returned.book, RefundPoint(b, lines, posting, statement, k));
  }
}
