/** What a settled document does to totals over the ledger's rows. */
module Totals {
  import opened Common
  import opened Money
  import opened Text
  import opened Terms
  import opened Books

  /** What account `account` holds in one currency: debits less credits. */
  function AccountBalance(items: seq<Item>, account: string, currency: string): int {
    Sum(items, (it: Item) => if it.line.account == account && Currency(it.line.currency) == currency
                             then Signed(it.line) else 0)
  }

  /** What is open on one side in one currency, in the absolute amounts the matching reads. */
  function OpenBalance(items: seq<Item>, side: Side, currency: string): int {
    Sum(items, (it: Item) => OpenAmount(it, side, currency))
  }

  function OpenAmount(it: Item, side: Side, currency: string): int {
    if it.line.side == side && it.clearing.Open? && Currency(it.line.currency) == currency then it.line.amount else 0
  }

  /** What the debits and credits of one document come to. */
  function DocumentBalance(items: seq<Item>, doc: nat): int {
    Sum(items, (it: Item) => if it.key.doc == doc then Signed(it.line) else 0)
  }

  /** The open items on one side, by key, in ledger order. */
  function OpenKeys(items: seq<Item>, side: Side): seq<Key> {
    Map(Filter(items, (it: Item) => OpenOn(it, side)), (it: Item) => it.key)
  }

  // ----- totals that only read what a row said when it was posted -----

  lemma {:induction false} TouchedSum(items: seq<Item>, changes: seq<Change>, f: (Key, Line) -> int, g: Item -> int)
    requires forall it: Item :: g(it) == f(it.key, it.line)
    ensures Sum(TouchRows(items, changes), g) == Sum(items, g)
  {
    var touched := TouchRows(items, changes);
    forall i | 0 <= i < |items| ensures g(touched[i]) == g(items[i]) {
      TouchAllKeeps(items[i], changes);
    }
    SumAgree(touched, g, items, g);
  }

  lemma {:induction false} OwnSum(doc: nat, h: Heading, lines: seq<PostLine>, side: Side, only: Option<nat>,
                                  g: Item -> int, k: PostLine -> int)
    requires forall i :: 0 <= i < |lines| ==>
      g(OwnRow(NewItem(doc, h, i + 1, lines[i]), h.posting, side, only)) == k(lines[i])
    ensures Sum(OwnRows(doc, h, lines, side, only), g) == Sum(lines, k)
  {
    SumAgree(OwnRows(doc, h, lines, side, only), g, lines, k);
  }

  /** An account moves by exactly what the document's lines on it were rounded to. */
  lemma {:induction false} SettleMovesAccount(b: Book, h: Heading, lines: seq<PostLine>, changes: seq<Change>, side: Side,
                                              only: Option<nat>, account: string, currency: string)
    requires Valid(b) && ChangesOld(b, changes)
    ensures AccountBalance(Settle(b, h, lines, changes, side, only).items, account, currency)
         == AccountBalance(b.items, account, currency)
            + Sum(lines, (line: PostLine) => if line.account == account && Currency(CurrencyOf(h)) == currency
                                             then AtCents(line.amount) else 0)
  {
    hide Settle, OwnRow, NewItem, SetClearing, ReleaseRows, KeysUnique, ValidItem, Signed, AtCents, Currency;
    var g := (it: Item) => if it.line.account == account && Currency(it.line.currency) == currency
                             then Signed(it.line) else 0;
    var k := (line: PostLine) => if line.account == account && Currency(CurrencyOf(h)) == currency
                                             then AtCents(line.amount) else 0;
    SettleIs(b, h, lines, changes, side, only);
    SumAppend(TouchRows(b.items, changes), OwnRows(b.next, h, lines, side, only), g);
    TouchedSum(b.items, changes, (key: Key, line: Line) => if line.account == account && Currency(line.currency) == currency
                             then Signed(line) else 0, g);
    forall i | 0 <= i < |lines| ensures g(OwnRow(NewItem(b.next, h, i + 1, lines[i]), h.posting, side, only)) == k(lines[i]) {
      OwnRowPosts(b.next, h, i + 1, lines[i], side, only);
    }
    OwnSum(b.next, h, lines, side, only, g, k);
  }

  lemma {:induction false} OwnRowPosts(doc: nat, h: Heading, pos: nat, line: PostLine, side: Side, only: Option<nat>)
    ensures var row := OwnRow(NewItem(doc, h, pos, line), h.posting, side, only);
      row.line.account == line.account && row.line.currency == CurrencyOf(h) && Signed(row.line) == AtCents(line.amount)
  {
    NewItemAmount(doc, h, pos, line);
  }

  lemma {:induction false} OldDocuments(b: Book, changes: seq<Change>, doc: nat)
    requires Valid(b) && doc >= b.next
    ensures DocumentBalance(TouchRows(b.items, changes), doc) == 0
  {
    var g := (it: Item) => if it.key.doc == doc then Signed(it.line) else 0;
    var touched := TouchRows(b.items, changes);
    forall i | 0 <= i < |touched| ensures g(touched[i]) == 0 {
      TouchAllKeeps(b.items[i], changes);
      assert ValidItem(b.items[i], b.next);
    }
    SumZero(touched, g);
  }

  /** The new document comes to what its lines were rounded to; every other one is as it was. */
  lemma {:induction false} SettleBalances(b: Book, h: Heading, lines: seq<PostLine>, changes: seq<Change>, side: Side,
                                          only: Option<nat>, doc: nat)
    requires Valid(b) && ChangesOld(b, changes)
    ensures DocumentBalance(Settle(b, h, lines, changes, side, only).items, doc)
         == if doc == b.next then Sum(lines, (line: PostLine) => AtCents(line.amount))
            else DocumentBalance(b.items, doc)
  {
    hide Settle, TouchRows, ReleaseAll;
    var g := (it: Item) => if it.key.doc == doc then Signed(it.line) else 0;
    var rounded := (line: PostLine) => AtCents(line.amount);
    var k := if doc == b.next then rounded else ((line: PostLine) => 0);
    SettleIs(b, h, lines, changes, side, only);
    SumAppend(TouchRows(b.items, changes), OwnRows(b.next, h, lines, side, only), g);
    forall i | 0 <= i < |lines| ensures g(OwnRow(NewItem(b.next, h, i + 1, lines[i]), h.posting, side, only)) == k(lines[i]) {
      NewItemAmount(b.next, h, i + 1, lines[i]);
    }
    OwnSum(b.next, h, lines, side, only, g, k);
    if doc == b.next {
      OldDocuments(b, changes, doc);
    } else {
      TouchedSum(b.items, changes, (key: Key, line: Line) => if key.doc == doc then Signed(line) else 0, g);
      SumZero(lines, k);
    }
  }

  // ----- how far a document's rounding can leave it from balance -----

  /** What the debits and credits come to, rounded: zero, or the document is not postable. */
  function BalanceOf(lines: seq<PostLine>): int {
    AtCents(Sum(lines, (line: PostLine) => line.amount))
  }

  lemma {:induction false} RoundedStep(d: int, n: int, r: int, h: int, s: int, x: int)
    requires -(n * d) <= 2 * (d * r - s) <= n * d && -d <= 2 * (d * h - x) <= d
    ensures -((n + 1) * d) <= 2 * (d * (r + h) - (s + x)) <= (n + 1) * d
  {
    assert d * (r + h) == d * r + d * h;
    assert (n + 1) * d == n * d + d;
  }

  lemma {:induction false} RoundedSum(amounts: seq<int>, d: int)
    requires d > 0
    ensures var n := |amounts|;
      -(n * d) <= 2 * (d * Sum(amounts, (x: int) => HalfUp(x, d)) - Sum(amounts, (x: int) => x)) <= n * d
  {
    if |amounts| > 0 {
      var rest, x := amounts[..|amounts| - 1], amounts[|amounts| - 1];
      RoundedSum(rest, d);
      HalfUpNearest(x, d);
      RoundedStep(d, |rest|, Sum(rest, (y: int) => HalfUp(y, d)), HalfUp(x, d), Sum(rest, (y: int) => y), x);
    }
  }

  lemma {:induction false} Bounded(d: int, n: nat, r: int, s: int)
    requires d > 0 && -(n * d) <= 2 * (d * r - s) <= n * d && -d < 2 * s < d
    ensures -(n + 1) < 2 * r < n + 1
  {
    assert (n + 1) * d == n * d + d;
    var dr := d * r;
    assert -((n + 1) * d) < 2 * dr < (n + 1) * d;
    assert d * (2 * r) == 2 * dr && d * (n + 1) == (n + 1) * d && d * -(n + 1) == -((n + 1) * d);
    if 2 * r >= n + 1 {
      AtLeastTimes(d, 2 * r, n + 1);
    } else if 2 * r <= -(n + 1) {
      AtLeastTimes(d, -(n + 1), 2 * r);
    }
  }

  /** Amounts in any unit, `d` to the cent: if their sum rounds to nothing, their rounded
      sum is less than half a cent for each of them and one more. */
  lemma {:induction false} RoundingBound(amounts: seq<int>, d: int)
    requires d > 0 && HalfUp(Sum(amounts, (x: int) => x), d) == 0
    ensures -(|amounts| + 1) < 2 * Sum(amounts, (x: int) => HalfUp(x, d)) < |amounts| + 1
  {
    var s := Sum(amounts, (x: int) => x);
    RoundedSum(amounts, d);
    RoundsToNothing(s, d);
    Bounded(d, |amounts|, Sum(amounts, (x: int) => HalfUp(x, d)), s);
  }

  lemma {:induction false} RoundsToNothing(s: int, d: int)
    requires d > 0 && HalfUp(s, d) == 0
    ensures -d < 2 * s < d
  {
    HalfUpNearest(s, d);
    assert d * 0 == 0;
  }

  lemma {:induction false} AtLeastTimes(d: int, a: int, b: int)
    requires d > 0 && a >= b
    ensures d * a >= d * b
  {
    Distribute(d, a, b);
    if a > b {
      AtLeastOnce(d, a - b);
    }
  }

  /** What a posted document comes to is the sum of its rounded lines. */
  lemma {:induction false} PostedBalance(b: Book, h: Heading, lines: seq<PostLine>)
    requires Valid(b)
    ensures DocumentBalance(Post(b, h, lines).items, b.next) == Sum(lines, (line: PostLine) => AtCents(line.amount))
  {
    hide Sum;
    var g := (it: Item) => if it.key.doc == b.next then Signed(it.line) else 0;
    var rounded := (line: PostLine) => AtCents(line.amount);
    var rows := NewItems(b.next, h, lines);
    SumAppend(b.items, rows, g);
    forall i | 0 <= i < |b.items| ensures g(b.items[i]) == 0 {
      assert ValidItem(b.items[i], b.next);
    }
    SumZero(b.items, g);
    forall i | 0 <= i < |lines| ensures g(rows[i]) == rounded(lines[i]) {
      NewItemAmount(b.next, h, i + 1, lines[i]);
    }
    SumAgree(rows, g, lines, rounded);
  }

  lemma {:induction false} AcceptedLines(lines: seq<PostLine>)
    requires BalanceOf(lines) == 0
    ensures -5 * (|lines| + 1) < Sum(lines, (line: PostLine) => AtCents(line.amount)) < 5 * (|lines| + 1)
  {
    var amounts := Map(lines, (line: PostLine) => line.amount);
    SumAgree(lines, (line: PostLine) => line.amount, amounts, (x: int) => x);
    RoundingBound(amounts, 10);
    SumScale(amounts, (x: int) => HalfUp(x, 10), 10, (x: int) => AtCents(x));
    SumAgree(lines, (line: PostLine) => AtCents(line.amount), amounts, (x: int) => AtCents(x));
  }

  lemma {:induction false} WholeLines(lines: seq<PostLine>)
    requires BalanceOf(lines) == 0 && forall i :: 0 <= i < |lines| ==> WholeCents(lines[i].amount)
    ensures Sum(lines, (line: PostLine) => AtCents(line.amount)) == 0
  {
    var amount := (line: PostLine) => line.amount;
    var rounded := (line: PostLine) => AtCents(line.amount);
    forall i | 0 <= i < |lines| ensures rounded(lines[i]) == amount(lines[i]) {
      WholeCentsStay(lines[i].amount);
    }
    SumAgree(lines, rounded, lines, amount);
    SumWholeCents(lines, amount);
    WholeCentsStay(Sum(lines, amount));
  }

  /** A document whose balance rounds to zero posts rows that are out by less than half a cent
      for each line and one more, and not at all where every line is whole cents. */
  lemma {:induction false} AcceptedDocument(b: Book, h: Heading, lines: seq<PostLine>)
    requires Valid(b) && BalanceOf(lines) == 0
    ensures var out := DocumentBalance(Post(b, h, lines).items, b.next);
      && -5 * (|lines| + 1) < out < 5 * (|lines| + 1)
      && ((forall i :: 0 <= i < |lines| ==> WholeCents(lines[i].amount)) ==> out == 0)
  {
    PostedBalance(b, h, lines);
    AcceptedLines(lines);
    if forall i :: 0 <= i < |lines| ==> WholeCents(lines[i].amount) {
      WholeLines(lines);
    }
  }

  /** What rounding takes off a line. */
  function Residue(line: PostLine): int {
    line.amount - AtCents(line.amount)
  }

  /** Exactly when an accepted document comes to nothing: when what rounding takes off its lines
      is, together, less than half a cent either way. */
  lemma {:induction false} AcceptedBalances(b: Book, h: Heading, lines: seq<PostLine>)
    requires Valid(b) && BalanceOf(lines) == 0
    ensures DocumentBalance(Post(b, h, lines).items, b.next) == 0
       <==> -5 < Sum(lines, (line: PostLine) => Residue(line)) < 5
  {
    hide AtCents, DocumentBalance, Post, Valid;
    var amount, rounded := (line: PostLine) => line.amount, (line: PostLine) => AtCents(line.amount);
    PostedBalance(b, h, lines);
    SumAdd(lines, rounded, (line: PostLine) => Residue(line), amount);
    forall i | 0 <= i < |lines| ensures WholeCents(rounded(lines[i])) {
      AtCentsWhole(lines[i].amount);
    }
    SumWholeCents(lines, rounded);
    AcceptedSum(lines);
  }

  lemma {:induction false} AcceptedSum(lines: seq<PostLine>)
    requires BalanceOf(lines) == 0
    ensures -5 < Sum(lines, (line: PostLine) => line.amount) < 5
  {
    RoundsToNothing(Sum(lines, (line: PostLine) => line.amount), 10);
  }

  /** So not always: three lines that come to nothing, and are accepted, post a document that is a
      cent out, whatever the ledger. */
  lemma {:induction false} AcceptedAndOut(b: Book, h: Heading, account: string) returns (lines: seq<PostLine>)
    requires Valid(b)
    ensures |lines| == 3 && BalanceOf(lines) == 0
    ensures DocumentBalance(Post(b, h, lines).items, b.next) == -10
  {
    hide DocumentBalance, Post, Valid;
    var line := (amount: int) => PostLine(account, "", "", amount, "", None, "");
    lines := [line(4), line(4), line(-8)];
    SumOfThree(lines, (l: PostLine) => l.amount);
    SumOfThree(lines, (l: PostLine) => AtCents(l.amount));
    PostedBalance(b, h, lines);
  }

  lemma {:induction false} SumOfThree<T>(s: seq<T>, f: T -> int)
    requires |s| == 3
    ensures Sum(s, f) == f(s[0]) + f(s[1]) + f(s[2])
  {
    assert s[..2][..1][..0] == [];
    assert s[..2][..1][0] == s[0] && s[..2][1] == s[1];
    assert Sum(s[..2][..1], f) == Sum(s[..2][..1][..0], f) + f(s[0]);
    assert Sum(s[..2], f) == Sum(s[..2][..1], f) + f(s[1]);
  }

  // ----- what a document clears and reopens -----

  lemma {:induction false} SumOneChanged<T>(s: seq<T>, t: seq<T>, f: T -> int, i: nat)
    requires |s| == |t| && i < |s|
    requires forall j :: 0 <= j < |s| && j != i ==> f(t[j]) == f(s[j])
    ensures Sum(t, f) == Sum(s, f) + f(t[i]) - f(s[i])
  {
    var n := |s| - 1;
    if i == n {
      SumAgree(s[..n], f, t[..n], f);
    } else {
      SumOneChanged(s[..n], t[..n], f, i);
    }
  }

  /** `it` is a row of the ledger, as read at some time: only its clearing and claim may have moved. */
  ghost predicate Current(b: Book, it: Item) {
    exists i :: 0 <= i < |b.items| && RowIs(b.items[i], it)
  }

  ghost predicate IsOpen(b: Book, key: Key) {
    exists i :: 0 <= i < |b.items| && b.items[i].key == key && b.items[i].clearing.Open?
  }

  ghost predicate IsCleared(b: Book, key: Key) {
    exists i :: 0 <= i < |b.items| && b.items[i].key == key && b.items[i].clearing.Cleared?
  }

  ghost predicate HasKey(b: Book, key: Key) {
    exists i :: 0 <= i < |b.items| && b.items[i].key == key
  }

  lemma {:induction false} OpenOrCleared(b: Book, key: Key)
    requires Valid(b)
    ensures HasKey(b, key) <==> IsOpen(b, key) || IsCleared(b, key)
    ensures !(IsOpen(b, key) && IsCleared(b, key))
  {
  }

  /** After a settled document a row of before is as its change says, or as it was. */
  lemma {:induction false} SettleStates(b: Book, h: Heading, lines: seq<PostLine>, changes: seq<Change>, side: Side,
                                        only: Option<nat>, i: nat)
    requires Valid(b) && ChangesDistinct(changes) && ChangesOld(b, changes) && i < |b.items|
    ensures var c, key := Settle(b, h, lines, changes, side, only), b.items[i].key;
      && |b.items| <= |c.items|
      && c.items[i].key == key && c.items[i].line == b.items[i].line
      && (!Names(changes, key) ==> c.items[i].clearing == b.items[i].clearing)
      && (forall j :: 0 <= j < |changes| && changes[j].key == key ==> c.items[i].clearing == changes[j].clearing)
  {
    SettleIs(b, h, lines, changes, side, only);
    TouchAllKeeps(b.items[i], changes);
    forall j | 0 <= j < |changes| && changes[j].key == b.items[i].key
      ensures TouchAll(b.items[i], changes).clearing == changes[j].clearing
    {
      TouchAllSets(b.items[i], changes, j);
    }
  }

  /** A batch of clearings moves a total by what each of its rows moves it. */
  lemma {:induction false} BatchSum(items: seq<Item>, changes: seq<Change>, rows: seq<Item>, g: Item -> int, moved: seq<int>)
    requires KeysUnique(items) && ChangesDistinct(changes) && |rows| == |changes| == |moved|
    requires forall it: Item :: g(it.(claim := NO_CLAIM)) == g(it)
    requires forall j :: 0 <= j < |rows| ==> rows[j] in items && changes[j].key == rows[j].key
    requires forall j :: 0 <= j < |rows| ==> moved[j] == g(rows[j].(clearing := changes[j].clearing)) - g(rows[j])
    ensures Sum(TouchRows(items, changes), g) == Sum(items, g) + Sum(moved, (x: int) => x)
  {
    if changes == [] {
      SumAgree(TouchRows(items, changes), g, items, g);
    } else {
      hide TouchRows, Touch, KeysUnique, ChangesDistinct, Sum;
      var n := |changes| - 1;
      var before, last := changes[..n], changes[n];
      BatchStep(changes);
      BatchSum(items, before, rows[..n], g, moved[..n]);
      OneMoreTouched(items, before, last, rows[n], g);
      SumLast(moved);
      assert changes == before + [last];
    }
  }

  lemma {:induction false} BatchStep(changes: seq<Change>)
    requires ChangesDistinct(changes) && changes != []
    ensures ChangesDistinct(changes[..|changes| - 1]) && !Names(changes[..|changes| - 1], changes[|changes| - 1].key)
  {
  }

  lemma {:induction false} SumLast(moved: seq<int>)
    requires moved != []
    ensures Sum(moved, (x: int) => x) == Sum(moved[..|moved| - 1], (x: int) => x) + moved[|moved| - 1]
  {
  }

  /** One more clearing moves the total by what its row moves it. */
  lemma {:induction false} OneMoreTouched(items: seq<Item>, before: seq<Change>, last: Change, row: Item, g: Item -> int)
    requires KeysUnique(items) && row in items && last.key == row.key && !Names(before, row.key)
    requires forall it: Item :: g(it.(claim := NO_CLAIM)) == g(it)
    ensures Sum(TouchRows(items, before + [last]), g)
         == Sum(TouchRows(items, before), g) + g(row.(clearing := last.clearing)) - g(row)
  {
    hide Touch, TouchAll, Sum;
    var i :| 0 <= i < |items| && items[i] == row;
    var s, t := TouchRows(items, before), TouchRows(items, before + [last]);
    forall j | 0 <= j < |items| && j != i ensures g(t[j]) == g(s[j]) {
      OtherTouched(items[j], before, last, g);
    }
    TouchedLast(row, before, last);
    TouchAllKeeps(row, before);
    BatchRow(row, s[i], last, g);
    SumOneChanged(s, t, g, i);
  }

  lemma {:induction false} TouchedLast(it: Item, before: seq<Change>, last: Change)
    ensures TouchAll(it, before + [last]) == Touch(TouchAll(it, before), last)
  {
    SnocParts(before, last);
  }

  lemma {:induction false} OtherTouched(it: Item, before: seq<Change>, last: Change, g: Item -> int)
    requires it.key != last.key
    requires forall it: Item :: g(it.(claim := NO_CLAIM)) == g(it)
    ensures g(TouchAll(it, before + [last])) == g(TouchAll(it, before))
  {
    hide SameDoc, TouchAll;
    TouchedLast(it, before, last);
    TouchAllKeeps(it, before);
  }

  lemma {:induction false} BatchRow(it: Item, touched: Item, change: Change, g: Item -> int)
    requires forall it: Item :: g(it.(claim := NO_CLAIM)) == g(it)
    requires touched.key == it.key && touched.line == it.line && touched.block == it.block && touched.clearing == it.clearing
    requires change.key == it.key
    ensures g(touched) == g(it) && g(Touch(touched, change)) == g(it.(clearing := change.clearing))
  {
    assert touched.(claim := NO_CLAIM) == it.(claim := NO_CLAIM);
    assert Touch(touched, change) == it.(clearing := change.clearing).(claim := NO_CLAIM);
  }

  /** Clearing open rows takes exactly their amounts out of what is open. */
  lemma {:induction false} ClearingCloses(items: seq<Item>, changes: seq<Change>, rows: seq<Item>, side: Side, currency: string)
    requires KeysUnique(items) && ChangesDistinct(changes) && |rows| == |changes|
    requires forall j :: 0 <= j < |changes| ==> changes[j].clearing.Cleared? && changes[j].key == rows[j].key
    requires forall j :: 0 <= j < |rows| ==> rows[j] in items && rows[j].clearing.Open?
    ensures OpenBalance(TouchRows(items, changes), side, currency)
         == OpenBalance(items, side, currency) - Sum(rows, (it: Item) => OpenAmount(it, side, currency))
  {
    var f := (it: Item) => OpenAmount(it, side, currency);
    if changes == [] {
      SumAgree(TouchRows(items, changes), f, items, f);
    } else {
      hide TouchRows, KeysUnique, ChangesDistinct;
      var n := |changes| - 1;
      var before, last := changes[..n], changes[n];
      BatchStep(changes);
      ClearingCloses(items, before, rows[..n], side, currency);
      assert changes == before + [last];
      OneMoreTouched(items, before, last, rows[n], f);
    }
  }

  lemma {:induction false} SettleCloses(b: Book, h: Heading, lines: seq<PostLine>, changes: seq<Change>, own: Side,
                                        only: Option<nat>, rows: seq<Item>, side: Side, currency: string)
    requires Valid(b) && ChangesDistinct(changes) && ChangesOld(b, changes) && |rows| == |changes|
    requires forall j :: 0 <= j < |changes| ==> changes[j].clearing.Cleared? && changes[j].key == rows[j].key
    requires forall j :: 0 <= j < |rows| ==> rows[j] in b.items && rows[j].clearing.Open?
    ensures OpenBalance(Settle(b, h, lines, changes, own, only).items, side, currency)
         == OpenBalance(b.items, side, currency) - Sum(rows, (it: Item) => OpenAmount(it, side, currency))
            + OpenBalance(OwnRows(b.next, h, lines, own, only), side, currency)
  {
    SettleIs(b, h, lines, changes, own, only);
    ClearingCloses(b.items, changes, rows, side, currency);
    SumAppend(TouchRows(b.items, changes), OwnRows(b.next, h, lines, own, only),
              (it: Item) => OpenAmount(it, side, currency));
  }

  /** Reopening one cleared row puts its amount back. */
  lemma {:induction false} SettleReopens(b: Book, h: Heading, lines: seq<PostLine>, change: Change, own: Side,
                                         only: Option<nat>, i: nat, side: Side, currency: string)
    requires Valid(b) && i < |b.items| && b.items[i].key == change.key
    requires b.items[i].clearing.Cleared? && change.clearing.Open?
    ensures OpenBalance(Settle(b, h, lines, [change], own, only).items, side, currency)
         == OpenBalance(b.items, side, currency)
            + OpenAmount(b.items[i].(clearing := Open(true)), side, currency)
            + OpenBalance(OwnRows(b.next, h, lines, own, only), side, currency)
  {
    hide Settle, KeysUnique, OwnRows, TouchAll;
    var f := (it: Item) => OpenAmount(it, side, currency);
    assert ValidItem(b.items[i], b.next);
    SettleIs(b, h, lines, [change], own, only);
    SumAppend(TouchRows(b.items, [change]), OwnRows(b.next, h, lines, own, only), f);
    ReopenedRow(b.items[i], change, side, currency);
    Untouched(b.items);
    OneMoreTouched(b.items, [], change, b.items[i], f);
    assert [] + [change] == [change];
  }

  lemma {:induction false} Untouched(items: seq<Item>)
    ensures TouchRows(items, []) == items
  {
  }

  lemma {:induction false} ReopenedRow(it: Item, change: Change, side: Side, currency: string)
    requires it.clearing.Cleared? && change.clearing.Open?
    ensures OpenAmount(it, side, currency) == 0
    ensures OpenAmount(it.(clearing := change.clearing), side, currency)
         == OpenAmount(it.(clearing := Open(true)), side, currency)
  {
  }

  // ----- which items are open after a document -----

  predicate OpenOn(it: Item, side: Side) {
    it.line.side == side && it.clearing.Open?
  }

  lemma {:induction false} OpenKeysAppend(s: seq<Item>, t: seq<Item>, side: Side)
    ensures OpenKeys(s + t, side) == OpenKeys(s, side) + OpenKeys(t, side)
  {
    FilterAppend(s, t, (it: Item) => OpenOn(it, side));
  }

  ghost function StillOpen(keys: seq<Key>, changes: seq<Change>): seq<Key> {
    Filter(keys, (k: Key) => !Names(changes, k))
  }

  lemma {:induction false} TouchedOpenKeys(items: seq<Item>, changes: seq<Change>, side: Side)
    requires ChangesDistinct(changes) && forall j :: 0 <= j < |changes| ==> changes[j].clearing.Cleared?
    ensures OpenKeys(TouchRows(items, changes), side) == StillOpen(OpenKeys(items, side), changes)
  {
    if |items| > 0 {
      hide TouchAll, OpenKeys, Names, ChangesDistinct, Filter;
      var rest, it := items[..|items| - 1], items[|items| - 1];
      TouchedOpenKeys(rest, changes, side);
      assert items == rest + [it];
      assert TouchRows(items, changes) == TouchRows(rest, changes) + [TouchAll(it, changes)];
      OpenKeysAppend(TouchRows(rest, changes), [TouchAll(it, changes)], side);
      OpenKeysAppend(rest, [it], side);
      FilterAppend(OpenKeys(rest, side), OpenKeys([it], side), (k: Key) => !Names(changes, k));
      TouchedOpenKey(it, changes, side);
    }
  }

  lemma {:induction false} TouchedOpenKey(it: Item, changes: seq<Change>, side: Side)
    requires ChangesDistinct(changes) && forall j :: 0 <= j < |changes| ==> changes[j].clearing.Cleared?
    ensures OpenKeys([TouchAll(it, changes)], side) == StillOpen(OpenKeys([it], side), changes)
  {
    hide TouchAll, OpenKeys;
    var it' := TouchAll(it, changes);
    TouchAllKeeps(it, changes);
    if Names(changes, it.key) {
      var j :| 0 <= j < |changes| && changes[j].key == it.key;
      TouchAllSets(it, changes, j);
    }
    OneOpenKey(it, side);
    OneOpenKey(it', side);
    var none: seq<Key> := [];
    FilterSnoc(none, it.key, (k: Key) => !Names(changes, k));
    assert none + [it.key] == [it.key];
  }

  lemma {:induction false} OneOpenKey(it: Item, side: Side)
    ensures OpenKeys([it], side) == if OpenOn(it, side) then [it.key] else []
  {
    var none: seq<Item> := [];
    FilterSnoc(none, it, (i: Item) => OpenOn(i, side));
    assert none + [it] == [it];
  }

  /** After a document that only clears, the open items are those it did not name, then
      whatever of its own it left open. */
  lemma {:induction false} SettleOpenKeys(b: Book, h: Heading, lines: seq<PostLine>, changes: seq<Change>, own: Side,
                                          only: Option<nat>, side: Side)
    requires Valid(b) && ChangesDistinct(changes) && ChangesOld(b, changes)
    requires forall j :: 0 <= j < |changes| ==> changes[j].clearing.Cleared?
    ensures OpenKeys(Settle(b, h, lines, changes, own, only).items, side)
         == StillOpen(OpenKeys(b.items, side), changes) + OpenKeys(OwnRows(b.next, h, lines, own, only), side)
  {
    SettleIs(b, h, lines, changes, own, only);
    TouchedOpenKeys(b.items, changes, side);
    OpenKeysAppend(TouchRows(b.items, changes), OwnRows(b.next, h, lines, own, only), side);
  }
}
