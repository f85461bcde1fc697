/** When money arriving, or going back, is answered: exactly when one way of paying what the line
    quotes comes to its amount. */
module Answers {
  import opened Common
  import opened Text
  import opened Terms
  import opened Search
  import opened Books
  import opened Matching
  import opened Statements
  import opened Returning

  /** What a receipt's line is searched over: the open items it quotes in its own currency. */
  ghost function SameQuoted(b: Book, line: StatementLine, candidates: seq<Item>): seq<Quote> {
    InCurrency(QuotedBy(b, line, candidates), Currency(line.currency))
  }

  /** The line says how much of what, quotes something owed in it, and that is not too much to search. */
  ghost predicate Searched(b: Book, line: StatementLine, candidates: seq<Item>, posting: Date) {
    var same := SameQuoted(b, line, candidates);
    && line.amount.Some? && Currency(line.currency) != "" && 0 < |same| <= 16
    && WaysCount(WaysOfPaying(same, posting)) <= 1_048_577
  }

  lemma {:induction false} UniqueIsDistinct(quoted: seq<Quote>)
    requires QuotesUnique(quoted)
    ensures Distinct(quoted)
  {
  }

  lemma {:induction false} ReceiptSearchOk(b: Book, line: StatementLine, candidates: seq<Item>, posting: Date)
    requires KeysUnique(candidates)
    ensures var same := SameQuoted(b, line, candidates); SearchOk(same, WaysOfPaying(same, posting))
  {
    hide Distinct, NothingNegative, WaysTellApart, QuotesUnique, KeysUnique, InCurrency, QuotedBy;
    var same := SameQuoted(b, line, candidates);
    SameCurrencyMembers(b, line, candidates);
    UniqueIsDistinct(same);
    WaysAreSound(same, posting);
  }

  /** Money arriving is answered just when the line can be searched and exactly one choice - of the
      items it quotes in its currency, each left out, whole, or net of its discount - comes to its
      amount; the answer is that choice. Where several do, or none, that is the reason given. */
  lemma {:induction false} ReceiptAnswered(b: Book, line: StatementLine, candidates: seq<Item>, posting: Date)
    requires KeysUnique(candidates)
    ensures var m, same := MatchReceipt(b, line, candidates, posting), SameQuoted(b, line, candidates);
      var ways := WaysOfPaying(same, posting);
      && (m.Settles? ==> Searched(b, line, candidates, posting))
      && (Searched(b, line, candidates, posting) ==>
          var wanted := Abs(line.amount.value);
          && (m.Settles? <==> exists c: seq<nat> :: OnlyChoice(ways, wanted, c))
          && (forall c: seq<nat> :: OnlyChoice(ways, wanted, c) && ValidChoice(ways, c, 0)
                ==> m == Settles(Search.Reading(same, ways, c, 0)))
          && (m == Unsettled(NoReading) <==> forall c: seq<nat> :: !Comes(ways, wanted, c)))
  {
    hide OnlyChoice, Comes, ValidChoice, Search.Reading, WaysCount, WaysOfPaying, ReadingsSummingTo, SearchOk, QuotedBy, KeysUnique, Currency, Match;
    var same := SameQuoted(b, line, candidates);
    ReceiptSearchOk(b, line, candidates, posting);
    SearchedIsGuarded(b, line, candidates, posting);
    if Searched(b, line, candidates, posting) {
      SearchAnswers(same, WaysOfPaying(same, posting), Abs(line.amount.value));
    }
  }

  /** The guards, one by one, are that the line can be searched. */
  lemma {:induction false} SearchedIsGuarded(b: Book, line: StatementLine, candidates: seq<Item>, posting: Date)
    ensures var m := MatchReceipt(b, line, candidates, posting);
      && (m.Settles? ==> Searched(b, line, candidates, posting))
      && (Searched(b, line, candidates, posting) ==>
          var same := SameQuoted(b, line, candidates);
          var readings := ReadingsSummingTo(same, WaysOfPaying(same, posting), Abs(line.amount.value));
          m == if |readings| == 1 then Settles(readings[0])
               else Unsettled(if readings == [] then NoReading else SeveralReadings))
  {
    hide WaysCount, WaysOfPaying, ReadingsSummingTo, Currency, Match, Quotes, ReferenceOf;
    if QuotedBy(b, line, candidates) == [] {
      assert SameQuoted(b, line, candidates) == [];
    }
  }

  /** Where a line is searched the search ends in no more places than the guard allows. */
  lemma {:induction false} ReceiptIsBounded(b: Book, line: StatementLine, candidates: seq<Item>, posting: Date)
    requires Searched(b, line, candidates, posting)
    ensures Leaves(WaysOfPaying(SameQuoted(b, line, candidates), posting), Abs(line.amount.value), 0, 0) <= 1_048_577
  {
    hide Leaves, WaysCount, WaysOfPaying, SameQuoted;
    SearchIsBounded(WaysOfPaying(SameQuoted(b, line, candidates), posting), Abs(line.amount.value));
  }

  // ----- money going back -----

  ghost predicate GivesBackDiscounted(b: Book, line: StatementLine, candidates: seq<Item>) {
    exists q :: q in QuotedBy(b, line, candidates) && q.item.clearing.Cleared? && PaidNet(b, q.item)
  }

  ghost predicate SearchedBack(b: Book, line: StatementLine, candidates: seq<Item>) {
    && line.amount.Some? && Currency(line.currency) != ""
    && 0 < |SameQuoted(b, line, candidates)| <= 16
    && !GivesBackDiscounted(b, line, candidates)
  }

  /** What was paid, in full, of what the line quotes. */
  ghost function FullWays(quoted: seq<Quote>): (r: seq<seq<Way>>)
    ensures |r| == |quoted|
  {
    WholeWays(quoted, (q: Quote) => Abs(q.item.line.amount))
  }

  lemma {:induction false} BackIsGuarded(b: Book, line: StatementLine, candidates: seq<Item>)
    ensures var m := MatchReturnedReceipt(b, line, candidates);
      && (m.Reopens? ==> SearchedBack(b, line, candidates))
      && (SearchedBack(b, line, candidates) ==>
          var sets := ReturnedSets(SameQuoted(b, line, candidates), line);
          (m.Reopens? <==> |sets| == 1) && (|sets| == 1 ==> m == Reopens(sets[0])))
  {
    hide ReturnedSets, Currency, Match, Quotes, ReferenceOf, PaidNet;
    if QuotedBy(b, line, candidates) == [] {
      assert SameQuoted(b, line, candidates) == [];
    }
  }

  /** Money going back is answered just when nothing it quotes was cleared by a receipt that took a
      discount, and exactly one choice of the items, each whole or left out, comes to its amount; the
      answer is that choice. */
  lemma {:induction false} RefundAnswered(b: Book, line: StatementLine, candidates: seq<Item>)
    requires KeysUnique(candidates)
    ensures var m, same := MatchReturnedReceipt(b, line, candidates), SameQuoted(b, line, candidates);
      && (m.Reopens? ==> SearchedBack(b, line, candidates))
      && (SearchedBack(b, line, candidates) ==>
          var wanted := Abs(line.amount.value);
          && (m.Reopens? <==> exists c: seq<nat> :: OnlyChoice(FullWays(same), wanted, c))
          && (forall c: seq<nat> :: OnlyChoice(FullWays(same), wanted, c) && ValidChoice(FullWays(same), c, 0)
                ==> m.Reopens? && InFull(m.items) == Search.Reading(same, FullWays(same), c, 0)))
  {
    hide OnlyChoice, ValidChoice, Search.Reading, SearchedBack, SameQuoted, SetsSummingTo, QuotesUnique, KeysUnique, InFull, MatchReturnedReceipt;
    var same := SameQuoted(b, line, candidates);
    SameUnique(b, line, candidates);
    BackIsGuarded(b, line, candidates);
    if SearchedBack(b, line, candidates) {
      BackHasAmount(b, line, candidates);
      var sets := ReturnedSets(same, line);
      SetsAnswer(same, (q: Quote) => Abs(q.item.line.amount), Abs(line.amount.value));
      assert FullWays(same) == WholeWays(same, (q: Quote) => Abs(q.item.line.amount));
      assert |sets| == 1 <==> exists c: seq<nat> :: OnlyChoice(FullWays(same), Abs(line.amount.value), c);
    }
  }

  lemma {:induction false} BackHasAmount(b: Book, line: StatementLine, candidates: seq<Item>)
    requires SearchedBack(b, line, candidates)
    ensures line.amount.Some?
  {
  }

  lemma {:induction false} SameUnique(b: Book, line: StatementLine, candidates: seq<Item>)
    requires KeysUnique(candidates)
    ensures Distinct(SameQuoted(b, line, candidates))
  {
    hide QuotesUnique, KeysUnique, InCurrency, QuotedBy, Distinct;
    SameCurrencyMembers(b, line, candidates);
    UniqueIsDistinct(SameQuoted(b, line, candidates));
  }
}
