/** Payment terms and the cash discount they offer. */
module Terms {
  import opened Common
  import opened Money
  import opened Text

  /** A calendar date: its day number, and the year its text begins with. */
  datatype Date = Date(day: int, year: int)

  /** A rate is held in thousandths of a percent: 2% is 2000. */
  datatype Terms = Terms(netDays: int, discountDays: int, rate: int)

  /** Both figures are the discount itself, in thousandths of a currency unit. */
  datatype Discount = Discount(earned: int, available: int)

  function TermsOf(key: string): Terms {
    match Upper(Strip(key))
    case "NT30" => Terms(30, 0, 0)
    case "NT45" => Terms(45, 0, 0)
    case "NT60" => Terms(60, 0, 0)
    case "0002" => Terms(30, 10, 2000)
    case "0003" => Terms(45, 14, 3000)
    case _ => Terms(0, 0, 0)
  }

  /** The days and the rate in force; a document's own figures win over its terms'. */
  function Offer(terms: string, days: Option<int>, percent: Option<int>): Option<(int, int)> {
    var table := TermsOf(terms);
    var allowed := match days case Some(d) => d case None => table.discountDays;
    var rate := match percent case Some(p) => p case None => table.rate;
    if rate == 0 then None else Some((allowed, rate))
  }

  function DiscountOn(terms: string, baseline: Date, paidOn: Date, amount: int,
                      days: Option<int>, percent: Option<int>): Discount
  {
    match Offer(terms, days, percent)
    case None => Discount(0, 0)
    case Some((allowed, rate)) =>
      var available := 10 * HalfUp(amount * rate, 1_000_000);
      Discount(if paidOn.day <= baseline.day + allowed then available else 0, available)
  }

  /** What the table's own terms offer is whole cents, between nothing and the amount,
      and earned either whole or not at all. */
  lemma {:induction false} DiscountFits(terms: string, baseline: Date, paidOn: Date, amount: nat)
    ensures var d := DiscountOn(terms, baseline, paidOn, amount, None, None);
      && 0 <= d.available <= amount && WholeCents(d.available)
      && (d.earned == 0 || d.earned == d.available)
  {
    hide HalfUp;
    TableRates(terms);
    RateFits(amount, 2000);
    RateFits(amount, 3000);
  }

  lemma {:induction false} TableRates(terms: string)
    ensures TermsOf(terms).rate in {0, 2000, 3000}
  {
    hide Upper, Strip;
  }

  lemma {:induction false} RateFits(amount: nat, rate: int)
    requires rate == 2000 || rate == 3000
    ensures 0 <= 10 * HalfUp(amount * rate, 1_000_000) <= amount
  {
    HalfUpNearest(amount * rate, 1_000_000);
  }

  /** A document's own rate of at most 100% also stays within a whole-cent amount. */
  lemma {:induction false} OwnRateFits(terms: string, baseline: Date, paidOn: Date, amount: nat, days: Option<int>, percent: int)
    requires 0 <= percent <= 100_000 && WholeCents(amount)
    ensures 0 <= DiscountOn(terms, baseline, paidOn, amount, days, Some(percent)).available <= amount
  {
    RateWithin(amount, percent);
    HalfUpMonotone(0, amount * percent, 1_000_000);
    HalfUpMonotone(amount * percent, amount * 100_000, 1_000_000);
    assert amount * 100_000 == 1_000_000 * (amount / 10);
    HalfUpWhole(amount / 10, 1_000_000);
    HalfUpWhole(0, 1_000_000);
  }

  lemma {:induction false} RateWithin(amount: nat, percent: int)
    requires 0 <= percent <= 100_000
    ensures 0 <= amount * percent <= amount * 100_000
  {
    Distribute(amount, 100_000, percent);
  }
}
