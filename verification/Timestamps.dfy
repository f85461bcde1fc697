/** Moments of the proleptic Gregorian calendar, and the two ways they are written: the ISO text
    rows are stamped with, and the delta token. */
module Timestamps {
  import opened Common
  import opened Decimals

  const DAY := 86_400_000_000
  const LAST_YEAR := 9999
  const LAST_DAY := 3_652_059

  // ----- text -----

  /** The order text is compared in. */
  predicate Less(s: string, t: string) {
    if s == "" then t != ""
    else t != "" && (s[0] < t[0] || (s[0] == t[0] && Less(s[1..], t[1..])))
  }

  /** Blocks of equal width are compared one after the other. */
  lemma {:induction false} LessConcat(p: string, q: string, s: string, t: string)
    requires |p| == |q|
    ensures Less(p + s, q + t) <==> Less(p, q) || (p == q && Less(s, t))
  {
    if p == "" {
      assert p + s == s && q + t == t;
    } else {
      LessConcat(p[1..], q[1..], s, t);
      assert (p + s)[1..] == p[1..] + s && (q + t)[1..] == q[1..] + t;
      assert p[0] == q[0] && p[1..] == q[1..] ==> p == q;
    }
  }

  lemma {:induction false} DigitsOrder(m: nat, n: nat, w: nat)
    requires m < Pow10(w) && n < Pow10(w)
    ensures Less(Digits(m, w), Digits(n, w)) <==> m < n
    ensures Digits(m, w) == Digits(n, w) <==> m == n
  {
    if w > 0 {
      DigitsOrder(m / 10, n / 10, w - 1);
      LessConcat(Digits(m / 10, w - 1), Digits(n / 10, w - 1), [Digit(m % 10)], [Digit(n % 10)]);
      LastDigit(m, w);
      LastDigit(n, w);
    }
  }

  // ----- the calendar -----

  predicate IsLeap(y: nat) {
    y % 4 == 0 && (y % 100 != 0 || y % 400 == 0)
  }

  function DaysIn(y: nat, m: nat): nat
    requires 1 <= m <= 12
  {
    if m == 2 then (if IsLeap(y) then 29 else 28)
    else if m == 4 || m == 6 || m == 9 || m == 11 then 30 else 31
  }

  const BEFORE_MONTH := [0, 31, 59, 90, 120, 151, 181, 212, 243, 273, 304, 334, 365]

  /** The days of the months of a year before month `m`. */
  function BeforeMonth(y: nat, m: nat): nat
    requires 1 <= m <= 13
  {
    BEFORE_MONTH[m - 1] + (if m > 2 && IsLeap(y) then 1 else 0)
  }

  lemma {:induction false} MonthLength(y: nat, m: nat)
    requires 1 <= m <= 12
    ensures BeforeMonth(y, m + 1) == BeforeMonth(y, m) + DaysIn(y, m)
  {
  }

  /** The days of the years before year `y`, counted from year 1. */
  function BeforeYear(y: nat): nat
    requires y >= 1
  {
    365 * (y - 1) + (y - 1) / 4 - (y - 1) / 100 + (y - 1) / 400
  }

  /** A year is as long as its months. */
  lemma {:induction false} YearLength(y: nat)
    requires y >= 1
    ensures BeforeYear(y + 1) == BeforeYear(y) + BeforeMonth(y, 13)
  {
    Quarters(y);
  }

  lemma {:induction false} Quarters(y: nat)
    requires y >= 1
    ensures y / 4 == (y - 1) / 4 + (if y % 4 == 0 then 1 else 0)
    ensures y / 100 == (y - 1) / 100 + (if y % 100 == 0 then 1 else 0)
    ensures y / 400 == (y - 1) / 400 + (if y % 400 == 0 then 1 else 0)
    ensures y % 100 == 0 ==> y % 4 == 0
    ensures y % 400 == 0 ==> y % 100 == 0
  {
  }

  function YearFrom(day: nat, y: nat): (r: nat)
    requires 1 <= y <= LAST_YEAR && BeforeYear(y) <= day < LAST_DAY
    ensures y <= r <= LAST_YEAR && BeforeYear(r) <= day < BeforeYear(r + 1)
    decreases LAST_YEAR - y
  {
    assert BeforeYear(LAST_YEAR + 1) == LAST_DAY;
    if y == LAST_YEAR || day < BeforeYear(y + 1) then y else YearFrom(day, y + 1)
  }

  function MonthFrom(y: nat, day: nat, m: nat): (r: nat)
    requires 1 <= m <= 12 && BeforeMonth(y, m) <= day < BeforeMonth(y, 13)
    ensures m <= r <= 12 && BeforeMonth(y, r) <= day < BeforeMonth(y, r + 1)
    decreases 12 - m
  {
    if m == 12 || day < BeforeMonth(y, m + 1) then m else MonthFrom(y, day, m + 1)
  }

  /** A moment: microseconds from the start of year 1, within the years text can name. */
  type Instant = t: int | 0 <= t < LAST_DAY * DAY witness 0

  datatype Fields = Fields(year: nat, month: nat, day: nat, seconds: nat, micro: nat)

  predicate IsFields(f: Fields) {
    && 1 <= f.year <= LAST_YEAR && 1 <= f.month <= 12 && 1 <= f.day <= DaysIn(f.year, f.month)
    && f.seconds < 86_400 && f.micro < 1_000_000
  }

  function DayOf(t: Instant): (r: nat)
    ensures r < LAST_DAY
  {
    t / DAY
  }

  /** Where to look from: no year is longer than 366 days. */
  function YearOf(day: nat): (r: nat)
    requires day < LAST_DAY
    ensures 1 <= r <= LAST_YEAR && BeforeYear(r) <= day < BeforeYear(r + 1)
  {
    YearFrom(day, day / 366 + 1)
  }

  function MonthOf(y: nat, day: nat): (r: nat)
    requires day < BeforeMonth(y, 13)
    ensures 1 <= r <= 12 && BeforeMonth(y, r) <= day < BeforeMonth(y, r + 1)
  {
    MonthFrom(y, day, day / 31 + 1)
  }

  function FieldsOf(t: Instant): (f: Fields)
    ensures IsFields(f)
  {
    var y := YearOf(DayOf(t));
    YearLength(y);
    var within := DayOf(t) - BeforeYear(y);
    var m := MonthOf(y, within);
    MonthLength(y, m);
    Fields(y, m, within - BeforeMonth(y, m) + 1, t % DAY / 1_000_000, t % 1_000_000)
  }

  function Moment(f: Fields): int
    requires IsFields(f)
  {
    (BeforeYear(f.year) + BeforeMonth(f.year, f.month) + f.day - 1) * DAY + f.seconds * 1_000_000 + f.micro
  }

  lemma {:induction false} MomentOfFields(t: Instant)
    ensures Moment(FieldsOf(t)) == t
  {
    var f := FieldsOf(t);
    assert BeforeYear(f.year) + BeforeMonth(f.year, f.month) + f.day - 1 == DayOf(t);
    assert t == DayOf(t) * DAY + t % DAY;
    MicrosOfDay(t);
  }

  lemma {:induction false} MicrosOfDay(t: Instant)
    ensures t % DAY == t % DAY / 1_000_000 * 1_000_000 + t % 1_000_000
  {
    assert t == t / DAY * DAY + t % DAY;
    assert t / DAY * DAY == (t / DAY * 86_400) * 1_000_000;
  }

  lemma {:induction false} YearsMonotone(y: nat, z: nat)
    requires 1 <= y <= z
    ensures BeforeYear(y) <= BeforeYear(z)
  {
    if y < z {
      YearsMonotone(y, z - 1);
      YearLength(z - 1);
    }
  }

  lemma {:induction false} MonthsMonotone(y: nat, m: nat, n: nat)
    requires 1 <= m <= n <= 13
    ensures BeforeMonth(y, m) <= BeforeMonth(y, n)
  {
    if m < n {
      MonthsMonotone(y, m, n - 1);
      MonthLength(y, n - 1);
    }
  }

  /** The fields of a later moment are later, compared from the year down. */
  predicate Before(a: Fields, b: Fields) {
    a.year < b.year || (a.year == b.year
      && (a.month < b.month || (a.month == b.month
          && (a.day < b.day || (a.day == b.day
              && (a.seconds < b.seconds || (a.seconds == b.seconds && a.micro < b.micro)))))))
  }

  lemma {:induction false} EarlierDate(a: Fields, b: Fields)
    requires IsFields(a) && IsFields(b)
    requires a.year < b.year || (a.year == b.year && (a.month < b.month || (a.month == b.month && a.day < b.day)))
    ensures BeforeYear(a.year) + BeforeMonth(a.year, a.month) + a.day < BeforeYear(b.year) + BeforeMonth(b.year, b.month) + b.day
  {
    MonthLength(a.year, a.month);
    MonthsMonotone(a.year, a.month + 1, 13);
    if a.year < b.year {
      YearLength(a.year);
      YearsMonotone(a.year + 1, b.year);
    } else if a.month < b.month {
      MonthsMonotone(a.year, a.month + 1, b.month);
    }
  }

  lemma {:induction false} BeforeIsEarlier(a: Fields, b: Fields)
    requires IsFields(a) && IsFields(b) && Before(a, b)
    ensures Moment(a) < Moment(b)
  {
    var p := BeforeYear(a.year) + BeforeMonth(a.year, a.month) + a.day;
    var q := BeforeYear(b.year) + BeforeMonth(b.year, b.month) + b.day;
    if a.year == b.year && a.month == b.month && a.day == b.day {
      assert p == q;
    } else {
      EarlierDate(a, b);
      assert (q - 1) * DAY >= (p - 1) * DAY + DAY;
    }
  }

  /** Time order is the order of the fields. */
  lemma {:induction false} EarlierIsBefore(a: Instant, b: Instant)
    ensures a < b <==> Before(FieldsOf(a), FieldsOf(b))
  {
    var f, g := FieldsOf(a), FieldsOf(b);
    MomentOfFields(a);
    MomentOfFields(b);
    if Before(f, g) {
      BeforeIsEarlier(f, g);
    } else if Before(g, f) {
      BeforeIsEarlier(g, f);
    }
  }

  // ----- the ISO text of a moment -----

  function ClockText(seconds: nat): string {
    Digits(seconds / 3600, 2) + (":" + (Digits(seconds / 60 % 60, 2) + (":" + (Digits(seconds % 60, 2) + ""))))
  }

  /** A whole second is written without a fraction. */
  function FractionText(micro: nat): string {
    if micro == 0 then "" else "." + Digits(micro, 6)
  }

  function FieldsText(f: Fields): string {
    Digits(f.year, 4) + ("-" + (Digits(f.month, 2) + ("-" + (Digits(f.day, 2)
      + ("T" + (ClockText(f.seconds) + FractionText(f.micro)))))))
  }

  function Iso(t: Instant): string {
    FieldsText(FieldsOf(t))
  }

  lemma {:induction false} NotLessSelf(s: string)
    ensures !Less(s, s)
  {
    if s != "" {
      NotLessSelf(s[1..]);
    }
  }

  lemma {:induction false} SecondsInFields(s: nat, t: nat)
    ensures (s < t) == (s / 3600 < t / 3600 || (s / 3600 == t / 3600
              && (s / 60 % 60 < t / 60 % 60 || (s / 60 % 60 == t / 60 % 60 && s % 60 < t % 60))))
  {
    var h, m, x := s / 3600, s / 60 % 60, s % 60;
    var i, n, y := t / 3600, t / 60 % 60, t % 60;
    assert s == 3600 * h + 60 * m + x;
    assert t == 3600 * i + 60 * n + y;
  }

  lemma {:induction false} ClockLess(s: nat, t: nat)
    requires s < 86_400 && t < 86_400
    ensures Less(ClockText(s), ClockText(t)) <==> s < t
  {
    assert Pow10(2) == 100;
    var e, f := Digits(s % 60, 2) + "", Digits(t % 60, 2) + "";
    var c, d := Digits(s / 60 % 60, 2) + (":" + e), Digits(t / 60 % 60, 2) + (":" + f);
    DigitsOrder(s % 60, t % 60, 2);
    LessConcat(Digits(s % 60, 2), Digits(t % 60, 2), "", "");
    FieldOrder(s / 60 % 60, t / 60 % 60, 2, ':', e, f);
    FieldOrder(s / 3600, t / 3600, 2, ':', c, d);
    SecondsInFields(s, t);
  }

  lemma {:induction false} ClockOrder(s: nat, t: nat)
    requires s < 86_400 && t < 86_400
    ensures |ClockText(s)| == |ClockText(t)|
    ensures Less(ClockText(s), ClockText(t)) <==> s < t
    ensures ClockText(s) == ClockText(t) <==> s == t
  {
    ClockLess(s, t);
    ClockLess(t, s);
    NotLessSelf(ClockText(s));
  }

  lemma {:induction false} FractionOrder(m: nat, n: nat)
    requires m < 1_000_000 && n < 1_000_000
    ensures Less(FractionText(m), FractionText(n)) <==> m < n
  {
    assert Pow10(6) == 1_000_000 by {
      assert Pow10(3) == 1000;
      assert Pow10(5) == 100 * Pow10(3);
    }
    DigitsOrder(m, n, 6);
    LessConcat(".", ".", Digits(m, 6), Digits(n, 6));
    assert !Less(".", ".");
    assert Less(FractionText(m), "") == false;
  }

  /** One field, its separator, and the rest. */
  lemma {:induction false} FieldOrder(m: nat, n: nat, w: nat, sep: char, s: string, t: string)
    requires m < Pow10(w) && n < Pow10(w)
    ensures Less(Digits(m, w) + ([sep] + s), Digits(n, w) + ([sep] + t)) <==> m < n || (m == n && Less(s, t))
  {
    DigitsOrder(m, n, w);
    LessConcat(Digits(m, w), Digits(n, w), [sep] + s, [sep] + t);
    assert ([sep] + s)[1..] == s && ([sep] + t)[1..] == t;
  }

  lemma {:induction false} TextOrder(f: Fields, g: Fields)
    requires IsFields(f) && IsFields(g)
    ensures Less(FieldsText(f), FieldsText(g)) <==> Before(f, g)
  {
    assert Pow10(2) == 100 && Pow10(4) == 100 * Pow10(2);
    var c, d := ClockText(f.seconds) + FractionText(f.micro), ClockText(g.seconds) + FractionText(g.micro);
    ClockOrder(f.seconds, g.seconds);
    FractionOrder(f.micro, g.micro);
    LessConcat(ClockText(f.seconds), ClockText(g.seconds), FractionText(f.micro), FractionText(g.micro));
    var p, q := Digits(f.day, 2) + ("T" + c), Digits(g.day, 2) + ("T" + d);
    FieldOrder(f.day, g.day, 2, 'T', c, d);
    var r, s := Digits(f.month, 2) + ("-" + p), Digits(g.month, 2) + ("-" + q);
    FieldOrder(f.month, g.month, 2, '-', p, q);
    FieldOrder(f.year, g.year, 4, '-', r, s);
  }

  /** The ISO texts of two moments compare as the moments do, though a whole second's is shorter. */
  lemma {:induction false} IsoOrder(a: Instant, b: Instant)
    ensures Less(Iso(a), Iso(b)) <==> a < b
  {
    EarlierIsBefore(a, b);
    TextOrder(FieldsOf(a), FieldsOf(b));
  }

  // ----- the delta token -----

  /** Down to the millisecond. */
  function Trunc(t: Instant): (r: Instant)
    ensures r <= t && r % 1000 == 0 && t - r < 1000
  {
    t - t % 1000
  }

  function TokenText(f: Fields): string {
    "D" + Digits(f.year, 4) + Digits(f.month, 2) + Digits(f.day, 2)
    + "T" + Digits(f.seconds / 3600, 2) + Digits(f.seconds / 60 % 60, 2) + Digits(f.seconds % 60, 2)
    + Digits(f.micro / 1000, 3)
  }

  function Mint(t: Instant): string {
    TokenText(FieldsOf(t))
  }

  function StripSpace(s: string): string
    decreases |s|
  {
    if s != "" && s[0] == ' ' then StripSpace(s[1..])
    else if s != "" && s[|s| - 1] == ' ' then StripSpace(s[..|s| - 1]) else s
  }

  function StripQuotes(s: string): string
    decreases |s|
  {
    if s != "" && s[0] == '\'' then StripQuotes(s[1..])
    else if s != "" && s[|s| - 1] == '\'' then StripQuotes(s[..|s| - 1]) else s
  }

  predicate AllDigits(s: string) {
    forall i :: 0 <= i < |s| ==> IsDigit(s[i])
  }

  /** A letter, eight digits, a letter and nine more. */
  predicate TokenShape(s: string) {
    |s| == 19 && s[0] == 'D' && s[9] == 'T' && AllDigits(s[1..9]) && AllDigits(s[10..])
  }

  function TokenFields(s: string): Fields
    requires TokenShape(s)
  {
    Fields(Number(s[1..5]), Number(s[5..7]), Number(s[7..9]),
           Number(s[10..12]) * 3600 + Number(s[12..14]) * 60 + Number(s[14..16]), Number(s[16..]) * 1000)
  }

  /** What a token says: None for one this system did not issue, or that is no point in time. */
  function Read(token: string): Option<int> {
    Parse(StripQuotes(StripSpace(token)))
  }

  function Parse(value: string): Option<int> {
    if !TokenShape(value) then None
    else if Number(value[10..12]) > 23 || Number(value[12..14]) > 59 || Number(value[14..16]) > 59 then None
    else if !IsFields(TokenFields(value)) then None
    else Some(Moment(TokenFields(value)))
  }

  function Quoted(s: string): string { "'" + s + "'" }

  lemma {:induction false} TokenParts(f: Fields)
    requires IsFields(f)
    ensures var s := TokenText(f);
      && |s| == 19 && s[0] == 'D' && s[9] == 'T'
      && s[1..5] == Digits(f.year, 4) && s[5..7] == Digits(f.month, 2) && s[7..9] == Digits(f.day, 2)
      && s[10..12] == Digits(f.seconds / 3600, 2) && s[12..14] == Digits(f.seconds / 60 % 60, 2)
      && s[14..16] == Digits(f.seconds % 60, 2) && s[16..] == Digits(f.micro / 1000, 3)
  {
    var y, mo, d := Digits(f.year, 4), Digits(f.month, 2), Digits(f.day, 2);
    var h, mi, se, ms := Digits(f.seconds / 3600, 2), Digits(f.seconds / 60 % 60, 2), Digits(f.seconds % 60, 2),
                         Digits(f.micro / 1000, 3);
    NinePieces(y, mo, d, h, mi, se, ms);
  }

  lemma {:induction false} NinePieces(y: string, mo: string, d: string, h: string, mi: string, se: string, ms: string)
    requires |y| == 4 && |mo| == |d| == |h| == |mi| == |se| == 2 && |ms| == 3
    ensures var s := "D" + y + mo + d + "T" + h + mi + se + ms;
      && |s| == 19 && s[0] == 'D' && s[9] == 'T' && s[1..5] == y && s[5..7] == mo && s[7..9] == d
      && s[10..12] == h && s[12..14] == mi && s[14..16] == se && s[16..] == ms
  {
  }

  lemma {:induction false} PiecesAreDigits(s: string, a: nat, b: nat, c: nat)
    requires a <= b <= c <= |s| && AllDigits(s[a..b]) && AllDigits(s[b..c])
    ensures AllDigits(s[a..c])
  {
    assert s[a..c] == s[a..b] + s[b..c];
  }

  lemma {:induction false} TokenNumbers(f: Fields)
    requires IsFields(f)
    ensures var s := TokenText(f);
      && |s| == 19
      && AllDigits(s[1..5]) && Number(s[1..5]) == f.year && AllDigits(s[5..7]) && Number(s[5..7]) == f.month
      && AllDigits(s[7..9]) && Number(s[7..9]) == f.day
      && AllDigits(s[10..12]) && Number(s[10..12]) == f.seconds / 3600
      && AllDigits(s[12..14]) && Number(s[12..14]) == f.seconds / 60 % 60
      && AllDigits(s[14..16]) && Number(s[14..16]) == f.seconds % 60
      && AllDigits(s[16..]) && Number(s[16..]) == f.micro / 1000
  {
    assert Pow10(2) == 100 && Pow10(3) == 1000 && Pow10(4) == 100 * Pow10(2);
    TokenParts(f);
    DigitsNumber(f.year, 4);
    DigitsNumber(f.month, 2);
    DigitsNumber(f.day, 2);
    DigitsNumber(f.seconds / 3600, 2);
    DigitsNumber(f.seconds / 60 % 60, 2);
    DigitsNumber(f.seconds % 60, 2);
    DigitsNumber(f.micro / 1000, 3);
  }

  lemma {:induction false} TokenDigits(f: Fields)
    requires IsFields(f)
    ensures TokenShape(TokenText(f))
    ensures TokenFields(TokenText(f)) == f.(micro := f.micro / 1000 * 1000)
    ensures Number(TokenText(f)[10..12]) <= 23 && Number(TokenText(f)[12..14]) <= 59 && Number(TokenText(f)[14..16]) <= 59
  {
    var s := TokenText(f);
    TokenParts(f);
    TokenNumbers(f);
    PiecesAreDigits(s, 1, 5, 7);
    PiecesAreDigits(s, 1, 7, 9);
    PiecesAreDigits(s, 10, 12, 14);
    PiecesAreDigits(s, 10, 14, 16);
    assert s[16..19] == s[16..] && s[10..19] == s[10..];
    PiecesAreDigits(s, 10, 16, 19);
    SecondsBack(f.seconds);
  }

  lemma {:induction false} SecondsBack(n: nat)
    ensures n / 3600 * 3600 + n / 60 % 60 * 60 + n % 60 == n
  {
  }

  lemma {:induction false} Unstripped(s: string)
    requires TokenShape(s)
    ensures StripQuotes(StripSpace(s)) == s && StripQuotes(StripSpace(Quoted(s))) == s
  {
    assert IsDigit(s[10..][8]) && s[18] == s[10..][8];
    var q := Quoted(s);
    assert q[1..] == s + "'";
    assert (s + "'")[..19] == s;
  }

  lemma {:induction false} ReadShape(s: string, r: Option<int>)
    requires TokenShape(s) && Parse(s) == r
    ensures ReadBack(s) == (r, r)
  {
    Unstripped(s);
  }

  lemma {:induction false} ThousandsOf(n: nat)
    ensures n % 1_000_000 % 1000 == n % 1000
  {
  }

  lemma {:induction false} MicrosLeft(f: Fields, t: Instant)
    requires IsFields(f) && Moment(f) == t && f.micro == t % 1_000_000
    ensures Moment(f) - f.micro % 1000 == Trunc(t)
  {
    ThousandsOf(t);
  }

  lemma {:induction false} FieldsFor(t: Instant) returns (f: Fields)
    ensures IsFields(f) && f == FieldsOf(t) && Moment(f) == t && f.micro == t % 1_000_000
  {
    f := FieldsOf(t);
    MomentOfFields(t);
  }

  /** Either way it is written. */
  function ReadBack(token: string): (Option<int>, Option<int>) {
    (Read(token), Read(Quoted(token)))
  }

  /** A token reads back as the moment it was minted at, to the millisecond, with the quotes one
      protocol puts around it or without. */
  lemma {:induction false} TokenRoundTrip(t: Instant)
    ensures ReadBack(Mint(t)) == (Some(Trunc(t)), Some(Trunc(t)))
  {
    var f := FieldsFor(t);
    MicrosLeft(f, t);
    ReadToken(f, Trunc(t));
  }

  lemma {:induction false} ReadToken(f: Fields, r: int)
    requires IsFields(f) && r == Moment(f) - f.micro % 1000
    ensures ReadBack(TokenText(f)) == (Some(r), Some(r))
  {
    ParseToken(f, r);
    ReadShape(TokenText(f), Some(r));
  }

  lemma {:induction false} ParseToken(f: Fields, r: int)
    requires IsFields(f) && r == Moment(f) - f.micro % 1000
    ensures TokenShape(TokenText(f)) && Parse(TokenText(f)) == Some(r)
  {
    TokenDigits(f);
    MomentTruncates(f);
  }

  lemma {:induction false} MomentTruncates(f: Fields)
    requires IsFields(f)
    ensures var g := f.(micro := f.micro / 1000 * 1000);
      IsFields(g) && Moment(g) == Moment(f) - f.micro % 1000
  {
  }

  // ----- what the two texts look like -----

  /** The ISO text of a moment: its fields at their places, in so many digits, with the microseconds
      only where there are any. */
  lemma {:induction false} IsoReads(t: Instant)
    ensures var s, f := Iso(t), FieldsOf(t);
      && Moment(f) == t && |s| == (if t % 1_000_000 == 0 then 19 else 26)
      && s[4] == '-' && s[7] == '-' && s[10] == 'T' && s[13] == ':' && s[16] == ':'
      && Number(s[..4]) == f.year && Number(s[5..7]) == f.month && Number(s[8..10]) == f.day
      && Number(s[11..13]) * 3600 + Number(s[14..16]) * 60 + Number(s[17..19]) == t % DAY / 1_000_000
      && (t % 1_000_000 != 0 ==> s[19] == '.' && Number(s[20..]) == t % 1_000_000)
  {
    hide Moment, FieldsOf, Digits, Number;
    var f := FieldsFor(t);
    FieldsSeconds(t);
    IsoParts(f);
    TextNumbers(f);
    SecondsBack(f.seconds);
  }

  lemma {:induction false} FieldsSeconds(t: Instant)
    ensures FieldsOf(t).seconds == t % DAY / 1_000_000 && IsFields(FieldsOf(t))
  {
  }

  lemma {:induction false} IsoParts(f: Fields)
    ensures var s := FieldsText(f);
      && |s| == (if f.micro == 0 then 19 else 26)
      && s[4] == '-' && s[7] == '-' && s[10] == 'T' && s[13] == ':' && s[16] == ':'
      && s[..4] == Digits(f.year, 4) && s[5..7] == Digits(f.month, 2) && s[8..10] == Digits(f.day, 2)
      && s[11..13] == Digits(f.seconds / 3600, 2) && s[14..16] == Digits(f.seconds / 60 % 60, 2)
      && s[17..19] == Digits(f.seconds % 60, 2)
      && (f.micro != 0 ==> s[19] == '.' && s[20..] == Digits(f.micro, 6))
  {
    hide Digits, ClockText, FractionText;
    var clock, s := ClockText(f.seconds), FieldsText(f);
    ClockParts(f.seconds);
    FractionParts(f.micro);
    assert s[11..19] == clock;
    assert s[11..13] == clock[0..2] && s[14..16] == clock[3..5] && s[17..19] == clock[6..8];
    assert s[13] == clock[2] && s[16] == clock[5];
    assert s[19..] == FractionText(f.micro);
    if f.micro != 0 {
      assert s[20..] == FractionText(f.micro)[1..];
    }
  }

  lemma {:induction false} FractionParts(micro: nat)
    ensures var s := FractionText(micro);
      if micro == 0 then s == "" else |s| == 7 && s[0] == '.' && s[1..] == Digits(micro, 6)
  {
    hide Digits;
  }

  lemma {:induction false} ClockParts(seconds: nat)
    ensures var s := ClockText(seconds);
      && |s| == 8 && s[2] == ':' && s[5] == ':' && s[0..2] == Digits(seconds / 3600, 2)
      && s[3..5] == Digits(seconds / 60 % 60, 2) && s[6..8] == Digits(seconds % 60, 2)
  {
    hide Digits;
  }

  lemma {:induction false} TextNumbers(f: Fields)
    requires IsFields(f)
    ensures Number(Digits(f.year, 4)) == f.year && Number(Digits(f.month, 2)) == f.month && Number(Digits(f.day, 2)) == f.day
    ensures Number(Digits(f.seconds / 3600, 2)) == f.seconds / 3600
    ensures Number(Digits(f.seconds / 60 % 60, 2)) == f.seconds / 60 % 60
    ensures Number(Digits(f.seconds % 60, 2)) == f.seconds % 60 && Number(Digits(f.micro, 6)) == f.micro
  {
    assert Pow10(2) == 100 && Pow10(4) == 10_000 && Pow10(6) == 1_000_000;
    DigitsNumber(f.year, 4);
    DigitsNumber(f.month, 2);
    DigitsNumber(f.day, 2);
    DigitsNumber(f.seconds / 3600, 2);
    DigitsNumber(f.seconds / 60 % 60, 2);
    DigitsNumber(f.seconds % 60, 2);
    DigitsNumber(f.micro, 6);
  }

  /** The token of a moment: the same fields with nothing between them, down to the millisecond. */
  lemma {:induction false} TokenReads(t: Instant)
    ensures var s, f := Mint(t), FieldsOf(t);
      && |s| == 19 && s[0] == 'D' && s[9] == 'T'
      && Number(s[1..5]) == f.year && Number(s[5..7]) == f.month && Number(s[7..9]) == f.day
      && Number(s[10..12]) * 3600 + Number(s[12..14]) * 60 + Number(s[14..16]) == t % DAY / 1_000_000
      && Number(s[16..]) == t % 1_000_000 / 1000
  {
    hide Moment, FieldsOf, Digits, Number;
    var f := FieldsFor(t);
    FieldsSeconds(t);
    TokenParts(f);
    TextNumbers(f);
    MilliNumber(f.micro);
    SecondsBack(f.seconds);
  }

  lemma {:induction false} MilliNumber(micro: nat)
    requires micro < 1_000_000
    ensures Number(Digits(micro / 1000, 3)) == micro / 1000
  {
    assert Pow10(3) == 1000;
    DigitsNumber(micro / 1000, 3);
  }

  /** The calendar's days: the first of January 1970 is day 719162, and February has 29 days just in
      the years that divide by 4 and not by 100, or by 400. */
  lemma {:induction false} CalendarIs(y: nat)
    requires y >= 1
    ensures BeforeYear(1) == 0 && BeforeYear(1970) == 719_162
    ensures BeforeMonth(y, 3) - BeforeMonth(y, 2) == if (y % 4 == 0 && y % 100 != 0) || y % 400 == 0 then 29 else 28
    ensures BeforeYear(y + 1) - BeforeYear(y) == if (y % 4 == 0 && y % 100 != 0) || y % 400 == 0 then 366 else 365
  {
    Quarters(y);
  }
}
