/** The check digits of an IBAN (ISO 13616), by the MOD 97-10 scheme of ISO 7064, on ASCII text. */
module Iban {
  import opened Common
  import opened Decimals
  import opened Text

  predicate IsLetter(c: char) { 'A' <= c <= 'Z' }

  predicate AllLetters(s: string) { s != "" && forall i :: 0 <= i < |s| ==> IsLetter(s[i]) }
  predicate AllDigits(s: string) { s != "" && forall i :: 0 <= i < |s| ==> IsDigit(s[i]) }
  predicate AllAlnum(s: string) { s != "" && forall i :: 0 <= i < |s| ==> IsLetter(s[i]) || IsDigit(s[i]) }

  /** A letter stands for a number of two digits, from 10 for A. */
  function LetterValue(c: char): (r: nat)
    requires IsLetter(c)
    ensures 10 <= r <= 35
  {
    c as nat - 'A' as nat + 10
  }

  function CharText(c: char): string {
    if IsLetter(c) then Digits(LetterValue(c), 2) else [c]
  }

  function Lettered(s: string): string {
    if |s| == 0 then "" else Lettered(s[..|s| - 1]) + CharText(s[|s| - 1])
  }

  function Rotated(iban: string): string
    requires |iban| >= 4
  {
    iban[4..] + iban[..4]
  }

  function Mod97(rotated: string): nat {
    Number(Lettered(rotated)) % 97
  }

  const IBAN_MIN := 15
  const IBAN_MAX := 34

  function Despaced(s: string): string {
    Filter(s, (c: char) => c != ' ')
  }

  predicate IsValidIban(value: string) {
    var iban := Upper(Despaced(value));
    && IBAN_MIN <= |iban| <= IBAN_MAX
    && AllLetters(iban[..2]) && AllDigits(iban[2..4]) && AllAlnum(iban[4..])
    && Mod97(Rotated(iban)) == 1
  }

  function CheckDigits(country: string, bban: string): string
    requires |country| == 2
  {
    Digits(98 - Mod97(Rotated(Upper(country) + "00" + Upper(bban))), 2)
  }

  function Build(country: string, bban: string): string
    requires |country| == 2
  {
    Upper(country) + CheckDigits(country, bban) + Upper(bban)
  }

  // ----- the remainder, one character at a time -----

  function ValueOfChar(c: char): nat {
    if IsLetter(c) then LetterValue(c) else ValueOf(c)
  }

  function Step(x: nat, c: char): (r: nat)
    ensures r < 97
  {
    (if IsLetter(c) then x * 100 + LetterValue(c) else x * 10 + ValueOf(c)) % 97
  }

  function Fold(x: nat, s: string): nat {
    if |s| == 0 then x else Step(Fold(x, s[..|s| - 1]), s[|s| - 1])
  }

  lemma {:induction false} NumberSnoc(s: string, c: char)
    ensures Number(s + [c]) == 10 * Number(s) + ValueOf(c)
  {
    assert (s + [c])[..|s|] == s;
  }

  lemma {:induction false} LetterText(s: string, c: char)
    requires IsLetter(c)
    ensures Number(s + CharText(c)) == 100 * Number(s) + LetterValue(c)
  {
    var n := LetterValue(c);
    var high, low := Digit(n / 10), Digit(n % 10);
    assert Digits(n / 10, 1) == [high];
    assert CharText(c) == [high, low];
    assert s + [high, low] == (s + [high]) + [low];
    NumberSnoc(s, high);
    NumberSnoc(s + [high], low);
  }

  lemma {:induction false} AddMultiple(m: int, n: int)
    ensures (m + 97 * n) % 97 == m % 97
  {
  }

  lemma {:induction false} StepRemainder(x: nat, c: char)
    ensures Step(x, c) == Step(x % 97, c)
  {
    var q, r := x / 97, x % 97;
    if IsLetter(c) {
      AddMultiple(r * 100 + LetterValue(c), 100 * q);
    } else {
      AddMultiple(r * 10 + ValueOf(c), 10 * q);
    }
  }

  /** A factor with an inverse modulo 97 keeps remainders apart. */
  lemma {:induction false} Cancel(f: int, inverse: int, t: int, m: int, k: int)
    requires f * inverse == 97 * t + 1 && f * m == 97 * k && -97 < m < 97
    ensures m == 0
  {
    assert (f * inverse) * m == inverse * (f * m);
    assert inverse * (97 * k) == 97 * (inverse * k);
    assert (97 * t + 1) * m == 97 * (t * m) + m;
    var j := inverse * k - t * m;
    assert m == 97 * j;
  }

  lemma {:induction false} Quotients(u: int, v: int)
    requires u % 97 == v % 97
    ensures u - v == 97 * (u / 97 - v / 97)
  {
  }

  lemma {:induction false} OneMore(text: string, c: char)
    ensures Number(text + CharText(c)) % 97 == Step(Number(text) % 97, c)
  {
    StepRemainder(Number(text), c);
    if IsLetter(c) {
      LetterText(text, c);
    } else {
      NumberSnoc(text, c);
    }
  }

  /** The number the whole text makes leaves the remainder its characters leave one after another. */
  lemma {:induction false} Mod97IsFold(s: string)
    ensures Mod97(s) == Fold(0, s)
  {
    if |s| > 0 {
      Mod97IsFold(s[..|s| - 1]);
      OneMore(Lettered(s[..|s| - 1]), s[|s| - 1]);
    }
  }

  lemma {:induction false} FoldAppend(x: nat, s: string, t: string)
    ensures Fold(x, s + t) == Fold(Fold(x, s), t)
  {
    if t == "" {
      assert s + t == s;
    } else {
      var u := t[..|t| - 1];
      FoldAppend(x, s, u);
      assert (s + t)[..|s + t| - 1] == s + u;
    }
  }

  lemma {:induction false} FoldOne(x: nat, c: char)
    ensures Fold(x, [c]) == Step(x, c)
  {
    assert [c][..0] == "";
  }

  lemma {:induction false} FoldTwo(x: nat, p: char, q: char)
    ensures Fold(x, [p, q]) == Step(Step(x, p), q)
  {
    assert [p, q][..1] == [p];
    FoldOne(x, p);
  }

  /** What follows never brings two remainders together. */
  lemma {:induction false} StepTold(x: nat, y: nat, c: char)
    requires x < 97 && y < 97 && Step(x, c) == Step(y, c)
    ensures x == y
  {
    if IsLetter(c) {
      var u, v := x * 100 + LetterValue(c), y * 100 + LetterValue(c);
      Quotients(u, v);
      Cancel(100, 65, 67, x - y, u / 97 - v / 97);
    } else {
      var u, v := x * 10 + ValueOf(c), y * 10 + ValueOf(c);
      Quotients(u, v);
      Cancel(10, 68, 7, x - y, u / 97 - v / 97);
    }
  }

  lemma {:induction false} FoldBelow(x: nat, b: string)
    requires x < 97
    ensures Fold(x, b) < 97
  {
  }

  lemma {:induction false} FoldTold(x: nat, y: nat, b: string)
    requires x < 97 && y < 97
    ensures Fold(x, b) == Fold(y, b) <==> x == y
  {
    if |b| > 0 {
      var rest := b[..|b| - 1];
      FoldTold(x, y, rest);
      FoldBelow(x, rest);
      FoldBelow(y, rest);
      if Fold(x, b) == Fold(y, b) {
        StepTold(Fold(x, rest), Fold(y, rest), b[|b| - 1]);
      }
    }
  }

  lemma {:induction false} MiddleFolds(a: string, m: string, b: string, h: nat)
    requires h == Fold(0, a)
    ensures Mod97(a + m + b) == Fold(Fold(h, m), b)
  {
    Mod97IsFold(a + m + b);
    FoldAppend(0, a + m, b);
    FoldAppend(0, a, m);
  }

  // ----- what is built is accepted -----

  lemma {:induction false} FoldDigits(x: nat, n: nat)
    requires n < 100
    ensures Fold(x, Digits(n, 2)) == (x * 100 + n) % 97
  {
    var high, low := Digit(n / 10), Digit(n % 10);
    assert Digits(n / 10, 1) == [high];
    assert Digits(n, 2) == [high, low];
    FoldTwo(x, high, low);
    StepRemainder(x * 10 + n / 10, low);
  }

  /** The check digits, put where they go, bring the whole to 1 modulo 97. */
  lemma {:induction false} DigitsComplete(front: string)
    ensures var d := 98 - Mod97(front + "00");
      2 <= d <= 98 && Mod97(front + Digits(d, 2)) == 1
  {
    hide Mod97, Fold, Digits;
    var d := 98 - Mod97(front + "00");
    var x := Fold(0, front);
    NoughtNought();
    EndsIn(front, 0, x);
    EndsIn(front, d, x);
    Complement(x);
  }

  lemma {:induction false} NoughtNought()
    ensures Digits(0, 2) == "00"
  {
  }

  /** Of any two digits put there these pass, and otherwise only a pair 97 away from them. */
  lemma {:induction false} OnlyCheckDigits(country: string, bban: string, n: nat)
    requires |country| == 2 && n < 100
    ensures Mod97(Rotated(Upper(country) + Digits(n, 2) + Upper(bban))) == 1
       <==> n % 97 == Number(CheckDigits(country, bban)) % 97
  {
    hide Mod97, Fold, Digits, CheckDigits, Number;
    var front := Upper(bban) + Upper(country);
    var x, d := Fold(0, front), 98 - Mod97(front + "00");
    NoughtNought();
    RotatedIs(Upper(country), Digits(n, 2), Upper(bban));
    EndsIn(front, 0, x);
    EndsIn(front, n, x);
    ChecksAre(country, bban);
    TwoDigits(d);
    Completes(x, n, d);
  }

  lemma {:induction false} ChecksAre(country: string, bban: string)
    requires |country| == 2
    ensures CheckDigits(country, bban) == Digits(98 - Mod97(Upper(bban) + Upper(country) + "00"), 2)
  {
    RotatedIs(Upper(country), "00", Upper(bban));
  }

  lemma {:induction false} TwoDigits(d: nat)
    requires d < 100
    ensures Number(Digits(d, 2)) == d
  {
    assert Pow10(2) == 100;
    DigitsNumber(d, 2);
  }

  lemma {:induction false} Completes(h: nat, n: nat, d: nat)
    requires n < 100 && d == 98 - (h * 100 + 0) % 97
    ensures (h * 100 + n) % 97 == 1 <==> n % 97 == d % 97
  {
  }

  // ----- what the test is, character by character -----

  /** A letter is worth its place in the alphabet and nine more. */
  lemma {:induction false} LetterValues(i: nat)
    requires i < 26
    ensures var c := "ABCDEFGHIJKLMNOPQRSTUVWXYZ"[i]; IsLetter(c) && LetterValue(c) == 10 + i
  {
  }

  /** The remainder left by the digits of `s` from place `i` on, one after another, a letter's two at a
      time, with `x` before them. */
  function Remainder(s: string, i: nat, x: nat): nat
    requires i <= |s|
    decreases |s| - i
  {
    if i == |s| then x
    else Remainder(s, i + 1, (if IsLetter(s[i]) then 100 * x + LetterValue(s[i]) else 10 * x + ValueOf(s[i])) % 97)
  }

  lemma {:induction false} StepIs(x: nat, c: char)
    ensures Step(x, c) == (if IsLetter(c) then 100 * x + LetterValue(c) else 10 * x + ValueOf(c)) % 97
  {
    hide LetterValue, ValueOf;
    assert x * 100 == 100 * x && x * 10 == 10 * x;
  }

  lemma {:induction false} FoldIsRemainder(x: nat, s: string, i: nat)
    requires i <= |s|
    ensures Fold(x, s[i..]) == Remainder(s, i, x)
    decreases |s| - i
  {
    hide Step, LetterValue, ValueOf;
    if i < |s| {
      StepIs(x, s[i]);
      assert s[i..] == [s[i]] + s[i + 1..];
      FoldAppend(x, [s[i]], s[i + 1..]);
      FoldOne(x, s[i]);
      FoldIsRemainder(Step(x, s[i]), s, i + 1);
    }
  }

  /** What is accepted, spaces and case aside: two letters, two digits, and letters and digits up to a
      length from 15 to 34, whose remainder is 1 when the first four are read last. */
  lemma {:induction false} ValidMeans(value: string)
    ensures var iban := Upper(Despaced(value));
      IsValidIban(value)
      <==> && 15 <= |iban| <= 34
           && (forall i :: 0 <= i < 2 ==> 'A' <= iban[i] <= 'Z')
           && (forall i :: 2 <= i < 4 ==> '0' <= iban[i] <= '9')
           && (forall i :: 4 <= i < |iban| ==> 'A' <= iban[i] <= 'Z' || '0' <= iban[i] <= '9')
           && Remainder(iban[4..] + iban[..4], 0, 0) == 1
  {
    hide Upper, Despaced, Mod97, Fold, Remainder;
    var iban := Upper(Despaced(value));
    if |iban| >= 4 {
      Mod97IsFold(Rotated(iban));
      FoldIsRemainder(0, Rotated(iban), 0);
      assert Rotated(iban)[0..] == Rotated(iban);
      SlicesAre(iban);
    }
  }

  lemma {:induction false} SlicesAre(iban: string)
    requires |iban| >= 4
    ensures AllLetters(iban[..2]) <==> forall i :: 0 <= i < 2 ==> 'A' <= iban[i] <= 'Z'
    ensures AllDigits(iban[2..4]) <==> forall i :: 2 <= i < 4 ==> '0' <= iban[i] <= '9'
    ensures AllAlnum(iban[4..]) <==>
      |iban| > 4 && forall i :: 4 <= i < |iban| ==> 'A' <= iban[i] <= 'Z' || '0' <= iban[i] <= '9'
  {
    assert forall i :: 0 <= i < 2 ==> iban[..2][i] == iban[i];
    assert forall i :: 2 <= i < 4 ==> iban[2..4][i - 2] == iban[i];
    assert forall i :: 4 <= i < |iban| ==> iban[4..][i - 4] == iban[i];
  }

  lemma {:induction false} EndsIn(front: string, n: nat, x: nat)
    requires n < 100 && x == Fold(0, front)
    ensures Mod97(front + Digits(n, 2)) == (x * 100 + n) % 97
  {
    Mod97IsFold(front + Digits(n, 2));
    FoldAppend(0, front, Digits(n, 2));
    FoldDigits(x, n);
  }

  lemma {:induction false} Complement(h: nat)
    ensures (h * 100 + (98 - (h * 100 + 0) % 97)) % 97 == 1
  {
  }

  /** The test accepts every IBAN this builds, for an account number of any length. */
  lemma {:induction false} BuiltPasses(country: string, bban: string)
    requires |country| == 2
    ensures Mod97(Rotated(Build(country, bban))) == 1
  {
    var front := Upper(bban) + Upper(country);
    RotatedIs(Upper(country), "00", Upper(bban));
    RotatedIs(Upper(country), CheckDigits(country, bban), Upper(bban));
    DigitsComplete(front);
  }

  lemma {:induction false} RotatedIs(country: string, check: string, bban: string)
    requires |country| == 2 && |check| == 2
    ensures Rotated(country + check + bban) == bban + country + check
    ensures var iban := country + check + bban;
      iban[..2] == country && iban[2..4] == check && iban[4..] == bban
  {
    var iban := country + check + bban;
    assert iban[..4] == country + check && iban[4..] == bban;
    assert bban + (country + check) == bban + country + check;
  }

  predicate IsAscii(s: string) {
    AllAlnum(Upper(s))
  }

  /** And the whole check accepts it just when its length is one an IBAN may have. */
  lemma {:induction false} BuiltIsValid(country: string, bban: string)
    requires |country| == 2 && AllLetters(Upper(country)) && IsAscii(bban)
    ensures IsValidIban(Build(country, bban)) <==> 15 <= 4 + |bban| <= 34
  {
    var check := CheckDigits(country, bban);
    BuiltPasses(country, bban);
    CheckIsDigits(98 - Mod97(Rotated(Upper(country) + "00" + Upper(bban))));
    RotatedIs(Upper(country), check, Upper(bban));
    AllOf(Upper(country), check, Upper(bban));
    AsTyped(Build(country, bban));
  }

  lemma {:induction false} AllOf(country: string, check: string, bban: string)
    requires AllLetters(country) && AllDigits(check) && AllAlnum(bban)
    ensures var iban := country + check + bban;
      forall i :: 0 <= i < |iban| ==> IsLetter(iban[i]) || IsDigit(iban[i])
  {
  }

  lemma {:induction false} CheckIsDigits(d: nat)
    requires d < 100
    ensures AllDigits(Digits(d, 2))
  {
    assert Pow10(2) == 100;
    DigitsNumber(d, 2);
  }

  lemma {:induction false} AsTyped(s: string)
    requires forall i :: 0 <= i < |s| ==> IsLetter(s[i]) || IsDigit(s[i])
    ensures Upper(Despaced(s)) == s
  {
    forall c | c in s ensures c != ' ' {
      var i :| 0 <= i < |s| && s[i] == c;
    }
    FilterAll(s, (c: char) => c != ' ');
  }

  // ----- what is mistyped is refused -----

  predicate SameKind(c: char, d: char) {
    (IsLetter(c) && IsLetter(d)) || (IsDigit(c) && IsDigit(d))
  }

  /** One character taken for another of its kind always changes the remainder. */
  lemma {:induction false} ChangeTold(a: string, c: char, d: char, b: string)
    requires SameKind(c, d) && c != d
    ensures Mod97(a + [c] + b) != Mod97(a + [d] + b)
  {
    var h := Fold(0, a);
    MiddleFolds(a, [c], b, h);
    MiddleFolds(a, [d], b, h);
    FoldOne(h, c);
    FoldOne(h, d);
    OneTold(h, c, d);
    FoldTold(Step(h, c), Step(h, d), b);
  }

  lemma {:induction false} OneTold(h: nat, c: char, d: char)
    requires SameKind(c, d) && c != d
    ensures Step(h, c) != Step(h, d)
  {
    var x := if IsLetter(c) then h * 100 else h * 10;
    Told(x, ValueOfChar(c), ValueOfChar(d));
  }

  lemma {:induction false} Told(x: nat, v: nat, w: nat)
    requires v < 97 && w < 97 && v != w
    ensures (x + v) % 97 != (x + w) % 97
  {
  }

  /** An IBAN the test accepts, with any one digit - or letter - replaced by another. */
  lemma {:induction false} ChangeRefused(iban: string, i: nat, d: char)
    requires |iban| >= 4 && i < |iban| && SameKind(iban[i], d) && iban[i] != d
    requires Mod97(Rotated(iban)) == 1
    ensures Mod97(Rotated(iban[i := d])) != 1
  {
    var typed := iban[i := d];
    var r, s := Rotated(iban), Rotated(typed);
    var j := if i >= 4 then i - 4 else |iban| - 4 + i;
    assert r[j] == iban[i] && s == r[j := d];
    assert r == r[..j] + [r[j]] + r[j + 1..];
    assert s == r[..j] + [d] + r[j + 1..];
    ChangeTold(r[..j], r[j], d, r[j + 1..]);
  }

  /** A letter and a digit that read the same either way round: B1, M2 and X3 are 111, 222 and 333. */
  predicate Palindrome(p: char, q: char) {
    || (p == 'B' && q == '1') || (p == '1' && q == 'B')
    || (p == 'M' && q == '2') || (p == '2' && q == 'M')
    || (p == 'X' && q == '3') || (p == '3' && q == 'X')
  }

  function Width(c: char): nat {
    if IsLetter(c) then 100 else 10
  }

  lemma {:induction false} TwoSteps(h: nat, p: char, q: char)
    ensures Step(Step(h, p), q) == (h * Width(p) * Width(q) + ValueOfChar(p) * Width(q) + ValueOfChar(q)) % 97
  {
    StepRemainder(h * Width(p) + ValueOfChar(p), q);
  }

  lemma {:induction false} SwapTold(h: nat, p: char, q: char)
    requires (IsLetter(p) || IsDigit(p)) && (IsLetter(q) || IsDigit(q)) && p != q
    ensures Step(Step(h, p), q) == Step(Step(h, q), p) <==> Palindrome(p, q)
  {
    TwoSteps(h, p, q);
    TwoSteps(h, q, p);
    var x := h * Width(p) * Width(q);
    assert x == h * Width(q) * Width(p);
    SwapValues(p, q);
    RemaindersMeet(x, ValueOfChar(p) * Width(q) + ValueOfChar(q), ValueOfChar(q) * Width(p) + ValueOfChar(p));
  }

  lemma {:induction false} RemaindersMeet(x: nat, u: nat, v: nat)
    ensures (x + u) % 97 == (x + v) % 97 <==> u % 97 == v % 97
  {
  }

  lemma {:induction false} SwapValues(p: char, q: char)
    requires (IsLetter(p) || IsDigit(p)) && (IsLetter(q) || IsDigit(q)) && p != q
    ensures (ValueOfChar(p) * Width(q) + ValueOfChar(q)) % 97 == (ValueOfChar(q) * Width(p) + ValueOfChar(p)) % 97
       <==> Palindrome(p, q)
  {
    if IsLetter(p) && IsDigit(q) {
      LetterAndDigit(LetterValue(p), ValueOf(q));
    } else if IsDigit(p) && IsLetter(q) {
      LetterAndDigit(LetterValue(q), ValueOf(p));
    } else {
      TwoAlike(ValueOfChar(p), ValueOfChar(q));
    }
  }

  lemma {:induction false} TwoAlike(a: nat, b: nat)
    requires a <= 35 && b <= 35 && a != b
    ensures (a * 10 + b) % 97 != (b * 10 + a) % 97 && (a * 100 + b) % 97 != (b * 100 + a) % 97
  {
    if (a * 10 + b) % 97 == (b * 10 + a) % 97 {
      Quotients(a * 10 + b, b * 10 + a);
      Cancel(9, 54, 5, a - b, (a * 10 + b) / 97 - (b * 10 + a) / 97);
    }
    if (a * 100 + b) % 97 == (b * 100 + a) % 97 {
      Quotients(a * 100 + b, b * 100 + a);
      Cancel(99, 49, 50, a - b, (a * 100 + b) / 97 - (b * 100 + a) / 97);
    }
  }

  lemma {:induction false} LetterAndDigit(x: nat, d: nat)
    requires 10 <= x <= 35 && d <= 9
    ensures (x * 10 + d) % 97 == (d * 100 + x) % 97 <==> x == 11 * d
  {
    if (x * 10 + d) % 97 == (d * 100 + x) % 97 {
      Quotients(x * 10 + d, d * 100 + x);
      Cancel(9, 54, 5, x - 11 * d, (x * 10 + d) / 97 - (d * 100 + x) / 97);
    }
  }

  /** Two different neighbours of the account number swapped: refused, unless they are one of the
      three pairs that read the same either way - so always, when both are digits. */
  lemma {:induction false} SwapRefused(iban: string, i: nat)
    requires 4 <= i < |iban| - 1 && AllAlnum(iban[4..]) && iban[i] != iban[i + 1]
    requires Mod97(Rotated(iban)) == 1
    ensures var typed := iban[i := iban[i + 1]][i + 1 := iban[i]];
      Mod97(Rotated(typed)) == 1 <==> Palindrome(iban[i], iban[i + 1])
  {
    var p, q, j := iban[i], iban[i + 1], i - 4;
    var r := Rotated(iban);
    SwapRotated(iban, i);
    assert p == iban[4..][j] && q == iban[4..][j + 1];
    PairTold(r[..j], p, q, r[j + 2..]);
  }

  lemma {:induction false} SwapRotated(iban: string, i: nat)
    requires 4 <= i < |iban| - 1
    ensures var typed, r, j := iban[i := iban[i + 1]][i + 1 := iban[i]], Rotated(iban), i - 4;
      && r == r[..j] + [iban[i], iban[i + 1]] + r[j + 2..]
      && Rotated(typed) == r[..j] + [iban[i + 1], iban[i]] + r[j + 2..]
  {
    var typed, r, j := iban[i := iban[i + 1]][i + 1 := iban[i]], Rotated(iban), i - 4;
    assert r[j] == iban[i] && r[j + 1] == iban[i + 1];
    assert Rotated(typed) == r[j := iban[i + 1]][j + 1 := iban[i]];
  }

  lemma {:induction false} PairTold(a: string, p: char, q: char, b: string)
    requires (IsLetter(p) || IsDigit(p)) && (IsLetter(q) || IsDigit(q)) && p != q
    ensures Mod97(a + [p, q] + b) == Mod97(a + [q, p] + b) <==> Palindrome(p, q)
  {
    hide Step, Palindrome, Mod97;
    var h := Fold(0, a);
    MiddleFolds(a, [p, q], b, h);
    MiddleFolds(a, [q, p], b, h);
    FoldTwo(h, p, q);
    FoldTwo(h, q, p);
    SwapTold(h, p, q);
    FoldTold(Step(Step(h, p), q), Step(Step(h, q), p), b);
  }
}
