/** The words of `$filter` by what they do: each comparison, operator and function name, spelled in
    either case, selects the rows it should. */
module FilterWords {
  import opened Common
  import opened Text
  import opened FilterSyntax
  import opened FilterSql
  import opened SqlReading
  import opened FilterGrammar
  import opened FilterMeaning

  // ----- sentences -----

  /** The rows a filter selects: it is accepted, and its SQL with its values is worth this. */
  ghost predicate Selects(s: Service, ts: seq<Token>, sem: Sem, truth: Truth) {
    && ReadFilter(s, ts).Ok?
    && var f := Compiled(ReadFilter(s, ts).value);
       Marks(f.sql) == |f.params| && Selected(sem, Fill(f.sql, f.params)) == Some(truth)
  }

  lemma {:induction false} SentenceSelects(s: Service, ts: seq<Token>, e: Expr, sem: Sem)
    requires Sane(sem) && Disjunction(s, e, ts) && Cond(e)
    ensures Selects(s, ts, sem, TruthOf(sem, e))
  {
    hide Sane, Disjunction, Cond, TruthOf, Selected, Fill, Marks;
    SentenceMeans(s, ts, e, sem);
  }

  /** A condition on its own. */
  lemma {:induction false} AloneSentence(s: Service, e: Expr, ts: seq<Token>)
    requires Arithmetic(s, e, ts) && IsBool(e) && !StartsWithWord(ts, "not")
    ensures Disjunction(s, e, ts)
  {
    hide Arithmetic;
    SumIsOperand(s, e, ts);
    assert Comparison(s, e, ts);
    assert Negation(s, e, ts);
    assert Conjunction(s, e, ts);
  }

  /** A comparison of two operands. */
  lemma {:induction false} ComparedSentence(s: Service, cmp: Cmp, l: Expr, first: seq<Token>, w: string, r: Expr, more: seq<Token>)
    requires Arithmetic(s, l, first) && CmpNamed(w) == Some(cmp) && Arithmetic(s, r, more) && !StartsWithWord(first, "not")
    ensures Disjunction(s, Compare(cmp, l, r), first + [Word(w)] + more)
  {
    hide Arithmetic;
    SumStarts(s, l, first);
    ComparisonJoined(s, cmp, l, first, Word(w), r, more);
    var ts, e := first + [Word(w)] + more, Compare(cmp, l, r);
    assert ts[0] == first[0];
    assert Negation(s, e, ts);
    assert Conjunction(s, e, ts);
  }

  /** A property by its path, which no keyword may spell. */
  ghost predicate Property(s: Service, path: string, name: string, decimal: bool) {
    && Lower(path) !in {"null", "true", "false", "not"}
    && path in s.columns && s.columns[path] == Column(name, decimal)
  }

  lemma {:induction false} PropertySum(s: Service, path: string, name: string, decimal: bool)
    requires Property(s, path, name, decimal)
    ensures Arithmetic(s, Column(name, decimal), [Word(path)])
  {
  }

  function Given(v: Value): Token {
    Literal(Some(v), Either)
  }

  lemma {:induction false} GivenSum(s: Service, v: Value)
    ensures Arithmetic(s, Const(v), [Given(v)])
  {
  }

  /** What the row holds in a property. */
  ghost function HeldIn(sem: Sem, name: string, decimal: bool): Value {
    if decimal then sem.toReal(sem.column(name)) else sem.column(name)
  }

  // ----- comparisons -----

  /** Each word's relation between two numbers. */
  ghost predicate Relates(w: string, m: real, n: real) {
    || (Lower(w) == "eq" && m == n) || (Lower(w) == "ne" && m != n)
    || (Lower(w) == "gt" && m > n) || (Lower(w) == "ge" && m >= n)
    || (Lower(w) == "lt" && m < n) || (Lower(w) == "le" && m <= n)
  }

  lemma {:induction false} CompareNumbers(sem: Sem, w: string, m: real, n: real)
    requires Sane(sem) && Lower(w) in {"eq", "ne", "gt", "ge", "lt", "le"}
    ensures CmpNamed(w).Some? && Compare3(sem, CmpNamed(w).value, Number(m), Number(n)) == Bool(Relates(w, m, n))
  {
    hide Lower;
    assert sem.same(Number(m), Number(n)) == (m == n);
    assert sem.less(Number(m), Number(n)) == (m < n);
    assert sem.less(Number(n), Number(m)) == (n < m);
  }

  /** A property compared with a number selects the rows whose number stands in the word's relation. */
  lemma {:induction false} ComparisonWords(s: Service, sem: Sem, path: string, name: string, decimal: bool, w: string, m: real, n: real)
    requires Sane(sem) && Property(s, path, name, decimal) && HeldIn(sem, name, decimal) == Number(m)
    requires Lower(w) in {"eq", "ne", "gt", "ge", "lt", "le"}
    ensures Selects(s, [Word(path), Word(w), Given(Number(n))], sem, Bool(Relates(w, m, n)))
  {
    hide Sane, Disjunction, Arithmetic, Selects, Lower, CmpNamed, Relates, Compare3;
    var l, r := Column(name, decimal), Const(Number(n));
    CompareNumbers(sem, w, m, n);
    PropertySum(s, path, name, decimal);
    GivenSum(s, Number(n));
    ComparedSentence(s, CmpNamed(w).value, l, [Word(path)], w, r, [Given(Number(n))]);
    assert [Word(path)] + [Word(w)] + [Given(Number(n))] == [Word(path), Word(w), Given(Number(n))];
    ComparedTruth(sem, CmpNamed(w).value, l, r);
    SentenceSelects(s, [Word(path), Word(w), Given(Number(n))], Compare(CmpNamed(w).value, l, r), sem);
  }

  lemma {:induction false} ComparedTruth(sem: Sem, cmp: Cmp, l: Expr, r: Expr)
    requires Operand(l) && Operand(r) && !l.NullLit? && !r.NullLit?
    ensures Cond(Compare(cmp, l, r)) && TruthOf(sem, Compare(cmp, l, r)) == Compare3(sem, cmp, ValueOf(sem, l), ValueOf(sem, r))
  {
  }

  // ----- arithmetic -----

  /** What the database makes of each operator's word. */
  ghost function Computes(sem: Sem, w: string, m: real, n: real): Value {
    if Lower(w) == "add" then Number(m + n)
    else if Lower(w) == "sub" then Number(m - n)
    else if Lower(w) == "mul" then sem.math(Mul, Number(m), Number(n))
    else if Lower(w) == "div" then sem.math(Div, Number(m), Number(n))
    else sem.math(Mod, Number(m), Number(n))
  }

  lemma {:induction false} ComputeNumbers(sem: Sem, w: string, m: real, n: real)
    requires Sane(sem) && Lower(w) in {"add", "sub", "mul", "div", "mod"}
    ensures ArithNamed(w).Some? && Calc3(sem, ArithNamed(w).value, Number(m), Number(n)) == Computes(sem, w, m, n)
  {
    hide Lower;
    assert sem.math(Add, Number(m), Number(n)) == Number(m + n);
    assert sem.math(Sub, Number(m), Number(n)) == Number(m - n);
  }

  lemma {:induction false} CalcSentence(s: Service, l: Expr, first: seq<Token>, w: string, r: Expr, more: seq<Token>)
    requires Arithmetic(s, l, first) && ArithNamed(w).Some? && Primary(s, r, more)
    ensures Arithmetic(s, Calc(ArithNamed(w).value, l, r), first + [Word(w)] + more)
  {
    SumJoined(s, ArithNamed(w).value, l, first, Word(w), r, more);
  }

  /** A property and a number under an operator, compared with a third number: the rows where what the
      operator computes stands in the relation. */
  lemma {:induction false} ArithmeticWords(s: Service, sem: Sem, path: string, name: string, decimal: bool, w: string, m: real, n: real,
                                           k: real)
    requires Sane(sem) && Property(s, path, name, decimal) && HeldIn(sem, name, decimal) == Number(m)
    requires Lower(w) in {"add", "sub", "mul", "div", "mod"} && Computes(sem, w, m, n).Number?
    ensures Selects(s, [Word(path), Word(w), Given(Number(n)), Word("eq"), Given(Number(k))], sem,
                    Bool(Computes(sem, w, m, n).n == k))
  {
    hide Sane, Disjunction, Arithmetic, Primary, Selects, Lower, ArithNamed, Computes, Calc3;
    ComputeNumbers(sem, w, m, n);
    var l, r := Column(name, decimal), Const(Number(n));
    var left := Calc(ArithNamed(w).value, l, r);
    var ts := [Word(path), Word(w), Given(Number(n)), Word("eq"), Given(Number(k))];
    PropertySum(s, path, name, decimal);
    GivenPrimary(s, Number(n));
    GivenSum(s, Number(k));
    CalcSentence(s, l, [Word(path)], w, r, [Given(Number(n))]);
    EqIsEq();
    ComparedSentence(s, Eq, left, [Word(path)] + [Word(w)] + [Given(Number(n))], "eq", Const(Number(k)), [Given(Number(k))]);
    assert [Word(path)] + [Word(w)] + [Given(Number(n))] + [Word("eq")] + [Given(Number(k))] == ts;
    CalcTruth(sem, left, Computes(sem, w, m, n).n, k);
    SentenceSelects(s, ts, Compare(Eq, left, Const(Number(k))), sem);
  }

  lemma {:induction false} EqIsEq()
    ensures CmpNamed("eq") == Some(Eq)
  {
    assert Lower("eq") == "eq";
  }

  lemma {:induction false} GivenPrimary(s: Service, v: Value)
    ensures Primary(s, Const(v), [Given(v)])
  {
  }

  lemma {:induction false} CalcTruth(sem: Sem, l: Expr, v: real, k: real)
    requires Sane(sem) && Operand(l) && !l.NullLit? && ValueOf(sem, l) == Number(v)
    ensures Cond(Compare(Eq, l, Const(Number(k)))) && TruthOf(sem, Compare(Eq, l, Const(Number(k)))) == Bool(v == k)
  {
    hide Sane;
    NumberSame(sem, v, k);
  }

  // ----- functions -----

  /** How many arguments each function takes. */
  ghost predicate Takes(name: string, n: nat) {
    || (name in {"substringof", "contains", "startswith", "endswith", "indexof", "concat"} && n == 2)
    || (name == "substring" && (n == 2 || n == 3))
    || (name in {"tolower", "toupper", "trim", "length", "year", "month", "day", "hour", "minute", "second"} && n == 1)
  }

  lemma {:induction false} CallsAccepted(name: string, args: seq<Expr>)
    ensures CallOf(name, args).Ok? <==> Takes(name, |args|)
    ensures CallOf(name, args).Ok? ==> CallOf(name, args).value.Call? && CallOf(name, args).value.args == args
  {
  }

  /** A call, its name in either case, with the sentences of its arguments. */
  lemma {:induction false} CallSentence(s: Service, w: string, args: seq<Expr>, inside: seq<Token>)
    requires Takes(Lower(w), |args|) && Arguments(s, args, inside)
    ensures CallOf(Lower(w), args).Ok? && Primary(s, CallOf(Lower(w), args).value, CallTokensOf(w, inside))
    ensures !StartsWithWord(CallTokensOf(w, inside), "not")
  {
    hide Arguments, Lower;
    CallsAccepted(Lower(w), args);
    var ts := CallTokensOf(w, inside);
    assert ts[2..|ts| - 1] == inside;
    ArgumentsSomething(s, args, inside);
  }

  lemma {:induction false} ArgumentsSomething(s: Service, args: seq<Expr>, inside: seq<Token>)
    requires Arguments(s, args, inside)
    ensures inside != []
  {
    if |args| == 1 {
      SumStarts(s, args[0], inside);
    }
  }

  function CallTokensOf(w: string, inside: seq<Token>): seq<Token> {
    [Word(w), Open] + inside + [Close]
  }

  /** What each function that is a condition answers of two texts. */
  ghost predicate Holds(name: string, a: string, b: string) {
    || (name == "substringof" && exists x: string, y: string :: b == x + a + y)
    || (name == "contains" && exists x: string, y: string :: a == x + b + y)
    || (name == "startswith" && exists y: string :: a == b + y)
    || (name == "endswith" && (exists x: string :: a == x + b) && (b != "" || a == ""))
  }

  lemma {:induction false} PrefixMeans(a: string, b: string)
    ensures IsPrefix(b, a) <==> exists y: string :: a == b + y
  {
    if IsPrefix(b, a) {
      assert a == b + a[|b|..];
    }
  }

  lemma {:induction false} SuffixMeans(a: string, b: string)
    ensures LastOf(a, |b|) == b <==> (exists x: string :: a == x + b) && (b != "" || a == "")
  {
    if LastOf(a, |b|) == b {
      var x := a[..|a| - |b|];
      assert a == x + b;
    }
    if x: string :| a == x + b {
      assert a[|a| - |b|..] == b;
    }
  }

  lemma {:induction false} AnswersOfTexts(sem: Sem, name: string, a: string, b: string)
    requires Sane(sem) && name in {"substringof", "contains", "startswith", "endswith"}
    ensures FnNamed(name).Some? && IsBoolFn(FnNamed(name).value) && TakesArgs(FnNamed(name).value, 2)
    ensures FnTruth(sem, FnNamed(name).value, [Words(a), Words(b)]) == Bool(Holds(name, a, b))
  {
    hide Contains, LastOf;
    assert sem.text(Words(a)) == a && sem.text(Words(b)) == b;
    assert sem.same(Words(LastOf(a, |b|)), Words(b)) == (LastOf(a, |b|) == b);
    ContainsMeans(a, b);
    ContainsMeans(b, a);
    PrefixMeans(a, b);
    SuffixMeans(a, b);
  }

  /** A condition's name with two arguments that are texts: it selects where it holds of them. */
  lemma {:induction false} ConditionNames(s: Service, sem: Sem, w: string, args: seq<Expr>, inside: seq<Token>, a: string, b: string)
    requires Sane(sem) && Lower(w) in {"substringof", "contains", "startswith", "endswith"}
    requires |args| == 2 && Arguments(s, args, inside) && Operand(args[0]) && Operand(args[1])
    requires ValueOf(sem, args[0]) == Words(a) && ValueOf(sem, args[1]) == Words(b)
    ensures Selects(s, CallTokensOf(w, inside), sem, Bool(Holds(Lower(w), a, b)))
  {
    hide Sane, Arguments, Selects, Disjunction, Arithmetic, Holds, FnTruth, FnValue, FnNamed, Lower;
    AnswersOfTexts(sem, Lower(w), a, b);
    CallSentence(s, w, args, inside);
    var e := CallOf(Lower(w), args).value;
    PrimaryIsSum(s, e, CallTokensOf(w, inside));
    AloneSentence(s, e, CallTokensOf(w, inside));
    assert seq(|args|, i requires 0 <= i < |args| => ValueOf(sem, args[i])) == [Words(a), Words(b)];
    SentenceSelects(s, CallTokensOf(w, inside), e, sem);
  }

  /** A value under a call, compared with another for equality. */
  lemma {:induction false} CallCompared(s: Service, sem: Sem, w: string, args: seq<Expr>, inside: seq<Token>, vs: seq<Value>, other: Value)
    requires Sane(sem) && Takes(Lower(w), |args|) && Arguments(s, args, inside)
    requires FnNamed(Lower(w)).Some? && !IsBoolFn(FnNamed(Lower(w)).value)
    requires |vs| == |args| && forall i :: 0 <= i < |args| ==> Operand(args[i]) && ValueOf(sem, args[i]) == vs[i]
    ensures TakesArgs(FnNamed(Lower(w)).value, |vs|)
    ensures Selects(s, CallTokensOf(w, inside) + [Word("eq"), Given(other)], sem,
                    Compare3(sem, Eq, FnValue(sem, FnNamed(Lower(w)).value, vs), other))
  {
    hide Sane, Arguments, Selects, Disjunction, Arithmetic, FnValue, FnNamed, Lower, Compare3;
    CallSentence(s, w, args, inside);
    var e, ts := CallOf(Lower(w), args).value, CallTokensOf(w, inside);
    PrimaryIsSum(s, e, ts);
    GivenSum(s, other);
    EqIsEq();
    ComparedSentence(s, Eq, e, ts, "eq", Const(other), [Given(other)]);
    assert ts + [Word("eq")] + [Given(other)] == ts + [Word("eq"), Given(other)];
    assert seq(|args|, i requires 0 <= i < |args| => ValueOf(sem, args[i])) == vs;
    ComparedTruth(sem, Eq, e, Const(other));
    SentenceSelects(s, ts + [Word("eq"), Given(other)], Compare(Eq, e, Const(other)), sem);
  }

  /** What each other function makes of its arguments: from a text, its cases, its length, its parts; the
      parts of a date are the database's. */
  ghost function MadeOf(sem: Sem, name: string, vs: seq<Value>): Value {
    if name == "indexof" && |vs| == 2 then Number(FirstAt(sem.text(vs[0]), sem.text(vs[1])) as real)
    else if name == "length" && |vs| == 1 then Number(|sem.text(vs[0])| as real)
    else if name == "concat" && |vs| == 2 then Words(sem.text(vs[0]) + sem.text(vs[1]))
    else if name == "tolower" then sem.call("lower", vs)
    else if name == "toupper" then sem.call("upper", vs)
    else if name == "trim" then sem.call("trim", vs)
    else if name == "year" && |vs| == 1 then sem.toInteger(sem.call("strftime", [Words("%Y"), vs[0]]))
    else if name == "month" && |vs| == 1 then sem.toInteger(sem.call("strftime", [Words("%m"), vs[0]]))
    else if name == "day" && |vs| == 1 then sem.toInteger(sem.call("strftime", [Words("%d"), vs[0]]))
    else if name == "hour" && |vs| == 1 then sem.toInteger(sem.call("strftime", [Words("%H"), vs[0]]))
    else if name == "minute" && |vs| == 1 then sem.toInteger(sem.call("strftime", [Words("%M"), vs[0]]))
    else if name == "second" && |vs| == 1 then sem.toInteger(sem.call("strftime", [Words("%S"), vs[0]]))
    else if name == "substring" && |vs| == 2 && vs[1].Number? then Words(PartFrom(sem.text(vs[0]), vs[1].n.Floor))
    else if name == "substring" && |vs| == 3 then sem.call("substr", [vs[0], Calc3(sem, Add, vs[1], Number(1.0)), vs[2]])
    else Null
  }

  /** The text from place `n` on, counted from 0. */
  ghost function PartFrom(t: string, n: int): string {
    if 0 <= n <= |t| then t[n..] else if n > |t| then "" else Tail(t, n + 1)
  }

  ghost predicate IsValueName(name: string) {
    name in {"indexof", "length", "concat", "tolower", "toupper", "trim", "year", "month", "day", "hour", "minute", "second",
             "substring"}
  }

  lemma {:induction false} MadeOfValues(sem: Sem, name: string, vs: seq<Value>)
    requires Sane(sem) && IsValueName(name) && Takes(name, |vs|) && forall i :: 0 <= i < |vs| ==> !vs[i].Null?
    requires name == "substring" && |vs| == 2 ==> vs[1].Number?
    ensures FnNamed(name).Some? && !IsBoolFn(FnNamed(name).value) && TakesArgs(FnNamed(name).value, |vs|)
    ensures FnValue(sem, FnNamed(name).value, vs) == MadeOf(sem, name, vs)
  {
    hide FirstAt, Sane, Tail, PartFrom;
    if name == "substring" && |vs| == 2 {
      PartOfText(sem, vs);
    }
  }

  lemma {:induction false} PartOfText(sem: Sem, vs: seq<Value>)
    requires Sane(sem) && |vs| == 2 && !vs[0].Null? && vs[1].Number?
    ensures FnValue(sem, Substring, vs) == Words(PartFrom(sem.text(vs[0]), vs[1].n.Floor))
  {
    hide PartFrom, Tail;
    OneOn(sem, vs[1].n);
    TailIsPart(sem.text(vs[0]), vs[1].n.Floor);
  }

  lemma {:induction false} OneOn(sem: Sem, x: real)
    requires Sane(sem)
    ensures Calc3(sem, Add, Number(x), Number(1.0)) == Number(x + 1.0)
    ensures (x + 1.0).Floor == x.Floor + 1
  {
  }

  lemma {:induction false} TailIsPart(t: string, n: int)
    ensures Tail(t, n + 1) == PartFrom(t, n)
  {
  }

  /** A value's name with arguments that are not null, compared with another value: it selects where
      what the function makes of them is the same. */
  lemma {:induction false} ValueNames(s: Service, sem: Sem, w: string, args: seq<Expr>, inside: seq<Token>, vs: seq<Value>, other: Value)
    requires Sane(sem) && IsValueName(Lower(w)) && Takes(Lower(w), |args|) && Arguments(s, args, inside)
    requires |vs| == |args| && forall i :: 0 <= i < |args| ==> Operand(args[i]) && ValueOf(sem, args[i]) == vs[i] && !vs[i].Null?
    requires Lower(w) == "substring" && |vs| == 2 ==> vs[1].Number?
    ensures Selects(s, CallTokensOf(w, inside) + [Word("eq"), Given(other)], sem,
                    Compare3(sem, Eq, MadeOf(sem, Lower(w), vs), other))
  {
    hide Sane, Arguments, Selects, FnValue, FnNamed, Lower, Compare3, MadeOf, IsValueName, Takes;
    MadeOfValues(sem, Lower(w), vs);
    CallCompared(s, sem, w, args, inside, vs, other);
  }

  ghost predicate StandsAt(s: string, part: string, j: int) {
    0 <= j && j + |part| <= |s| && s[j..j + |part|] == part
  }

  /** `indexof` counts from 0 to where the part first stands, and is -1 where it nowhere does. */
  lemma {:induction false} FirstAtMeans(s: string, part: string)
    ensures var i := FirstAt(s, part);
      && -1 <= i && (i >= 0 ==> StandsAt(s, part, i))
      && (forall j :: StandsAt(s, part, j) ==> 0 <= i <= j)
    decreases |s|
  {
    hide StandsAt;
    var i := FirstAt(s, part);
    StandsFirst(s, part);
    if s != "" && !StandsAt(s, part, 0) {
      FirstAtMeans(s[1..], part);
      if i >= 0 {
        StandsNext(s, part, i);
      }
      forall j | StandsAt(s, part, j) ensures 0 <= i <= j {
        StandsNext(s, part, j);
      }
    }
  }

  lemma {:induction false} StandsFirst(s: string, part: string)
    ensures StandsAt(s, part, 0) <==> |part| <= |s| && s[..|part|] == part
    ensures forall j :: StandsAt(s, part, j) ==> 0 <= j <= |s|
  {
  }

  lemma {:induction false} StandsNext(s: string, part: string, j: int)
    requires s != ""
    ensures j > 0 ==> (StandsAt(s, part, j) <==> StandsAt(s[1..], part, j - 1))
  {
    if 0 < j && j + |part| <= |s| {
      assert s[j..j + |part|] == s[1..][j - 1..j - 1 + |part|];
    }
  }

  // ----- literals -----

  /** A literal is taken by a service of its version only, and one that is no date by none. */
  lemma {:induction false} LiteralsTaken(s: Service, value: Option<Value>, dialect: Dialect)
    ensures ReadPrimary(s, [Literal(value, dialect)]).Ok?
       <==> value.Some? && (dialect == OnlyV2 ==> s.version < 4) && (dialect == OnlyV4 ==> s.version >= 4)
  {
  }

  // ----- null, and the words between comparisons -----

  /** A property compared with `null` selects the rows that hold nothing, or for any word but `eq` those
      that hold something. */
  lemma {:induction false} NullWords(s: Service, sem: Sem, path: string, name: string, decimal: bool, w: string, nothing: string)
    requires Sane(sem) && Property(s, path, name, decimal)
    requires Lower(w) in {"eq", "ne", "gt", "ge", "lt", "le"} && Lower(nothing) == "null"
    ensures Selects(s, [Word(path), Word(w), Word(nothing)], sem, Bool(HeldIn(sem, name, decimal).Null? == (Lower(w) == "eq")))
  {
    hide Sane, Disjunction, Arithmetic, Selects, Lower, Property;
    var l, ts := Column(name, decimal), [Word(path), Word(w), Word(nothing)];
    PropertySum(s, path, name, decimal);
    NoNot(s, path, name, decimal, []);
    NullSum(s, nothing);
    ComparedSentence(s, CmpNamed(w).value, l, [Word(path)], w, NullLit, [Word(nothing)]);
    assert [Word(path)] + [Word(w)] + [Word(nothing)] == ts;
    SentenceSelects(s, ts, Compare(CmpNamed(w).value, l, NullLit), sem);
  }

  lemma {:induction false} NullSum(s: Service, nothing: string)
    requires Lower(nothing) == "null"
    ensures Arithmetic(s, NullLit, [Word(nothing)])
  {
  }

  lemma {:induction false} NoNot(s: Service, path: string, name: string, decimal: bool, more: seq<Token>)
    requires Property(s, path, name, decimal)
    ensures !StartsWithWord([Word(path)] + more, "not")
  {
  }

  /** One comparison of a property with a number. */
  datatype Test = Test(path: string, name: string, decimal: bool, w: string, n: real)

  ghost predicate Testable(s: Service, sem: Sem, t: Test) {
    && Property(s, t.path, t.name, t.decimal) && Lower(t.w) in {"eq", "ne", "gt", "ge", "lt", "le"}
    && (HeldIn(sem, t.name, t.decimal).Number? || HeldIn(sem, t.name, t.decimal).Null?)
  }

  function Written(t: Test): seq<Token> {
    [Word(t.path), Word(t.w), Given(Number(t.n))]
  }

  /** Of a row that holds nothing it is not known. */
  ghost function Outcome(sem: Sem, t: Test): Truth {
    match HeldIn(sem, t.name, t.decimal) case Number(m) => Bool(Relates(t.w, m, t.n)) case _ => Unknown
  }

  lemma {:induction false} TestReads(s: Service, sem: Sem, t: Test) returns (e: Expr)
    requires Sane(sem) && Testable(s, sem, t)
    ensures e.Compare? && Negation(s, e, Written(t)) && Cond(e) && TruthOf(sem, e) == Outcome(sem, t)
  {
    hide Sane, Arithmetic, Lower, CmpNamed, Relates, Compare3, Property;
    var l, r := Column(t.name, t.decimal), Const(Number(t.n));
    CompareNumbers(sem, t.w, 0.0, 0.0);
    e := Compare(CmpNamed(t.w).value, l, r);
    PropertySum(s, t.path, t.name, t.decimal);
    GivenSum(s, Number(t.n));
    ComparisonJoined(s, e.cmp, l, [Word(t.path)], Word(t.w), r, [Given(Number(t.n))]);
    assert [Word(t.path)] + [Word(t.w)] + [Given(Number(t.n))] == Written(t);
    NoNot(s, t.path, t.name, t.decimal, [Word(t.w), Given(Number(t.n))]);
    assert [Word(t.path)] + [Word(t.w), Given(Number(t.n))] == Written(t);
    ComparedTruth(sem, e.cmp, l, r);
    if HeldIn(sem, t.name, t.decimal).Number? {
      CompareNumbers(sem, t.w, HeldIn(sem, t.name, t.decimal).n, t.n);
    } else {
      NullCompared(sem, e.cmp, Number(t.n));
    }
  }

  lemma {:induction false} NullCompared(sem: Sem, cmp: Cmp, v: Value)
    ensures Compare3(sem, cmp, Null, v) == Unknown
  {
  }

  lemma {:induction false} AndJoined(s: Service, l: Expr, first: seq<Token>, w: string, r: Expr, more: seq<Token>)
    requires Conjunction(s, l, first) && Lower(w) == "and" && Negation(s, r, more)
    ensures Conjunction(s, And(l, r), first + [Word(w)] + more)
  {
    hide Negation, Lower;
    var ts := first + [Word(w)] + more;
    assert ts[..|first|] == first && ts[|first| + 1..] == more && IsWord(ts[|first|], "and");
  }

  lemma {:induction false} OrJoined(s: Service, l: Expr, first: seq<Token>, w: string, r: Expr, more: seq<Token>)
    requires Disjunction(s, l, first) && Lower(w) == "or" && Conjunction(s, r, more)
    ensures Disjunction(s, Or(l, r), first + [Word(w)] + more)
  {
    hide Conjunction, Lower;
    var ts := first + [Word(w)] + more;
    assert ts[..|first|] == first && ts[|first| + 1..] == more && IsWord(ts[|first|], "or");
  }

  lemma {:induction false} NotJoined(s: Service, w: string, e: Expr, ts: seq<Token>)
    requires Lower(w) == "not" && Negation(s, e, ts)
    ensures Negation(s, Not(e), [Word(w)] + ts)
  {
    hide Lower, Comparison;
    assert ([Word(w)] + ts)[1..] == ts;
  }

  /** `or` binds least, then `and`, then `not`: of three comparisons so joined the rows are selected where
      the first holds, or the second does not and the third does; and left out where the first fails
      and so does one of the others. */
  lemma {:induction false} JoiningWords(s: Service, sem: Sem, a: Test, or: string, no: string, b: Test, et: string, c: Test)
    returns (truth: Truth)
    requires Sane(sem) && Testable(s, sem, a) && Testable(s, sem, b) && Testable(s, sem, c)
    requires Lower(or) == "or" && Lower(no) == "not" && Lower(et) == "and"
    ensures Selects(s, Written(a) + [Word(or)] + ([Word(no)] + Written(b) + [Word(et)] + Written(c)), sem, truth)
    ensures var p, q, r := Outcome(sem, a), Outcome(sem, b), Outcome(sem, c);
      && (truth == Yes <==> p == Yes || (q == No && r == Yes))
      && (truth == No <==> p == No && (q == Yes || r == No))
  {
    hide Sane, Testable, Lower, Negation, Conjunction, Disjunction, Outcome, Selects, Written, TruthOf, Cond;
    var e := TestReads(s, sem, a);
    var f := TestReads(s, sem, b);
    var g := TestReads(s, sem, c);
    NotJoined(s, no, f, Written(b));
    NegationIsConjunction(s, Not(f), [Word(no)] + Written(b));
    AndJoined(s, Not(f), [Word(no)] + Written(b), et, g, Written(c));
    NegationIsConjunction(s, e, Written(a));
    ConjunctionIsDisjunction(s, e, Written(a));
    var rest := [Word(no)] + Written(b) + [Word(et)] + Written(c);
    OrJoined(s, e, Written(a), or, And(Not(f), g), rest);
    truth := TruthOfJoined(sem, e, f, g);
    SentenceSelects(s, Written(a) + [Word(or)] + rest, Or(e, And(Not(f), g)), sem);
  }

  lemma {:induction false} TruthOfJoined(sem: Sem, e: Expr, f: Expr, g: Expr) returns (truth: Truth)
    requires Cond(e) && Cond(f) && Cond(g)
    ensures Cond(Or(e, And(Not(f), g))) && truth == TruthOf(sem, Or(e, And(Not(f), g)))
    ensures var p, q, r := TruthOf(sem, e), TruthOf(sem, f), TruthOf(sem, g);
      && (truth == Yes <==> p == Yes || (q == No && r == Yes))
      && (truth == No <==> p == No && (q == Yes || r == No))
  {
    truth := TruthOf(sem, Or(e, And(Not(f), g)));
    assert TruthOf(sem, And(Not(f), g)) == And3(Not3(TruthOf(sem, f)), TruthOf(sem, g));
  }

  /** Parentheses first: where one of the first two comparisons holds, and the third does. */
  lemma {:induction false} GroupedWords(s: Service, sem: Sem, a: Test, or: string, b: Test, et: string, c: Test) returns (truth: Truth)
    requires Sane(sem) && Testable(s, sem, a) && Testable(s, sem, b) && Testable(s, sem, c)
    requires Lower(or) == "or" && Lower(et) == "and"
    ensures Selects(s, [Open] + (Written(a) + [Word(or)] + Written(b)) + [Close] + [Word(et)] + Written(c), sem, truth)
    ensures var p, q, r := Outcome(sem, a), Outcome(sem, b), Outcome(sem, c);
      && (truth == Yes <==> (p == Yes || q == Yes) && r == Yes)
      && (truth == No <==> (p == No && q == No) || r == No)
  {
    hide Sane, Testable, Lower, Negation, Conjunction, Disjunction, Outcome, Selects, Written, TruthOf, Cond;
    var e := TestReads(s, sem, a);
    var f := TestReads(s, sem, b);
    var g := TestReads(s, sem, c);
    NegationIsConjunction(s, f, Written(b));
    NegationIsConjunction(s, e, Written(a));
    ConjunctionIsDisjunction(s, e, Written(a));
    OrJoined(s, e, Written(a), or, f, Written(b));
    var inside := Written(a) + [Word(or)] + Written(b);
    InParentheses(s, Or(e, f), inside);
    NegationIsConjunction(s, Paren(Or(e, f)), [Open] + inside + [Close]);
    AndJoined(s, Paren(Or(e, f)), [Open] + inside + [Close], et, g, Written(c));
    var ts := [Open] + inside + [Close] + [Word(et)] + Written(c);
    ConjunctionIsDisjunction(s, And(Paren(Or(e, f)), g), ts);
    truth := TruthOfGrouped(sem, e, f, g);
    SentenceSelects(s, ts, And(Paren(Or(e, f)), g), sem);
  }

  lemma {:induction false} InParentheses(s: Service, e: Expr, inside: seq<Token>)
    requires Disjunction(s, e, inside)
    ensures Negation(s, Paren(e), [Open] + inside + [Close])
  {
    hide Disjunction;
    var ts := [Open] + inside + [Close];
    assert ts[1..|ts| - 1] == inside;
    assert Primary(s, Paren(e), ts);
    assert Arithmetic(s, Paren(e), ts);
    assert Comparison(s, Paren(e), ts);
  }

  lemma {:induction false} TruthOfGrouped(sem: Sem, e: Expr, f: Expr, g: Expr) returns (truth: Truth)
    requires Cond(e) && Cond(f) && Cond(g)
    ensures Cond(And(Paren(Or(e, f)), g)) && truth == TruthOf(sem, And(Paren(Or(e, f)), g))
    ensures var p, q, r := TruthOf(sem, e), TruthOf(sem, f), TruthOf(sem, g);
      && (truth == Yes <==> (p == Yes || q == Yes) && r == Yes)
      && (truth == No <==> (p == No && q == No) || r == No)
  {
    truth := TruthOf(sem, And(Paren(Or(e, f)), g));
    assert TruthOf(sem, Paren(Or(e, f))) == Or3(TruthOf(sem, e), TruthOf(sem, f));
  }
}
