/** What a filter means for a row, in the logic of three values, and that the SQL it becomes is
    worth the same. */
module FilterMeaning {
  import opened Common
  import opened Text
  import opened FilterSyntax
  import opened FilterSql
  import opened SqlReading
  import opened FilterGrammar

  datatype Truth = Yes | No | Unknown

  function Not3(a: Truth): Truth {
    match a case Yes => No case No => Yes case Unknown => Unknown
  }

  function And3(a: Truth, b: Truth): Truth {
    if a == No || b == No then No else if a == Unknown || b == Unknown then Unknown else Yes
  }

  function Or3(a: Truth, b: Truth): Truth {
    if a == Yes || b == Yes then Yes else if a == Unknown || b == Unknown then Unknown else No
  }

  function Bool(b: bool): Truth { if b then Yes else No }

  /** A truth as a value: 1, 0 or null. */
  function AsValue(a: Truth): Value {
    match a case Yes => Number(1.0) case No => Number(0.0) case Unknown => Null
  }

  /** A row, and the operations of the database on values that are not null. */
  datatype Sem = Sem(column: string -> Value, math: (Arith, Value, Value) -> Value, same: (Value, Value) -> bool,
                     less: (Value, Value) -> bool, text: Value -> string, call: (string, seq<Value>) -> Value,
                     toReal: Value -> Value, toInteger: Value -> Value)

  /** Numbers are compared, added and subtracted as numbers, texts as texts, and no text is a number. */
  ghost predicate Sane(sem: Sem) {
    && (forall m, n :: sem.same(Number(m), Number(n)) == (m == n))
    && (forall s, t :: sem.same(Words(s), Words(t)) == (s == t))
    && (forall s, n :: !sem.same(Words(s), Number(n)))
    && (forall m, n :: sem.less(Number(m), Number(n)) == (m < n))
    && (forall m, n :: sem.math(Add, Number(m), Number(n)) == Number(m + n))
    && (forall m, n :: sem.math(Sub, Number(m), Number(n)) == Number(m - n))
    && (forall s :: sem.text(Words(s)) == s)
  }

  function Calc3(sem: Sem, op: Arith, a: Value, b: Value): Value {
    if a.Null? || b.Null? then Null else sem.math(op, a, b)
  }

  function Compare3(sem: Sem, cmp: Cmp, a: Value, b: Value): Truth {
    if a.Null? || b.Null? then Unknown
    else
      match cmp
      case Eq => Bool(sem.same(a, b))
      case Ne => Bool(!sem.same(a, b))
      case Lt => Bool(sem.less(a, b))
      case Gt => Bool(sem.less(b, a))
      case Le => Bool(!sem.less(b, a))
      case Ge => Bool(!sem.less(a, b))
  }

  // ----- texts -----

  /** Where `part` first stands in `s`, -1 if nowhere. */
  function FirstAt(s: string, part: string): int
    decreases |s|
  {
    if |part| <= |s| && s[..|part|] == part then 0
    else if s == "" then -1
    else
      var n := FirstAt(s[1..], part);
      if n < 0 then -1 else n + 1
  }

  /** From the nth character on, counted from 1; from the end if n is negative; all of it for 0. */
  function Tail(s: string, n: int): string {
    if n > 0 then (if n - 1 <= |s| then s[n - 1..] else "")
    else if n < 0 && -n < |s| then s[|s| + n..]
    else s
  }

  // ----- what the SQL is worth -----

  function Position(sem: Sem, a: Value, b: Value): Value {
    if a.Null? || b.Null? then Null else Number((FirstAt(sem.text(a), sem.text(b)) + 1) as real)
  }

  function LengthOf(sem: Sem, a: Value): Value {
    if a.Null? then Null else Number(|sem.text(a)| as real)
  }

  function TailOf(sem: Sem, a: Value, start: Value): Value {
    if a.Null? || start.Null? then Null
    else if start.Number? then Words(Tail(sem.text(a), start.n.Floor))
    else sem.call("substr", [a, start])
  }

  function CallValue(sem: Sem, name: string, args: seq<Value>): Value {
    if name == "instr" && |args| == 2 then Position(sem, args[0], args[1])
    else if name == "length" && |args| == 1 then LengthOf(sem, args[0])
    else if name == "substr" && |args| == 2 then TailOf(sem, args[0], args[1])
    else sem.call(name, args)
  }

  function Joined(sem: Sem, a: Value, b: Value): Value {
    if a.Null? || b.Null? then Null else Words(sem.text(a) + sem.text(b))
  }

  function Negated(a: Value): Value {
    match a case Number(n) => Number(0.0 - n) case Null => Null case Words(_) => Number(0.0)
  }

  /** A value where a condition is wanted: null is unknown, zero is false. */
  function TruthOfValue(a: Value): Truth {
    match a case Null => Unknown case Number(n) => Bool(n != 0.0) case Words(_) => No
  }

  function BinValue(sem: Sem, op: Sql, a: Value, b: Value): Value {
    match op
    case Kw(KAnd) => AsValue(And3(TruthOfValue(a), TruthOfValue(b)))
    case Kw(KOr) => AsValue(Or3(TruthOfValue(a), TruthOfValue(b)))
    case Op(Equal) => AsValue(Compare3(sem, Eq, a, b))
    case Op(Unequal) => AsValue(Compare3(sem, Ne, a, b))
    case Op(Greater) => AsValue(Compare3(sem, Gt, a, b))
    case Op(AtLeast) => AsValue(Compare3(sem, Ge, a, b))
    case Op(Below) => AsValue(Compare3(sem, Lt, a, b))
    case Op(AtMost) => AsValue(Compare3(sem, Le, a, b))
    case Op(Plus) => Calc3(sem, Add, a, b)
    case Op(Minus) => Calc3(sem, Sub, a, b)
    case Op(Times) => Calc3(sem, Mul, a, b)
    case Op(Over) => Calc3(sem, Div, a, b)
    case Op(Remainder) => Calc3(sem, Mod, a, b)
    case Op(Join) => Joined(sem, a, b)
    case _ => Null
  }

  function Eval(sem: Sem, t: Tree): Value {
    match t
    case TLit(v) => v
    case TNull => Null
    case TCol(name) => sem.column(name)
    case TBin(op, l, r) => BinValue(sem, op, Eval(sem, l), Eval(sem, r))
    case TNot(x) => AsValue(Not3(TruthOfValue(Eval(sem, x))))
    case TNeg(x) => Negated(Eval(sem, x))
    case TIsNull(x, negated) => AsValue(Bool(Eval(sem, x).Null? != negated))
    case TCall(name, args) => CallValue(sem, name, seq(|args|, i requires 0 <= i < |args| => Eval(sem, args[i])))
    case TCast(x, kind) => if kind == KReal then sem.toReal(Eval(sem, x)) else sem.toInteger(Eval(sem, x))
  }

  // ----- what the filter means -----

  /** A test of one text against another; unknown if either is null. */
  function Tested(a: Value, b: Value, holds: bool): Truth {
    if a.Null? || b.Null? then Unknown else Bool(holds)
  }

  predicate IsPrefix(part: string, s: string) {
    |part| <= |s| && s[..|part|] == part
  }

  /** The last `n` characters of `s` - all of them if there are fewer, and all of them for none. */
  function LastOf(s: string, n: nat): string {
    if 0 < n < |s| then s[|s| - n..] else s
  }

  function ValueOf(sem: Sem, e: Expr): Value
    requires Operand(e)
    decreases e, 0
  {
    match e
    case Const(v) => v
    case NullLit => Null
    case Column(name, decimal) => if decimal then sem.toReal(sem.column(name)) else sem.column(name)
    case Paren(c) => AsValue(TruthOf(sem, c))
    case Calc(op, l, r) => Calc3(sem, op, ValueOf(sem, l), ValueOf(sem, r))
    case Call(fn, args) => FnValue(sem, fn, seq(|args|, i requires 0 <= i < |args| => ValueOf(sem, args[i])))
    case _ => Null
  }

  function FnValue(sem: Sem, fn: Fn, vs: seq<Value>): Value
    requires TakesArgs(fn, |vs|)
  {
    match fn
    case IndexOf =>
      if vs[0].Null? || vs[1].Null? then Null else Number(FirstAt(sem.text(vs[0]), sem.text(vs[1])) as real)
    case ToLower => sem.call("lower", vs)
    case ToUpper => sem.call("upper", vs)
    case Trim => sem.call("trim", vs)
    case Length => LengthOf(sem, vs[0])
    case Concat => Joined(sem, vs[0], vs[1])
    case Substring =>
      if |vs| == 2 then TailOf(sem, vs[0], Calc3(sem, Add, vs[1], Number(1.0)))
      else sem.call("substr", [vs[0], Calc3(sem, Add, vs[1], Number(1.0)), vs[2]])
    case DatePart(format) => sem.toInteger(sem.call("strftime", [Words(format), vs[0]]))
    case _ => Null
  }

  /** `or` below `and` below `not` below comparison, in three values; a comparison with a bare null
      asks whether the other side is null. */
  function TruthOf(sem: Sem, e: Expr): Truth
    requires Cond(e)
    decreases e, 0
  {
    match e
    case Paren(c) => TruthOf(sem, c)
    case Compare(cmp, l, r) =>
      if r.NullLit? then Bool(ValueOf(sem, l).Null? == (cmp == Eq))
      else if l.NullLit? then Bool(ValueOf(sem, r).Null? == (cmp == Eq))
      else Compare3(sem, cmp, ValueOf(sem, l), ValueOf(sem, r))
    case NonZero(x) => Compare3(sem, Ne, ValueOf(sem, x), Number(0.0))
    case Not(c) => Not3(TruthOf(sem, c))
    case And(l, r) => And3(TruthOf(sem, l), TruthOf(sem, r))
    case Or(l, r) => Or3(TruthOf(sem, l), TruthOf(sem, r))
    case Call(fn, args) => FnTruth(sem, fn, seq(|args|, i requires 0 <= i < |args| => ValueOf(sem, args[i])))
    case _ => Unknown
  }

  function FnTruth(sem: Sem, fn: Fn, vs: seq<Value>): Truth
    requires TakesArgs(fn, |vs|)
  {
    match fn
    case SubstringOf => Tested(vs[0], vs[1], Contains(sem.text(vs[1]), sem.text(vs[0])))
    case Containing => Tested(vs[0], vs[1], Contains(sem.text(vs[0]), sem.text(vs[1])))
    case StartsWith => Tested(vs[0], vs[1], IsPrefix(sem.text(vs[1]), sem.text(vs[0])))
    case EndsWith =>
      if vs[0].Null? || vs[1].Null? then Unknown
      else Bool(sem.same(Words(LastOf(sem.text(vs[0]), |sem.text(vs[1])|)), vs[1]))
    case _ => Unknown
  }

  // ----- the same -----

  lemma {:induction false} FirstAtIs(s: string, part: string)
    ensures FirstAt(s, part) >= -1
    ensures FirstAt(s, part) >= 0 <==> Contains(s, part)
    ensures FirstAt(s, part) == 0 <==> IsPrefix(part, s)
    decreases |s|
  {
    if !IsPrefix(part, s) && s != "" {
      FirstAtIs(s[1..], part);
    }
  }

  lemma {:induction false} NumberAbove(sem: Sem, x: real)
    requires Sane(sem)
    ensures Compare3(sem, Gt, Number(x), Number(0.0)) == Bool(x > 0.0)
  {
    assert sem.less(Number(0.0), Number(x)) == (0.0 < x);
  }

  lemma {:induction false} NumberSame(sem: Sem, x: real, y: real)
    requires Sane(sem)
    ensures Compare3(sem, Eq, Number(x), Number(y)) == Bool(x == y)
  {
    assert sem.same(Number(x), Number(y)) == (x == y);
  }

  lemma {:induction false} NumberDiffers(sem: Sem, x: real, y: real)
    requires Sane(sem)
    ensures Compare3(sem, Ne, Number(x), Number(y)) == Bool(x != y)
  {
    assert sem.same(Number(x), Number(y)) == (x == y);
  }

  lemma {:induction false} NumberLess(sem: Sem, x: real, y: real)
    requires Sane(sem)
    ensures Calc3(sem, Sub, Number(x), Number(y)) == Number(x - y)
  {
    assert sem.math(Sub, Number(x), Number(y)) == Number(x - y);
  }

  lemma {:induction false} PositionContains(sem: Sem, a: Value, b: Value)
    requires Sane(sem)
    ensures Compare3(sem, Gt, Position(sem, a, b), Number(0.0)) == Tested(a, b, Contains(sem.text(a), sem.text(b)))
  {
    if !a.Null? && !b.Null? {
      FirstAtIs(sem.text(a), sem.text(b));
      NumberAbove(sem, (FirstAt(sem.text(a), sem.text(b)) + 1) as real);
    }
  }

  lemma {:induction false} PositionStarts(sem: Sem, a: Value, b: Value)
    requires Sane(sem)
    ensures Compare3(sem, Eq, Position(sem, a, b), Number(1.0)) == Tested(a, b, IsPrefix(sem.text(b), sem.text(a)))
  {
    if !a.Null? && !b.Null? {
      FirstAtIs(sem.text(a), sem.text(b));
      NumberSame(sem, (FirstAt(sem.text(a), sem.text(b)) + 1) as real, 1.0);
    }
  }

  lemma {:induction false} PositionIndex(sem: Sem, a: Value, b: Value)
    requires Sane(sem)
    ensures Calc3(sem, Sub, Position(sem, a, b), Number(1.0))
         == if a.Null? || b.Null? then Null else Number(FirstAt(sem.text(a), sem.text(b)) as real)
  {
    if !a.Null? && !b.Null? {
      NumberLess(sem, (FirstAt(sem.text(a), sem.text(b)) + 1) as real, 1.0);
    }
  }

  lemma {:induction false} TailFromEnd(s: string, n: int)
    requires n >= 0
    ensures Tail(s, -n) == LastOf(s, n)
  {
  }

  lemma {:induction false} EndTests(sem: Sem, a: Value, b: Value)
    requires Sane(sem)
    ensures Compare3(sem, Eq, TailOf(sem, a, Negated(LengthOf(sem, b))), b)
         == if a.Null? || b.Null? then Unknown else Bool(sem.same(Words(LastOf(sem.text(a), |sem.text(b)|)), b))
  {
    hide Sane;
    if !a.Null? && !b.Null? {
      var n := |sem.text(b)|;
      assert (0.0 - n as real).Floor == -n;
      TailFromEnd(sem.text(a), n);
    }
  }

  function Values(sem: Sem, ts: seq<Tree>): (r: seq<Value>)
    ensures |r| == |ts|
  {
    seq(|ts|, i requires 0 <= i < |ts| => Eval(sem, ts[i]))
  }

  lemma {:induction false} CallIs(sem: Sem, name: string, ts: seq<Tree>, vs: seq<Value>)
    requires |vs| == |ts| && forall i :: 0 <= i < |ts| ==> Eval(sem, ts[i]) == vs[i]
    ensures Eval(sem, TCall(name, ts)) == CallValue(sem, name, vs)
  {
    assert Values(sem, ts) == vs;
  }

  lemma {:induction false} PlusOneIs(sem: Sem, t: Tree)
    ensures Eval(sem, TBin(Op(Plus), t, TOne())) == Calc3(sem, Add, Eval(sem, t), Number(1.0))
  {
  }

  lemma {:induction false} TwoArgs(sem: Sem, name: string, t: Tree, u: Tree, v: Value, w: Value)
    requires Eval(sem, t) == v && Eval(sem, u) == w
    ensures Eval(sem, TCall(name, [t, u])) == CallValue(sem, name, [v, w])
  {
    CallIs(sem, name, [t, u], [v, w]);
  }

  lemma {:induction false} SubstringIs(sem: Sem, ts: seq<Tree>, vs: seq<Value>)
    requires |ts| == 2 && vs == Values(sem, ts)
    ensures Eval(sem, CallTree(Substring, ts)) == FnValue(sem, Substring, vs)
  {
    PlusOneIs(sem, ts[1]);
    TwoArgs(sem, "substr", ts[0], TBin(Op(Plus), ts[1], TOne()), vs[0], Calc3(sem, Add, vs[1], Number(1.0)));
  }

  lemma {:induction false} SubstringOfLengthIs(sem: Sem, ts: seq<Tree>, vs: seq<Value>)
    requires |ts| == 3 && vs == Values(sem, ts)
    ensures Eval(sem, CallTree(Substring, ts)) == FnValue(sem, Substring, vs)
  {
    PlusOneIs(sem, ts[1]);
    CallIs(sem, "substr", [ts[0], TBin(Op(Plus), ts[1], TOne()), ts[2]], [vs[0], Calc3(sem, Add, vs[1], Number(1.0)), vs[2]]);
  }

  lemma {:induction false} OneArg(sem: Sem, name: string, ts: seq<Tree>, vs: seq<Value>)
    requires |ts| == 1 && vs == Values(sem, ts)
    ensures Eval(sem, TCall(name, [ts[0]])) == CallValue(sem, name, vs)
  {
    assert vs == [vs[0]];
    CallIs(sem, name, [ts[0]], vs);
  }

  lemma {:induction false} LessIs(sem: Sem, t: Tree, u: Tree, v: Value, w: Value)
    requires Eval(sem, t) == v && Eval(sem, u) == w
    ensures Eval(sem, TBin(Op(Minus), t, u)) == Calc3(sem, Sub, v, w)
  {
  }

  lemma {:induction false} IndexOfIs(sem: Sem, ts: seq<Tree>, vs: seq<Value>)
    requires Sane(sem) && |ts| == 2 && vs == Values(sem, ts)
    ensures Eval(sem, CallTree(IndexOf, ts)) == FnValue(sem, IndexOf, vs)
  {
    InstrTested(sem, ts, vs, 0, 1);
    LessIs(sem, TCall("instr", [ts[0], ts[1]]), TOne(), Position(sem, vs[0], vs[1]), Number(1.0));
    PositionIndex(sem, vs[0], vs[1]);
  }

  lemma {:induction false} DatePartIs(sem: Sem, format: string, ts: seq<Tree>, vs: seq<Value>)
    requires |ts| == 1 && vs == Values(sem, ts)
    ensures Eval(sem, CallTree(DatePart(format), ts)) == FnValue(sem, DatePart(format), vs)
  {
    TwoArgs(sem, "strftime", TLit(Words(format)), ts[0], Words(format), vs[0]);
  }

  lemma {:induction false} FnValueIs(sem: Sem, fn: Fn, ts: seq<Tree>, vs: seq<Value>)
    requires Sane(sem) && vs == Values(sem, ts) && TakesArgs(fn, |ts|) && !IsBoolFn(fn)
    ensures Eval(sem, CallTree(fn, ts)) == FnValue(sem, fn, vs)
  {
    hide Sane;
    match fn {
      case IndexOf => IndexOfIs(sem, ts, vs);
      case ToLower => OneArg(sem, "lower", ts, vs);
      case ToUpper => OneArg(sem, "upper", ts, vs);
      case Trim => OneArg(sem, "trim", ts, vs);
      case Length => OneArg(sem, "length", ts, vs);
      case Concat =>
      case Substring =>
        if |ts| == 2 {
          SubstringIs(sem, ts, vs);
        } else {
          SubstringOfLengthIs(sem, ts, vs);
        }
      case DatePart(format) => DatePartIs(sem, format, ts, vs);
      case _ =>
    }
  }

  lemma {:induction false} InstrTested(sem: Sem, ts: seq<Tree>, vs: seq<Value>, i: nat, j: nat)
    requires |ts| == 2 && vs == Values(sem, ts) && i < 2 && j < 2
    ensures Eval(sem, TCall("instr", [ts[i], ts[j]])) == Position(sem, vs[i], vs[j])
  {
    TwoArgs(sem, "instr", ts[i], ts[j], vs[i], vs[j]);
  }

  lemma {:induction false} ComparedIs(sem: Sem, cmp: Cmp, t: Tree, u: Tree, v: Value, w: Value)
    requires Eval(sem, t) == v && Eval(sem, u) == w
    ensures Eval(sem, TBin(Op(CmpSql(cmp)), t, u)) == AsValue(Compare3(sem, cmp, v, w))
  {
  }

  lemma {:induction false} LastOfIs(sem: Sem, t: Tree, u: Tree, v: Value, w: Value)
    requires Eval(sem, t) == v && Eval(sem, u) == w
    ensures Eval(sem, TCall("substr", [t, TNeg(TCall("length", [u]))])) == TailOf(sem, v, Negated(LengthOf(sem, w)))
  {
    OneArg(sem, "length", [u], [w]);
    TwoArgs(sem, "substr", t, TNeg(TCall("length", [u])), v, Negated(LengthOf(sem, w)));
  }

  lemma {:induction false} EndsWithIs(sem: Sem, ts: seq<Tree>, vs: seq<Value>)
    requires Sane(sem) && |ts| == 2 && vs == Values(sem, ts)
    ensures Eval(sem, CallTree(EndsWith, ts)) == AsValue(FnTruth(sem, EndsWith, vs))
  {
    var last := TailOf(sem, vs[0], Negated(LengthOf(sem, vs[1])));
    LastOfIs(sem, ts[0], ts[1], vs[0], vs[1]);
    ComparedIs(sem, Eq, TCall("substr", [ts[0], TNeg(TCall("length", [ts[1]]))]), ts[1], last, vs[1]);
    EndTests(sem, vs[0], vs[1]);
  }

  lemma {:induction false} InstrAbove(sem: Sem, ts: seq<Tree>, vs: seq<Value>, i: nat, j: nat)
    requires Sane(sem) && |ts| == 2 && vs == Values(sem, ts) && i < 2 && j < 2
    ensures Eval(sem, TBin(Op(Greater), TCall("instr", [ts[i], ts[j]]), TZero()))
         == AsValue(Tested(vs[i], vs[j], Contains(sem.text(vs[i]), sem.text(vs[j]))))
  {
    hide Sane, Compare3;
    InstrTested(sem, ts, vs, i, j);
    ComparedIs(sem, Gt, TCall("instr", [ts[i], ts[j]]), TZero(), Position(sem, vs[i], vs[j]), Number(0.0));
    PositionContains(sem, vs[i], vs[j]);
  }

  lemma {:induction false} StartsWithIs(sem: Sem, ts: seq<Tree>, vs: seq<Value>)
    requires Sane(sem) && |ts| == 2 && vs == Values(sem, ts)
    ensures Eval(sem, CallTree(StartsWith, ts)) == AsValue(FnTruth(sem, StartsWith, vs))
  {
    hide Sane, Compare3, Position;
    InstrTested(sem, ts, vs, 0, 1);
    ComparedIs(sem, Eq, TCall("instr", [ts[0], ts[1]]), TOne(), Position(sem, vs[0], vs[1]), Number(1.0));
    PositionStarts(sem, vs[0], vs[1]);
  }

  lemma {:induction false} FnTruthIs(sem: Sem, fn: Fn, ts: seq<Tree>, vs: seq<Value>)
    requires Sane(sem) && vs == Values(sem, ts) && TakesArgs(fn, |ts|) && IsBoolFn(fn)
    ensures Eval(sem, CallTree(fn, ts)) == AsValue(FnTruth(sem, fn, vs))
  {
    match fn {
      case SubstringOf => InstrAbove(sem, ts, vs, 1, 0);
      case Containing => InstrAbove(sem, ts, vs, 0, 1);
      case StartsWith => StartsWithIs(sem, ts, vs);
      case EndsWith => EndsWithIs(sem, ts, vs);
      case _ =>
    }
  }

  lemma {:induction false} TruthBack(a: Truth)
    ensures TruthOfValue(AsValue(a)) == a
  {
  }

  ghost predicate WorthTheSame(sem: Sem, e: Expr)
    requires Shaped(e)
  {
    && (Operand(e) ==> Eval(sem, TreeOf(e)) == ValueOf(sem, e))
    && (Cond(e) ==> Eval(sem, TreeOf(e)) == AsValue(TruthOf(sem, e)))
  }

  lemma {:induction false} CallWorth(sem: Sem, fn: Fn, args: seq<Expr>)
    requires Sane(sem) && Shaped(Call(fn, args))
    requires forall i :: 0 <= i < |args| ==> Operand(args[i]) && WorthTheSame(sem, args[i])
    ensures WorthTheSame(sem, Call(fn, args))
  {
    hide Sane, FnValue, FnTruth, CallTree, Eval;
    var ts := seq(|args|, i requires 0 <= i < |args| => TreeOf(args[i]));
    var vs := seq(|args|, i requires 0 <= i < |args| => ValueOf(sem, args[i]));
    assert Values(sem, ts) == vs;
    if IsBoolFn(fn) {
      FnTruthIs(sem, fn, ts, vs);
    } else {
      FnValueIs(sem, fn, ts, vs);
    }
  }

  lemma {:induction false} CompareWorth(sem: Sem, cmp: Cmp, l: Expr, r: Expr)
    requires Shaped(l) && Shaped(r) && Operand(l) && Operand(r) && WorthTheSame(sem, l) && WorthTheSame(sem, r)
    ensures WorthTheSame(sem, Compare(cmp, l, r))
  {
  }

  lemma {:induction false} CalcWorth(sem: Sem, op: Arith, l: Expr, r: Expr)
    requires Shaped(l) && Shaped(r) && Operand(l) && Operand(r) && WorthTheSame(sem, l) && WorthTheSame(sem, r)
    ensures WorthTheSame(sem, Calc(op, l, r))
  {
  }

  lemma {:induction false} LeafWorth(sem: Sem, e: Expr)
    requires e.Const? || e.NullLit? || e.Column?
    ensures WorthTheSame(sem, e)
  {
  }

  lemma {:induction false} ParenWorth(sem: Sem, c: Expr)
    requires Shaped(c) && Cond(c) && WorthTheSame(sem, c)
    ensures WorthTheSame(sem, Paren(c))
  {
  }

  lemma {:induction false} NonZeroWorth(sem: Sem, x: Expr)
    requires Shaped(x) && Operand(x) && WorthTheSame(sem, x)
    ensures WorthTheSame(sem, NonZero(x))
  {
    ComparedIs(sem, Ne, TreeOf(x), TZero(), ValueOf(sem, x), Number(0.0));
  }

  lemma {:induction false} NotWorth(sem: Sem, c: Expr)
    requires Shaped(c) && Cond(c) && WorthTheSame(sem, c)
    ensures WorthTheSame(sem, Not(c))
  {
    TruthBack(TruthOf(sem, c));
  }

  lemma {:induction false} BothWorth(sem: Sem, l: Expr, r: Expr)
    requires Shaped(l) && Shaped(r) && Cond(l) && Cond(r) && WorthTheSame(sem, l) && WorthTheSame(sem, r)
    ensures WorthTheSame(sem, And(l, r)) && WorthTheSame(sem, Or(l, r))
  {
    TruthBack(TruthOf(sem, l));
    TruthBack(TruthOf(sem, r));
  }

  /** The tree a condition becomes is worth what the condition means, for every row. */
  lemma {:induction false} TreeWorth(sem: Sem, e: Expr)
    requires Sane(sem) && Shaped(e)
    ensures WorthTheSame(sem, e)
  {
    if !Operand(e) && !Cond(e) {
      return;
    }
    match e {
      case Paren(c) =>
        TreeWorth(sem, c);
        ParenWorth(sem, c);
      case Calc(op, l, r) =>
        TreeWorth(sem, l);
        TreeWorth(sem, r);
        CalcWorth(sem, op, l, r);
      case Call(fn, args) =>
        forall i | 0 <= i < |args| ensures WorthTheSame(sem, args[i]) {
          TreeWorth(sem, args[i]);
        }
        CallWorth(sem, fn, args);
      case Compare(cmp, l, r) =>
        TreeWorth(sem, l);
        TreeWorth(sem, r);
        CompareWorth(sem, cmp, l, r);
      case NonZero(x) =>
        TreeWorth(sem, x);
        NonZeroWorth(sem, x);
      case Not(c) =>
        TreeWorth(sem, c);
        NotWorth(sem, c);
      case And(l, r) =>
        TreeWorth(sem, l);
        TreeWorth(sem, r);
        BothWorth(sem, l, r);
      case Or(l, r) =>
        TreeWorth(sem, l);
        TreeWorth(sem, r);
        BothWorth(sem, l, r);
      case _ => LeafWorth(sem, e);
    }
  }

  /** Whether a row is selected: read as the database reads it, and worth true. */
  function Selected(sem: Sem, sql: seq<Sql>): Option<Truth> {
    match ReadSql(sql) case Some(t) => Some(TruthOfValue(Eval(sem, t))) case None => None
  }

  /** A filter that is accepted, its boolean functions standing on their own: its SQL with the values
      it binds put in for the marks in order is worth, for every row, what the filter means. */
  lemma {:induction false} FilterMeans(s: Service, ts: seq<Token>, sem: Sem)
    requires Sane(sem) && ReadFilter(s, ts).Ok? && Cond(ReadFilter(s, ts).value)
    ensures var e := ReadFilter(s, ts).value;
      var f := Compiled(e);
      && Marks(f.sql) == |f.params|
      && Selected(sem, Fill(f.sql, f.params)) == Some(TruthOf(sem, e))
  {
    var e := ReadFilter(s, ts).value;
    FilterBinds(e);
    ConditionReadBack(e);
    TreeWorth(sem, e);
    TruthBack(TruthOf(sem, e));
  }

  /** Beside a condition of the request's own: both must hold. */
  lemma {:induction false} MergedMeans(e: Expr, other: Expr, sem: Sem)
    requires Sane(sem) && Cond(e) && Cond(other) && Shaped(e) && Shaped(other)
    ensures var (sql, params) := Merged(Render(e, true), Params(e), Render(other, true), Params(other));
      && Marks(sql) == |params|
      && Selected(sem, Fill(sql, params)) == Some(And3(TruthOf(sem, e), TruthOf(sem, other)))
  {
    var x, y := Render(e, false), Render(other, false);
    FilterBinds(e);
    FilterBinds(other);
    RenderNotEmpty(e, true);
    RenderNotEmpty(other, true);
    MergedBinds(Render(e, true), Params(e), x, Render(other, true), Params(other), y);
    MergedWorth(e, other, sem);
  }

  lemma {:induction false} SelectedIs(sem: Sem, sql: seq<Sql>, t: Tree, truth: Truth)
    requires ReadSql(sql) == Some(t) && Eval(sem, t) == AsValue(truth)
    ensures Selected(sem, sql) == Some(truth)
  {
    TruthBack(truth);
  }

  lemma {:induction false} MergedWorth(e: Expr, other: Expr, sem: Sem)
    requires Sane(sem) && Cond(e) && Cond(other) && Shaped(e) && Shaped(other)
    ensures Selected(sem, [LP] + Render(e, false) + [RP, Kw(KAnd), LP] + Render(other, false) + [RP])
         == Some(And3(TruthOf(sem, e), TruthOf(sem, other)))
  {
    MergedReads(e, other);
    TreeWorth(sem, e);
    TreeWorth(sem, other);
    BothWorth(sem, e, other);
    SelectedIs(sem, [LP] + Render(e, false) + [RP, Kw(KAnd), LP] + Render(other, false) + [RP],
               TreeOf(And(e, other)), TruthOf(sem, And(e, other)));
  }

  lemma {:induction false} MergedReads(e: Expr, other: Expr)
    requires Cond(e) && Cond(other) && Shaped(e) && Shaped(other)
    ensures ReadSql([LP] + Render(e, false) + [RP, Kw(KAnd), LP] + Render(other, false) + [RP])
         == Some(TBin(Kw(KAnd), TreeOf(e), TreeOf(other)))
  {
    var x, y := [LP] + Render(e, false) + [RP], [LP] + Render(other, false) + [RP];
    AllReadBack(e);
    AllReadBack(other);
    CondInParens(Render(e, false), TreeOf(e));
    CondInParens(Render(other, false), TreeOf(other));
    AtomsWhole(x, y, TreeOf(e), TreeOf(other));
    BothInParens(Render(e, false), Render(other, false));
  }

  lemma {:induction false} BothInParens(l: seq<Sql>, r: seq<Sql>)
    ensures [LP] + l + [RP, Kw(KAnd), LP] + r + [RP] == ([LP] + l + [RP]) + [Kw(KAnd)] + ([LP] + r + [RP])
  {
  }

  lemma {:induction false} AtomsWhole(x: seq<Sql>, y: seq<Sql>, t: Tree, u: Tree)
    requires IsAtom(x, t) && IsAtom(y, u)
    ensures ReadSql(x + [Kw(KAnd)] + y) == Some(TBin(Kw(KAnd), t, u))
  {
    AtomsInfix(x, Kw(KAnd), y, [], 1, t, u);
    LoopStops(TBin(Kw(KAnd), t, u), [], 1);
    assert x + [Kw(KAnd)] + y + [] == x + [Kw(KAnd)] + y;
  }

  lemma {:induction false} RenderNotEmpty(e: Expr, marked: bool)
    requires Shaped(e)
    ensures Render(e, marked) != []
  {
    match e {
      case Call(fn, args) =>
        TemplateFits(fn, |args|);
        assert Template(fn, |args|)[0].T?;
      case Compare(_, l, r) => RenderNotEmpty(l, marked); RenderNotEmpty(r, marked);
      case NonZero(x) => RenderNotEmpty(x, marked);
      case _ =>
    }
  }

  // ----- the text functions -----

  predicate IsSuffix(part: string, s: string) {
    |part| <= |s| && s[|s| - |part|..] == part
  }

  /** Ends with: what is asked of texts, except that the empty text ends only the empty one. */
  lemma {:induction false} EndsWithMeans(sem: Sem, s: string, part: string)
    requires Sane(sem)
    ensures FnTruth(sem, EndsWith, [Words(s), Words(part)]) == Bool(IsSuffix(part, s)) <==> part != "" || s == ""
  {
  }

  /** From position `n` on, counted from 0; nothing beyond the end. */
  lemma {:induction false} SubstringMeans(sem: Sem, s: string, n: nat)
    requires Sane(sem)
    ensures FnValue(sem, Substring, [Words(s), Number(n as real)]) == Words(if n <= |s| then s[n..] else "")
  {
    hide LengthOf;
    PlusOne(sem, n);
    TailFrom(s, n);
  }

  lemma {:induction false} PlusOne(sem: Sem, n: nat)
    requires Sane(sem)
    ensures Calc3(sem, Add, Number(n as real), Number(1.0)) == Number(n as real + 1.0)
    ensures (n as real + 1.0).Floor == n + 1
  {
    assert n as real + 1.0 == (n + 1) as real;
  }

  lemma {:induction false} TailFrom(s: string, n: nat)
    ensures Tail(s, n + 1) == if n <= |s| then s[n..] else ""
  {
  }

  // ----- parentheses -----

  /** A parenthesis is a condition, so a value in one counts as whether it is not zero: the value it
      had is kept just when that was 0, 1 or null. */
  lemma {:induction false} ParenKeeps(sem: Sem, x: Expr)
    requires Sane(sem) && Operand(x)
    ensures ValueOf(sem, Paren(NonZero(x))) == ValueOf(sem, x)
       <==> ValueOf(sem, x) in {Null, Number(0.0), Number(1.0)}
  {
    hide FnValue, Operand, Sane, Compare3, AsValue;
    ConditionKeeps(sem, ValueOf(sem, x));
  }

  lemma {:induction false} ConditionKeeps(sem: Sem, v: Value)
    requires Sane(sem)
    ensures AsValue(Compare3(sem, Ne, v, Number(0.0))) == v <==> v in {Null, Number(0.0), Number(1.0)}
  {
    hide Sane;
    if v.Number? {
      NumberDiffers(sem, v.n, 0.0);
    }
  }

  /** The same expression with every parenthesis around a value that is used as one taken as
      grouping; where a condition is wanted, `(x)` is one either way. */
  function Grouped(e: Expr, wanted: bool): Expr {
    match e
    case Paren(c) => if c.NonZero? && !wanted then Grouped(c.operand, false) else Paren(Grouped(c, true))
    case Calc(op, l, r) => Calc(op, Grouped(l, false), Grouped(r, false))
    case Call(fn, args) => Call(fn, seq(|args|, i requires 0 <= i < |args| => Grouped(args[i], false)))
    case Compare(cmp, l, r) => Compare(cmp, Grouped(l, false), Grouped(r, false))
    case NonZero(x) => NonZero(Grouped(x, false))
    case Not(c) => Not(Grouped(c, true))
    case And(l, r) => And(Grouped(l, true), Grouped(r, true))
    case Or(l, r) => Or(Grouped(l, true), Grouped(r, true))
    case _ => e
  }

  predicate NoValueInParens(e: Expr, wanted: bool) {
    match e
    case Paren(c) => (wanted || !c.NonZero?) && NoValueInParens(c, true)
    case Calc(_, l, r) => NoValueInParens(l, false) && NoValueInParens(r, false)
    case Call(_, args) => forall i :: 0 <= i < |args| ==> NoValueInParens(args[i], false)
    case Compare(_, l, r) => NoValueInParens(l, false) && NoValueInParens(r, false)
    case NonZero(x) => NoValueInParens(x, false)
    case Not(c) => NoValueInParens(c, true)
    case And(l, r) => NoValueInParens(l, true) && NoValueInParens(r, true)
    case Or(l, r) => NoValueInParens(l, true) && NoValueInParens(r, true)
    case _ => true
  }

  /** The two readings are one exactly where no parenthesis is around a value. */
  lemma {:induction false} GroupingAgrees(e: Expr, wanted: bool)
    ensures Grouped(e, wanted) == e <==> NoValueInParens(e, wanted)
  {
    GroupedIsSmaller(e, wanted);
    match e {
      case Paren(c) =>
        GroupingAgrees(c, true);
        if c.NonZero? {
          GroupedIsSmaller(c.operand, false);
        }
      case Calc(_, l, r) => GroupingAgrees(l, false); GroupingAgrees(r, false);
      case Call(fn, args) =>
        forall i | 0 <= i < |args| ensures Grouped(args[i], false) == args[i] <==> NoValueInParens(args[i], false) {
          GroupingAgrees(args[i], false);
        }
        GroupedArgs(fn, args, wanted);
      case Compare(_, l, r) => GroupingAgrees(l, false); GroupingAgrees(r, false);
      case NonZero(x) => GroupingAgrees(x, false);
      case Not(c) => GroupingAgrees(c, true);
      case And(l, r) => GroupingAgrees(l, true); GroupingAgrees(r, true);
      case Or(l, r) => GroupingAgrees(l, true); GroupingAgrees(r, true);
      case _ =>
    }
  }

  lemma {:induction false} GroupedOk(e: Expr)
    ensures Operand(e) ==> Operand(Grouped(e, false))
    ensures Cond(e) ==> Cond(Grouped(e, true))
  {
    match e {
      case Paren(c) =>
        GroupedOk(c);
        if c.NonZero? {
          GroupedOk(c.operand);
        }
      case Calc(_, l, r) => GroupedOk(l); GroupedOk(r);
      case Call(fn, args) =>
        forall i | 0 <= i < |args| ensures Operand(args[i]) ==> Operand(Grouped(args[i], false)) {
          GroupedOk(args[i]);
        }
      case Compare(_, l, r) => GroupedOk(l); GroupedOk(r);
      case NonZero(x) => GroupedOk(x);
      case Not(c) => GroupedOk(c);
      case And(l, r) => GroupedOk(l); GroupedOk(r);
      case Or(l, r) => GroupedOk(l); GroupedOk(r);
      case _ =>
    }
  }

  /** In this row every value in parentheses that is used as one is 0, 1 or null, and none is the
      literal null, which is no more a bare one. */
  ghost predicate ParensKeep(sem: Sem, e: Expr, wanted: bool) {
    match e
    case Paren(c) =>
      if c.NonZero? && !wanted then
        && ParensKeep(sem, c.operand, false) && Operand(c.operand) && !Grouped(c.operand, false).NullLit?
        && ValueOf(sem, c.operand) in {Null, Number(0.0), Number(1.0)}
      else ParensKeep(sem, c, true)
    case Calc(_, l, r) => ParensKeep(sem, l, false) && ParensKeep(sem, r, false)
    case Call(_, args) => forall i :: 0 <= i < |args| ==> ParensKeep(sem, args[i], false)
    case Compare(_, l, r) => ParensKeep(sem, l, false) && ParensKeep(sem, r, false)
    case NonZero(x) => ParensKeep(sem, x, false)
    case Not(c) => ParensKeep(sem, c, true)
    case And(l, r) => ParensKeep(sem, l, true) && ParensKeep(sem, r, true)
    case Or(l, r) => ParensKeep(sem, l, true) && ParensKeep(sem, r, true)
    case _ => true
  }

  /** Where they are, the row is selected by the one reading just when it is by the other. */
  lemma {:induction false} GroupedValue(sem: Sem, e: Expr)
    requires Sane(sem) && Operand(e) && ParensKeep(sem, e, false)
    ensures Operand(Grouped(e, false)) && ValueOf(sem, Grouped(e, false)) == ValueOf(sem, e)
    ensures Grouped(e, false).NullLit? <==> e.NullLit?
    decreases e, 0
  {
    hide Sane, FnValue, FnTruth, Calc3, Compare3;
    GroupedOk(e);
    if e.Paren? {
      if e.inner.NonZero? {
        GroupedValue(sem, e.inner.operand);
        ParenKeeps(sem, e.inner.operand);
      } else {
        GroupedSelects(sem, e.inner);
      }
    } else if e.Calc? {
      GroupedValue(sem, e.left);
      GroupedValue(sem, e.right);
    } else if e.Call? {
      GroupedArguments(sem, e.args);
      var grouped := seq(|e.args|, i requires 0 <= i < |e.args| => Grouped(e.args[i], false));
      assert Grouped(e, false) == Call(e.fn, grouped);
      assert seq(|grouped|, i requires 0 <= i < |grouped| => ValueOf(sem, grouped[i]))
          == seq(|e.args|, i requires 0 <= i < |e.args| => ValueOf(sem, e.args[i]));
    }
  }

  lemma {:induction false} GroupedArguments(sem: Sem, args: seq<Expr>)
    requires Sane(sem) && forall i :: 0 <= i < |args| ==> Operand(args[i]) && ParensKeep(sem, args[i], false)
    ensures forall i :: 0 <= i < |args| ==>
      Operand(Grouped(args[i], false)) && ValueOf(sem, Grouped(args[i], false)) == ValueOf(sem, args[i])
    decreases args, 1
  {
    hide Sane;
    forall i | 0 <= i < |args|
      ensures Operand(Grouped(args[i], false)) && ValueOf(sem, Grouped(args[i], false)) == ValueOf(sem, args[i])
    {
      GroupedValue(sem, args[i]);
    }
  }

  lemma {:induction false} GroupedSelects(sem: Sem, e: Expr)
    requires Sane(sem) && Cond(e) && ParensKeep(sem, e, true)
    ensures Cond(Grouped(e, true)) && TruthOf(sem, Grouped(e, true)) == TruthOf(sem, e)
    decreases e, 0
  {
    hide Sane, FnValue, FnTruth, Calc3, Compare3;
    GroupedOk(e);
    if e.Paren? {
      GroupedSelects(sem, e.inner);
    } else if e.Compare? {
      GroupedValue(sem, e.left);
      GroupedValue(sem, e.right);
    } else if e.NonZero? {
      GroupedValue(sem, e.operand);
    } else if e.Not? {
      GroupedSelects(sem, e.operand);
    } else if e.And? || e.Or? {
      GroupedSelects(sem, e.left);
      GroupedSelects(sem, e.right);
    } else {
      GroupedArguments(sem, e.args);
      var grouped := seq(|e.args|, i requires 0 <= i < |e.args| => Grouped(e.args[i], false));
      assert Grouped(e, true) == Call(e.fn, grouped);
      assert seq(|grouped|, i requires 0 <= i < |grouped| => ValueOf(sem, grouped[i]))
          == seq(|e.args|, i requires 0 <= i < |e.args| => ValueOf(sem, e.args[i]));
    }
  }

  /** So grouping is honoured for every row in which no parenthesis is around a value but 0, 1 or null. */
  lemma {:induction false} GroupedFilterMeans(s: Service, ts: seq<Token>, sem: Sem)
    requires Sane(sem) && ReadFilter(s, ts).Ok? && Cond(ReadFilter(s, ts).value)
    requires ParensKeep(sem, ReadFilter(s, ts).value, true)
    ensures var e := ReadFilter(s, ts).value;
      && Cond(Grouped(e, true))
      && Selected(sem, Fill(Compiled(e).sql, Compiled(e).params)) == Some(TruthOf(sem, Grouped(e, true)))
  {
    hide Sane, ReadFilter, Selected, Compiled, Fill;
    GroupedSelects(sem, ReadFilter(s, ts).value);
    FilterMeans(s, ts, sem);
  }

  /** The same of the grammar: what a sentence selects is what the one expression it is a sentence of means. */
  lemma {:induction false} SentenceMeans(s: Service, ts: seq<Token>, e: Expr, sem: Sem)
    requires Sane(sem) && Disjunction(s, e, ts) && Cond(e)
    ensures ReadFilter(s, ts) == Ok(e) && Marks(Compiled(e).sql) == |Compiled(e).params|
    ensures Selected(sem, Fill(Compiled(e).sql, Compiled(e).params)) == Some(TruthOf(sem, e))
  {
    hide Sane, ReadFilter, Selected, Compiled, Fill, Disjunction, TruthOf, Marks;
    ReadsTheGrammar(s, ts, e);
    FilterMeans(s, ts, sem);
  }

  function SizeOf(e: Expr): nat {
    match e
    case Paren(c) => 1 + SizeOf(c)
    case NonZero(x) => 1 + SizeOf(x)
    case Not(c) => 1 + SizeOf(c)
    case Calc(_, l, r) => 1 + SizeOf(l) + SizeOf(r)
    case Compare(_, l, r) => 1 + SizeOf(l) + SizeOf(r)
    case And(l, r) => 1 + SizeOf(l) + SizeOf(r)
    case Or(l, r) => 1 + SizeOf(l) + SizeOf(r)
    case _ => 1
  }

  lemma {:induction false} GroupedIsSmaller(e: Expr, wanted: bool)
    ensures SizeOf(Grouped(e, wanted)) <= SizeOf(e)
  {
    match e {
      case Paren(c) =>
        GroupedIsSmaller(c, true);
        if c.NonZero? {
          GroupedIsSmaller(c.operand, false);
        }
      case NonZero(x) => GroupedIsSmaller(x, false);
      case Not(c) => GroupedIsSmaller(c, true);
      case Calc(_, l, r) => GroupedIsSmaller(l, false); GroupedIsSmaller(r, false);
      case Compare(_, l, r) => GroupedIsSmaller(l, false); GroupedIsSmaller(r, false);
      case And(l, r) => GroupedIsSmaller(l, true); GroupedIsSmaller(r, true);
      case Or(l, r) => GroupedIsSmaller(l, true); GroupedIsSmaller(r, true);
      case _ =>
    }
  }

  lemma {:induction false} GroupedArgs(fn: Fn, args: seq<Expr>, wanted: bool)
    requires forall i :: 0 <= i < |args| ==> (Grouped(args[i], false) == args[i] <==> NoValueInParens(args[i], false))
    ensures Grouped(Call(fn, args), wanted) == Call(fn, args) <==> NoValueInParens(Call(fn, args), wanted)
  {
    var grouped := seq(|args|, i requires 0 <= i < |args| => Grouped(args[i], false));
    assert Grouped(Call(fn, args), wanted) == Call(fn, grouped);
    if NoValueInParens(Call(fn, args), wanted) {
      assert grouped == args;
    }
    if grouped == args {
      forall i | 0 <= i < |args| ensures NoValueInParens(args[i], false) {
        assert grouped[i] == args[i];
      }
    }
  }

  function TwoPlusOne(): Expr { Calc(Add, Const(Number(2.0)), Const(Number(1.0))) }

  function Digit(n: real): Token { Literal(Some(Number(n)), Either) }

  /** `(2 add 1) eq 3` */
  function SumInParens(): seq<Token> {
    [Open, Digit(2.0), Word("add"), Digit(1.0), Close, Word("eq"), Digit(3.0)]
  }

  function SumRefused(): Expr { Compare(Eq, Paren(NonZero(TwoPlusOne())), Const(Number(3.0))) }

  /** It is read with its parenthesis as a condition, and is false of every row; taken as grouping it
      is true of every row. */
  lemma {:induction false} GroupingLost(s: Service, sem: Sem)
    requires Sane(sem)
    ensures ReadFilter(s, SumInParens()) == Ok(SumRefused())
    ensures Cond(SumRefused()) && TruthOf(sem, SumRefused()) == No
    ensures Cond(Grouped(SumRefused(), true)) && TruthOf(sem, Grouped(SumRefused(), true)) == Yes
  {
    hide Sane;
    GroupingRead(s, Digit(2.0), Digit(1.0), Digit(3.0));
    assert SumInParens() == [Open] + ([Digit(2.0), Word("add"), Digit(1.0)] + ([Close] + [Word("eq"), Digit(3.0)]));
    RefusedMeans(sem);
    GroupedMeans(sem);
  }

  lemma {:induction false} RefusedMeans(sem: Sem)
    requires Sane(sem)
    ensures Cond(SumRefused()) && TruthOf(sem, SumRefused()) == No
  {
    hide Sane, Compare3, Calc3;
    SumMeans(sem);
    NonZeroMeans(sem, TwoPlusOne(), 3.0);
    assert ValueOf(sem, Paren(NonZero(TwoPlusOne()))) == Number(1.0);
    EqualMeans(sem, Paren(NonZero(TwoPlusOne())), 1.0, 3.0);
  }

  lemma {:induction false} NonZeroMeans(sem: Sem, x: Expr, v: real)
    requires Sane(sem) && Operand(x) && ValueOf(sem, x) == Number(v)
    ensures TruthOf(sem, NonZero(x)) == Bool(v != 0.0)
  {
    hide Sane;
    NumberSame(sem, v, 0.0);
  }

  lemma {:induction false} EqualMeans(sem: Sem, x: Expr, v: real, w: real)
    requires Sane(sem) && Operand(x) && !x.NullLit? && ValueOf(sem, x) == Number(v)
    ensures TruthOf(sem, Compare(Eq, x, Const(Number(w)))) == Bool(v == w)
  {
    NumberSame(sem, v, w);
  }

  lemma {:induction false} GroupedMeans(sem: Sem)
    requires Sane(sem)
    ensures Cond(Grouped(SumRefused(), true)) && TruthOf(sem, Grouped(SumRefused(), true)) == Yes
  {
    hide Sane;
    SumMeans(sem);
    assert Grouped(Paren(NonZero(TwoPlusOne())), false) == TwoPlusOne();
    assert Grouped(SumRefused(), true) == Compare(Eq, TwoPlusOne(), Const(Number(3.0)));
    EqualMeans(sem, TwoPlusOne(), 3.0, 3.0);
  }

  lemma {:induction false} SumMeans(sem: Sem)
    requires Sane(sem)
    ensures Operand(TwoPlusOne()) && ValueOf(sem, TwoPlusOne()) == Number(3.0) && Grouped(TwoPlusOne(), false) == TwoPlusOne()
  {
    assert sem.math(Add, Number(2.0), Number(1.0)) == Number(3.0);
  }

  /** Where nothing that continues an expression follows, what was read is the whole of it. */
  lemma {:induction false} OperandAlone(s: Service, ts: seq<Token>, e: Expr, rest: seq<Token>)
    requires ReadOperand(s, ts) == Ok((e, rest)) && !IsBool(e)
    requires rest == [] || !rest[0].Word?
    ensures ReadOr(s, ts) == Ok((NonZero(e), rest))
    requires !StartsWithWord(ts, "not")
  {
    assert ReadComparison(s, ts) == Ok((NonZero(e), rest));
    assert ReadUnary(s, ts) == Ok((NonZero(e), rest));
    assert ReadAnd(s, ts) == Ok((NonZero(e), rest));
  }

  lemma {:induction false} SumRead(s: Service, two: Token, one: Token, rest: seq<Token>)
    requires two == Literal(Some(Number(2.0)), Either) && one == Literal(Some(Number(1.0)), Either)
    requires rest == [] || !rest[0].Word?
    ensures ReadOperand(s, [two, Word("add"), one] + rest) == Ok((TwoPlusOne(), rest))
  {
    var ts := [two, Word("add"), one] + rest;
    assert ts[1..] == [Word("add"), one] + rest;
    assert ts[1..][1..] == [one] + rest;
    assert ([one] + rest)[1..] == rest;
    assert Lower("add") == "add";
    assert ReadPrimary(s, ts) == Ok((Const(Number(2.0)), ts[1..]));
    assert ReadPrimary(s, [one] + rest) == Ok((Const(Number(1.0)), rest));
    assert MoreOperand(s, TwoPlusOne(), rest) == Ok((TwoPlusOne(), rest));
  }

  lemma {:induction false} GroupingRead(s: Service, two: Token, one: Token, three: Token)
    requires two == Literal(Some(Number(2.0)), Either) && one == Literal(Some(Number(1.0)), Either)
    requires three == Literal(Some(Number(3.0)), Either)
    ensures ReadFilter(s, [Open] + ([two, Word("add"), one] + ([Close] + [Word("eq"), three])))
         == Ok(Compare(Eq, Paren(NonZero(TwoPlusOne())), Const(Number(3.0))))
  {
    var eq := [Word("eq"), three];
    var sum := [two, Word("add"), one] + ([Close] + eq);
    var ts := [Open] + sum;
    SumRead(s, two, one, [Close] + eq);
    OperandAlone(s, sum, TwoPlusOne(), [Close] + eq);
    assert ts[1..] == sum && ([Close] + eq)[1..] == eq && eq[1..] == [three] && [three][1..] == [];
    var left := Paren(NonZero(TwoPlusOne()));
    assert ReadPrimary(s, ts) == Ok((left, eq));
    assert Lower("eq") == "eq";
    assert ReadOperand(s, ts) == Ok((left, eq));
    assert ReadPrimary(s, [three]) == Ok((Const(Number(3.0)), []));
    assert ReadOperand(s, [three]) == Ok((Const(Number(3.0)), []));
    var e := Compare(Eq, left, Const(Number(3.0)));
    assert ReadComparison(s, ts) == Ok((e, []));
    assert ReadUnary(s, ts) == Ok((e, []));
    assert ReadAnd(s, ts) == Ok((e, []));
    assert ReadOr(s, ts) == Ok((e, []));
  }
}
