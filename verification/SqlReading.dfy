/** How a database reads the SQL: an expression grammar with SQLite's precedences, and the proof that
    the SQL of a filter is read as the tree it was meant to be. */
module SqlReading {
  import opened Common
  import opened FilterSyntax
  import opened FilterSql

  datatype Tree =
    | TLit(v: Value)
    | TNull
    | TCol(name: string)
    | TBin(op: Sql, left: Tree, right: Tree)
    | TNot(operand: Tree)
    | TNeg(operand: Tree)
    | TIsNull(operand: Tree, negated: bool)
    | TCall(name: string, args: seq<Tree>)
    | TCast(operand: Tree, to: Keyword)

  /** How tightly an infix operator binds; 0 for what is none. */
  function Prec(op: Sql): nat {
    match op
    case Kw(KOr) => 1
    case Kw(KAnd) => 2
    case Op(Equal) => 4
    case Op(Unequal) => 4
    case Op(Greater) => 5
    case Op(AtLeast) => 5
    case Op(Below) => 5
    case Op(AtMost) => 5
    case Op(Plus) => 6
    case Op(Minus) => 6
    case Op(Times) => 7
    case Op(Over) => 7
    case Op(Remainder) => 7
    case Op(Join) => 8
    case _ => 0
  }

  /** `NOT` binds more loosely than any comparison, `IS` as `=` does. */
  const NOT_OPERAND := 3
  const IS_PREC := 4

  type ReadTree = Option<(Tree, seq<Sql>)>

  predicate StartsIs(ts: seq<Sql>) {
    |ts| >= 2 && ts[0] == Kw(KIs) && ts[1] == Kw(KNull)
  }

  predicate StartsIsNot(ts: seq<Sql>) {
    |ts| >= 3 && ts[0] == Kw(KIs) && ts[1] == Kw(KNot) && ts[2] == Kw(KNull)
  }

  function Prefix(ts: seq<Sql>): (r: ReadTree)
    ensures r.Some? ==> |r.value.1| < |ts|
    decreases |ts|, 0
  {
    if ts == [] then None
    else
      match ts[0]
      case Lit(v) => Some((TLit(v), ts[1..]))
      case Col(name) => Some((TCol(name), ts[1..]))
      case Kw(KNull) => Some((TNull, ts[1..]))
      case Kw(KNot) => (match Climb(ts[1..], NOT_OPERAND) case Some((t, rest)) => Some((TNot(t), rest)) case None => None)
      case Op(Minus) => (match Prefix(ts[1..]) case Some((t, rest)) => Some((TNeg(t), rest)) case None => None)
      case LP => (match Climb(ts[1..], 1) case Some((t, rest)) => AfterParen(t, rest) case None => None)
      case Kw(KCast) =>
        if |ts| < 2 || ts[1] != LP then None
        else (match Climb(ts[2..], 1) case Some((t, rest)) => AfterCast(t, rest) case None => None)
      case Fun(name) =>
        if |ts| < 2 || ts[1] != LP then None
        else (match ReadArguments(ts[2..]) case Some((args, rest)) => Some((TCall(name, args), rest)) case None => None)
      case _ => None
  }

  function AfterParen(t: Tree, rest: seq<Sql>): (r: ReadTree)
    ensures r.Some? ==> |r.value.1| < |rest|
  {
    if rest != [] && rest[0] == RP then Some((t, rest[1..])) else None
  }

  function AfterCast(t: Tree, rest: seq<Sql>): (r: ReadTree)
    ensures r.Some? ==> |r.value.1| < |rest|
  {
    if |rest| >= 3 && rest[0] == Kw(KAs) && rest[1].Kw? && rest[2] == RP then Some((TCast(t, rest[1].k), rest[3..])) else None
  }

  function ReadArguments(ts: seq<Sql>): (r: Option<(seq<Tree>, seq<Sql>)>)
    ensures r.Some? ==> |r.value.1| < |ts|
    decreases |ts|, 2
  {
    match Climb(ts, 1)
    case None => None
    case Some((t, rest)) =>
      if rest != [] && rest[0] == Sep then
        (match ReadArguments(rest[1..]) case Some((more, rest')) => Some(([t] + more, rest')) case None => None)
      else if rest != [] && rest[0] == RP then Some(([t], rest[1..]))
      else None
  }

  /** An expression of operators that bind at least as tightly as `min`. */
  function Climb(ts: seq<Sql>, min: nat): (r: ReadTree)
    ensures r.Some? ==> |r.value.1| < |ts|
    decreases |ts|, 1
  {
    match Prefix(ts) case Some((t, rest)) => Loop(t, rest, min) case None => None
  }

  function Loop(left: Tree, ts: seq<Sql>, min: nat): (r: ReadTree)
    ensures r.Some? ==> |r.value.1| <= |ts|
    decreases |ts|, 0
  {
    if ts != [] && Prec(ts[0]) > 0 && Prec(ts[0]) >= min then
      (match Climb(ts[1..], Prec(ts[0]) + 1)
       case Some((right, rest)) => Loop(TBin(ts[0], left, right), rest, min)
       case None => None)
    else if StartsIs(ts) && IS_PREC >= min then Loop(TIsNull(left, false), ts[2..], min)
    else if StartsIsNot(ts) && IS_PREC >= min then Loop(TIsNull(left, true), ts[3..], min)
    else Some((left, ts))
  }

  function ReadSql(ts: seq<Sql>): Option<Tree> {
    match Climb(ts, 1) case Some((t, rest)) => (if rest == [] then Some(t) else None) case None => None
  }

  // ----- the tree a filter means -----

  /** An operand is a value: no boolean function, unless a parenthesis makes it one. */
  predicate Operand(e: Expr) {
    match e
    case Const(_) => true
    case NullLit => true
    case Column(_, _) => true
    case Paren(c) => Cond(c)
    case Calc(_, l, r) => Operand(l) && Operand(r)
    case Call(fn, args) => !IsBoolFn(fn) && TakesArgs(fn, |args|) && forall i :: 0 <= i < |args| ==> Operand(args[i])
    case _ => false
  }

  /** A condition: boolean functions stand on their own, null literals bare or in operands. */
  predicate Cond(e: Expr) {
    match e
    case Paren(c) => Cond(c)
    case Compare(_, l, r) => Operand(l) && Operand(r)
    case NonZero(x) => Operand(x)
    case Not(c) => Cond(c)
    case And(l, r) => Cond(l) && Cond(r)
    case Or(l, r) => Cond(l) && Cond(r)
    case Call(fn, args) => IsBoolFn(fn) && TakesArgs(fn, |args|) && forall i :: 0 <= i < |args| ==> Operand(args[i])
    case _ => false
  }

  lemma {:induction false} CondShaped(e: Expr)
    ensures Operand(e) || Cond(e) ==> Shaped(e)
  {
    match e {
      case Paren(c) => CondShaped(c);
      case Calc(_, l, r) => CondShaped(l); CondShaped(r);
      case Call(fn, args) =>
        forall i | 0 <= i < |args| ensures Operand(args[i]) ==> Shaped(args[i]) {
          CondShaped(args[i]);
        }
      case Compare(_, l, r) => CondShaped(l); CondShaped(r);
      case NonZero(x) => CondShaped(x);
      case Not(c) => CondShaped(c);
      case And(l, r) => CondShaped(l); CondShaped(r);
      case Or(l, r) => CondShaped(l); CondShaped(r);
      case _ =>
    }
  }

  function TZero(): Tree { TLit(Number(0.0)) }
  function TOne(): Tree { TLit(Number(1.0)) }

  function CallTree(fn: Fn, args: seq<Tree>): Tree
    requires TakesArgs(fn, |args|)
  {
    match fn
    case SubstringOf => TBin(Op(Greater), TCall("instr", [args[1], args[0]]), TZero())
    case Containing => TBin(Op(Greater), TCall("instr", [args[0], args[1]]), TZero())
    case StartsWith => TBin(Op(Equal), TCall("instr", [args[0], args[1]]), TOne())
    case EndsWith => TBin(Op(Equal), TCall("substr", [args[0], TNeg(TCall("length", [args[1]]))]), args[1])
    case IndexOf => TBin(Op(Minus), TCall("instr", [args[0], args[1]]), TOne())
    case ToLower => TCall("lower", [args[0]])
    case ToUpper => TCall("upper", [args[0]])
    case Trim => TCall("trim", [args[0]])
    case Length => TCall("length", [args[0]])
    case Concat => TBin(Op(Join), args[0], args[1])
    case Substring =>
      if |args| == 2 then TCall("substr", [args[0], TBin(Op(Plus), args[1], TOne())])
      else TCall("substr", [args[0], TBin(Op(Plus), args[1], TOne()), args[2]])
    case DatePart(format) => TCast(TCall("strftime", [TLit(Words(format)), args[0]]), KInteger)
  }

  function TreeOf(e: Expr): Tree
    requires Shaped(e)
  {
    match e
    case Const(v) => TLit(v)
    case NullLit => TNull
    case Column(name, decimal) => if decimal then TCast(TCol(name), KReal) else TCol(name)
    case Paren(c) => TreeOf(c)
    case Calc(op, l, r) => TBin(Op(ArithSql(op)), TreeOf(l), TreeOf(r))
    case Call(fn, args) => CallTree(fn, seq(|args|, i requires 0 <= i < |args| => TreeOf(args[i])))
    case Compare(cmp, l, r) =>
      if r.NullLit? then TIsNull(TreeOf(l), cmp != Eq)
      else if l.NullLit? then TIsNull(TreeOf(r), cmp != Eq)
      else TBin(Op(CmpSql(cmp)), TreeOf(l), TreeOf(r))
    case NonZero(x) => TBin(Op(Unequal), TreeOf(x), TZero())
    case Not(c) => TNot(TreeOf(c))
    case And(l, r) => TBin(Kw(KAnd), TreeOf(l), TreeOf(r))
    case Or(l, r) => TBin(Kw(KOr), TreeOf(l), TreeOf(r))
  }

  // ----- reading pieces -----

  /** Nothing that follows is taken into an expression of operators as tight as `min`. */
  predicate StopsAt(rest: seq<Sql>, min: nat) {
    rest == [] || (rest[0] != Kw(KIs) && (Prec(rest[0]) == 0 || Prec(rest[0]) < min))
  }

  /** What may follow a condition. */
  predicate Ends(rest: seq<Sql>) {
    StopsAt(rest, NOT_OPERAND)
  }

  /** Read at the front, whatever follows. */
  ghost predicate IsAtom(x: seq<Sql>, t: Tree) {
    forall rest :: Prefix(x + rest) == Some((t, rest))
  }

  /** Read as a condition wherever one may stand. */
  ghost predicate IsCond(x: seq<Sql>, t: Tree) {
    forall rest, min :: Ends(rest) && 1 <= min <= IS_PREC ==> Climb(x + rest, min) == Loop(t, rest, min)
  }

  lemma {:induction false} AtomAt(x: seq<Sql>, t: Tree, rest: seq<Sql>, min: nat)
    requires IsAtom(x, t)
    ensures Climb(x + rest, min) == Loop(t, rest, min)
  {
    assert Prefix(x + rest) == Some((t, rest));
  }

  lemma {:induction false} CondAt(x: seq<Sql>, t: Tree, rest: seq<Sql>, min: nat)
    requires IsCond(x, t) && Ends(rest) && 1 <= min <= IS_PREC
    ensures Climb(x + rest, min) == Loop(t, rest, min)
  {
  }

  lemma {:induction false} AtomIsCond(x: seq<Sql>, t: Tree)
    requires IsAtom(x, t)
    ensures IsCond(x, t)
  {
    forall rest, min | Ends(rest) && 1 <= min <= IS_PREC ensures Climb(x + rest, min) == Loop(t, rest, min) {
      AtomAt(x, t, rest, min);
    }
  }

  lemma {:induction false} LoopStops(t: Tree, rest: seq<Sql>, min: nat)
    requires StopsAt(rest, min)
    ensures Loop(t, rest, min) == Some((t, rest))
  {
  }

  /** An infix operator between two parts that are read on their own. */
  lemma {:induction false} Infix(a: seq<Sql>, op: Sql, b: seq<Sql>, rest: seq<Sql>, min: nat, ta: Tree, tb: Tree)
    requires Prec(op) >= min && Prec(op) > 0
    requires Climb(a + ([op] + (b + rest)), min) == Loop(ta, [op] + (b + rest), min)
    requires Climb(b + rest, Prec(op) + 1) == Some((tb, rest))
    ensures Climb(a + [op] + b + rest, min) == Loop(TBin(op, ta, tb), rest, min)
  {
    assert a + [op] + b + rest == a + ([op] + (b + rest));
    assert ([op] + (b + rest))[1..] == b + rest;
  }

  lemma {:induction false} AtomsInfix(a: seq<Sql>, op: Sql, b: seq<Sql>, rest: seq<Sql>, min: nat, ta: Tree, tb: Tree)
    requires Prec(op) >= min && Prec(op) > 0 && IsAtom(a, ta) && IsAtom(b, tb) && StopsAt(rest, Prec(op) + 1)
    ensures Climb(a + [op] + b + rest, min) == Loop(TBin(op, ta, tb), rest, min)
  {
    AtomAt(a, ta, [op] + (b + rest), min);
    AtomAt(b, tb, rest, Prec(op) + 1);
    LoopStops(tb, rest, Prec(op) + 1);
    Infix(a, op, b, rest, min, ta, tb);
  }

  lemma {:induction false} StopsLater(rest: seq<Sql>, min: nat)
    requires Ends(rest) && min >= NOT_OPERAND
    ensures StopsAt(rest, min)
  {
  }

  lemma {:induction false} AtomsCompared(a: seq<Sql>, op: Sql, b: seq<Sql>, ta: Tree, tb: Tree)
    requires Prec(op) >= IS_PREC && IsAtom(a, ta) && IsAtom(b, tb)
    ensures IsCond(a + [op] + b, TBin(op, ta, tb))
  {
    forall rest, min | Ends(rest) && 1 <= min <= IS_PREC
      ensures Climb(a + [op] + b + rest, min) == Loop(TBin(op, ta, tb), rest, min)
    {
      StopsLater(rest, Prec(op) + 1);
      AtomsInfix(a, op, b, rest, min, ta, tb);
    }
  }

  lemma {:induction false} ClosedBy(x: seq<Sql>, rest: seq<Sql>, t: Tree)
    requires Climb(x + ([RP] + rest), 1) == Loop(t, [RP] + rest, 1)
    ensures Prefix([LP] + x + [RP] + rest) == Some((t, rest))
  {
    LoopStops(t, [RP] + rest, 1);
    assert ([LP] + x + [RP] + rest)[1..] == x + ([RP] + rest);
    assert ([RP] + rest)[1..] == rest;
  }

  lemma {:induction false} CondInParens(x: seq<Sql>, t: Tree)
    requires IsCond(x, t)
    ensures IsAtom([LP] + x + [RP], t)
  {
    forall rest ensures Prefix([LP] + x + [RP] + rest) == Some((t, rest)) {
      CondAt(x, t, [RP] + rest, 1);
      ClosedBy(x, rest, t);
    }
  }

  lemma {:induction false} AtomsClosed(a: seq<Sql>, op: Sql, b: seq<Sql>, ta: Tree, tb: Tree, rest: seq<Sql>)
    requires Prec(op) > 0 && IsAtom(a, ta) && IsAtom(b, tb)
    ensures Prefix([LP] + (a + [op] + b) + [RP] + rest) == Some((TBin(op, ta, tb), rest))
  {
    AtomsInfix(a, op, b, [RP] + rest, 1, ta, tb);
    ClosedBy(a + [op] + b, rest, TBin(op, ta, tb));
  }

  lemma {:induction false} AtomsInParens(a: seq<Sql>, op: Sql, b: seq<Sql>, ta: Tree, tb: Tree)
    requires Prec(op) > 0 && IsAtom(a, ta) && IsAtom(b, tb)
    ensures IsAtom([LP] + a + [op] + b + [RP], TBin(op, ta, tb))
  {
    assert [LP] + a + [op] + b + [RP] == [LP] + (a + [op] + b) + [RP];
    forall rest ensures Prefix([LP] + (a + [op] + b) + [RP] + rest) == Some((TBin(op, ta, tb), rest)) {
      AtomsClosed(a, op, b, ta, tb, rest);
    }
  }

  lemma {:induction false} CondsClosed(a: seq<Sql>, k: Keyword, b: seq<Sql>, ta: Tree, tb: Tree, rest: seq<Sql>)
    requires (k == KAnd || k == KOr) && IsCond(a, ta) && IsCond(b, tb)
    ensures Prefix([LP] + (a + [Kw(k)] + b) + [RP] + rest) == Some((TBin(Kw(k), ta, tb), rest))
  {
    var after := [RP] + rest;
    CondAt(a, ta, [Kw(k)] + (b + after), 1);
    CondAt(b, tb, after, Prec(Kw(k)) + 1);
    LoopStops(tb, after, Prec(Kw(k)) + 1);
    Infix(a, Kw(k), b, after, 1, ta, tb);
    ClosedBy(a + [Kw(k)] + b, rest, TBin(Kw(k), ta, tb));
  }

  lemma {:induction false} CondsInParens(a: seq<Sql>, k: Keyword, b: seq<Sql>, ta: Tree, tb: Tree)
    requires (k == KAnd || k == KOr) && IsCond(a, ta) && IsCond(b, tb)
    ensures IsAtom([LP] + a + [Kw(k)] + b + [RP], TBin(Kw(k), ta, tb))
  {
    assert [LP] + a + [Kw(k)] + b + [RP] == [LP] + (a + [Kw(k)] + b) + [RP];
    forall rest ensures Prefix([LP] + (a + [Kw(k)] + b) + [RP] + rest) == Some((TBin(Kw(k), ta, tb), rest)) {
      CondsClosed(a, k, b, ta, tb, rest);
    }
  }

  lemma {:induction false} NotRead(x: seq<Sql>, t: Tree, rest: seq<Sql>)
    requires IsCond(x, t)
    ensures Prefix([Kw(KNot)] + x + ([RP] + rest)) == Some((TNot(t), [RP] + rest))
  {
    CondAt(x, t, [RP] + rest, NOT_OPERAND);
    LoopStops(t, [RP] + rest, NOT_OPERAND);
    assert ([Kw(KNot)] + x + ([RP] + rest))[1..] == x + ([RP] + rest);
  }

  lemma {:induction false} NotInParens(x: seq<Sql>, t: Tree)
    requires IsCond(x, t)
    ensures IsAtom([LP, Kw(KNot)] + x + [RP], TNot(t))
  {
    forall rest ensures Prefix([LP, Kw(KNot)] + x + [RP] + rest) == Some((TNot(t), rest)) {
      NotRead(x, t, rest);
      assert [LP, Kw(KNot)] + x + [RP] + rest == [LP] + ([Kw(KNot)] + x) + [RP] + rest;
      ClosedBy([Kw(KNot)] + x, rest, TNot(t));
    }
  }

  lemma {:induction false} NullLoop(t: Tree, cmp: Cmp, rest: seq<Sql>, min: nat)
    requires min <= IS_PREC
    ensures Loop(t, NullTest(cmp) + rest, min) == Loop(TIsNull(t, cmp != Eq), rest, min)
  {
    var after := NullTest(cmp) + rest;
    assert after[|NullTest(cmp)|..] == rest;
    assert after[0] == Kw(KIs) && after[1] == NullTest(cmp)[1];
    if cmp != Eq {
      assert after[2] == Kw(KNull);
    }
  }

  lemma {:induction false} AtomThen(x: seq<Sql>, t: Tree, y: seq<Sql>, t': Tree, rest: seq<Sql>, min: nat)
    requires IsAtom(x, t) && Loop(t, y + rest, min) == Loop(t', rest, min)
    ensures Climb(x + y + rest, min) == Loop(t', rest, min)
  {
    hide Climb, Loop, IsAtom, Prefix;
    AtomAt(x, t, y + rest, min);
    assert x + y + rest == x + (y + rest);
  }

  lemma {:induction false} NullTested(x: seq<Sql>, t: Tree, cmp: Cmp)
    requires IsAtom(x, t)
    ensures IsCond(x + NullTest(cmp), TIsNull(t, cmp != Eq))
  {
    var y, t' := NullTest(cmp), TIsNull(t, cmp != Eq);
    forall rest, min | Ends(rest) && 1 <= min <= IS_PREC ensures Climb(x + y + rest, min) == Loop(t', rest, min) {
      NullLoop(t, cmp, rest, min);
      AtomThen(x, t, y, t', rest, min);
    }
  }

  lemma {:induction false} OneToken(token: Sql, t: Tree)
    requires (token.Lit? && t == TLit(token.v)) || (token.Col? && t == TCol(token.name)) || (token == Kw(KNull) && t == TNull)
    ensures IsAtom([token], t)
  {
    forall rest ensures Prefix([token] + rest) == Some((t, rest)) {
      assert ([token] + rest)[1..] == rest;
    }
  }

  // ----- reading calls -----

  /** An argument: read whole up to a comma or the closing parenthesis. */
  ghost predicate IsArg(x: seq<Sql>, t: Tree) {
    forall rest :: ArgEnds(rest) ==> Climb(x + rest, 1) == Some((t, rest))
  }

  lemma {:induction false} AtomIsArg(x: seq<Sql>, t: Tree)
    requires IsAtom(x, t)
    ensures IsArg(x, t)
  {
    forall rest | ArgEnds(rest) ensures Climb(x + rest, 1) == Some((t, rest)) {
      AtomAt(x, t, rest, 1);
      LoopStops(t, rest, 1);
    }
  }

  predicate ArgEnds(rest: seq<Sql>) {
    rest != [] && (rest[0] == Sep || rest[0] == RP)
  }

  lemma {:induction false} PlusOneAt(x: seq<Sql>, t: Tree, rest: seq<Sql>)
    requires IsAtom(x, t) && ArgEnds(rest)
    ensures Climb(x + [Op(Plus)] + [ONE] + rest, 1) == Some((TBin(Op(Plus), t, TOne()), rest))
  {
    OneToken(ONE, TOne());
    AtomsInfix(x, Op(Plus), [ONE], rest, 1, t, TOne());
    LoopStops(TBin(Op(Plus), t, TOne()), rest, 1);
  }

  lemma {:induction false} PlusOneIsArg(x: seq<Sql>, t: Tree)
    requires IsAtom(x, t)
    ensures IsArg(x + [Op(Plus), ONE], TBin(Op(Plus), t, TOne()))
  {
    assert x + [Op(Plus), ONE] == x + [Op(Plus)] + [ONE];
    forall rest | ArgEnds(rest) ensures Climb(x + [Op(Plus)] + [ONE] + rest, 1) == Some((TBin(Op(Plus), t, TOne()), rest)) {
      PlusOneAt(x, t, rest);
    }
  }

  lemma {:induction false} NegatedRead(x: seq<Sql>, t: Tree, rest: seq<Sql>)
    requires Prefix(x + rest) == Some((t, rest))
    ensures Prefix([Op(Minus)] + x + rest) == Some((TNeg(t), rest))
  {
    assert ([Op(Minus)] + x + rest)[1..] == x + rest;
  }

  lemma {:induction false} NegatedIsArg(x: seq<Sql>, t: Tree)
    requires IsAtom(x, t)
    ensures IsArg([Op(Minus)] + x, TNeg(t))
  {
    forall rest ensures Prefix([Op(Minus)] + x + rest) == Some((TNeg(t), rest)) {
      NegatedRead(x, t, rest);
    }
    AtomIsArg([Op(Minus)] + x, TNeg(t));
  }

  lemma {:induction false} LastArgument(x: seq<Sql>, t: Tree, rest: seq<Sql>)
    requires IsArg(x, t)
    ensures ReadArguments(x + ([RP] + rest)) == Some(([t], rest))
  {
    assert ([RP] + rest)[1..] == rest;
  }

  lemma {:induction false} NextArgument(x: seq<Sql>, t: Tree, after: seq<Sql>, args: seq<Tree>, rest: seq<Sql>)
    requires IsArg(x, t) && ReadArguments(after) == Some((args, rest))
    ensures ReadArguments(x + ([Sep] + after)) == Some(([t] + args, rest))
  {
    assert ([Sep] + after)[1..] == after;
  }

  lemma {:induction false} CallRead(name: string, inside: seq<Sql>, args: seq<Tree>, rest: seq<Sql>)
    requires ReadArguments(inside + ([RP] + rest)) == Some((args, rest))
    ensures Prefix([Fun(name), LP] + inside + [RP] + rest) == Some((TCall(name, args), rest))
  {
    assert ([Fun(name), LP] + inside + [RP] + rest)[2..] == inside + ([RP] + rest);
  }

  lemma {:induction false} CallOne(name: string, a: seq<Sql>, ta: Tree)
    requires IsArg(a, ta)
    ensures IsAtom([Fun(name), LP] + a + [RP], TCall(name, [ta]))
  {
    forall rest ensures Prefix([Fun(name), LP] + a + [RP] + rest) == Some((TCall(name, [ta]), rest)) {
      LastArgument(a, ta, rest);
      CallRead(name, a, [ta], rest);
    }
  }

  lemma {:induction false} TwoRead(a: seq<Sql>, ta: Tree, b: seq<Sql>, tb: Tree, rest: seq<Sql>)
    requires IsArg(a, ta) && IsArg(b, tb)
    ensures ReadArguments(a + [Sep] + b + ([RP] + rest)) == Some(([ta, tb], rest))
  {
    var last := b + ([RP] + rest);
    LastArgument(b, tb, rest);
    NextArgument(a, ta, last, [tb], rest);
    assert [ta] + [tb] == [ta, tb];
    assert a + [Sep] + b + ([RP] + rest) == a + ([Sep] + last);
  }

  lemma {:induction false} CallTwo(name: string, a: seq<Sql>, ta: Tree, b: seq<Sql>, tb: Tree)
    requires IsArg(a, ta) && IsArg(b, tb)
    ensures IsAtom([Fun(name), LP] + a + [Sep] + b + [RP], TCall(name, [ta, tb]))
  {
    var inside := a + [Sep] + b;
    assert [Fun(name), LP] + a + [Sep] + b + [RP] == [Fun(name), LP] + inside + [RP];
    forall rest ensures Prefix([Fun(name), LP] + inside + [RP] + rest) == Some((TCall(name, [ta, tb]), rest)) {
      TwoRead(a, ta, b, tb, rest);
      CallRead(name, inside, [ta, tb], rest);
    }
  }

  lemma {:induction false} ThreeRead(a: seq<Sql>, ta: Tree, b: seq<Sql>, tb: Tree, c: seq<Sql>, tc: Tree, rest: seq<Sql>)
    requires IsArg(a, ta) && IsArg(b, tb) && IsArg(c, tc)
    ensures ReadArguments(a + [Sep] + b + [Sep] + c + ([RP] + rest)) == Some(([ta, tb, tc], rest))
  {
    var last := c + ([RP] + rest);
    var middle := b + ([Sep] + last);
    LastArgument(c, tc, rest);
    NextArgument(b, tb, last, [tc], rest);
    NextArgument(a, ta, middle, [tb] + [tc], rest);
    assert [ta] + ([tb] + [tc]) == [ta, tb, tc];
    assert a + [Sep] + b + [Sep] + c + ([RP] + rest) == a + ([Sep] + middle);
  }

  lemma {:induction false} CallThree(name: string, a: seq<Sql>, ta: Tree, b: seq<Sql>, tb: Tree, c: seq<Sql>, tc: Tree)
    requires IsArg(a, ta) && IsArg(b, tb) && IsArg(c, tc)
    ensures IsAtom([Fun(name), LP] + a + [Sep] + b + [Sep] + c + [RP], TCall(name, [ta, tb, tc]))
  {
    var inside := a + [Sep] + b + [Sep] + c;
    assert [Fun(name), LP] + a + [Sep] + b + [Sep] + c + [RP] == [Fun(name), LP] + inside + [RP];
    forall rest ensures Prefix([Fun(name), LP] + inside + [RP] + rest) == Some((TCall(name, [ta, tb, tc]), rest)) {
      ThreeRead(a, ta, b, tb, c, tc, rest);
      CallRead(name, inside, [ta, tb, tc], rest);
    }
  }

  lemma {:induction false} CastAt(x: seq<Sql>, t: Tree, k: Keyword, rest: seq<Sql>)
    requires IsAtom(x, t)
    ensures Climb(x + ([Kw(KAs), Kw(k), RP] + rest), 1) == Some((t, [Kw(KAs), Kw(k), RP] + rest))
  {
    AtomAt(x, t, [Kw(KAs), Kw(k), RP] + rest, 1);
    LoopStops(t, [Kw(KAs), Kw(k), RP] + rest, 1);
  }

  lemma {:induction false} CastClosed(x: seq<Sql>, t: Tree, k: Keyword, rest: seq<Sql>)
    requires Climb(x + ([Kw(KAs), Kw(k), RP] + rest), 1) == Some((t, [Kw(KAs), Kw(k), RP] + rest))
    ensures Prefix([Kw(KCast), LP] + x + [Kw(KAs), Kw(k), RP] + rest) == Some((TCast(t, k), rest))
  {
    var after := [Kw(KAs), Kw(k), RP] + rest;
    assert ([Kw(KCast), LP] + x + [Kw(KAs), Kw(k), RP] + rest)[2..] == x + after;
    assert after[3..] == rest;
  }

  lemma {:induction false} CastRead(x: seq<Sql>, t: Tree, k: Keyword)
    requires IsAtom(x, t)
    ensures IsAtom([Kw(KCast), LP] + x + [Kw(KAs), Kw(k), RP], TCast(t, k))
  {
    forall rest ensures Prefix([Kw(KCast), LP] + x + [Kw(KAs), Kw(k), RP] + rest) == Some((TCast(t, k), rest)) {
      CastAt(x, t, k, rest);
      CastClosed(x, t, k, rest);
    }
  }

  // ----- templates, filled in -----

  function Tokens(pieces: seq<Piece>): (r: seq<Sql>)
    requires forall i :: 0 <= i < |pieces| ==> pieces[i].T?
    ensures |r| == |pieces|
  {
    seq(|pieces|, i requires 0 <= i < |pieces| => pieces[i].token)
  }

  lemma {:induction false} ExpandAppend(p: seq<Piece>, q: seq<Piece>, args: seq<seq<Sql>>)
    requires PiecesFit(p, |args|) && PiecesFit(q, |args|)
    ensures PiecesFit(p + q, |args|) && Expand(p + q, args) == Expand(p, args) + Expand(q, args)
  {
    if p == [] {
      assert p + q == q;
    } else {
      ExpandAppend(p[1..], q, args);
      assert (p + q)[1..] == p[1..] + q;
    }
  }

  predicate AllTokens(p: seq<Piece>) {
    forall i :: 0 <= i < |p| ==> p[i].T?
  }

  lemma {:induction false} ExpandTokens(p: seq<Piece>, args: seq<seq<Sql>>)
    requires AllTokens(p)
    ensures PiecesFit(p, |args|) && Expand(p, args) == Tokens(p)
  {
    if p != [] {
      ExpandTokens(p[1..], args);
      assert Tokens(p) == [p[0].token] + Tokens(p[1..]);
    }
  }

  lemma {:induction false} ExpandArg(i: nat, args: seq<seq<Sql>>)
    requires i < |args|
    ensures PiecesFit([A(i)], |args|) && Expand([A(i)], args) == args[i]
  {
    assert [A(i)][1..] == [];
    assert args[i] + [] == args[i];
  }

  /** One argument between tokens. */
  lemma {:induction false} ExpandOne(p: seq<Piece>, i: nat, q: seq<Piece>, args: seq<seq<Sql>>)
    requires AllTokens(p) && AllTokens(q) && i < |args|
    ensures PiecesFit(p + [A(i)] + q, |args|)
    ensures Expand(p + [A(i)] + q, args) == Tokens(p) + args[i] + Tokens(q)
  {
    ExpandTokens(p, args);
    ExpandArg(i, args);
    ExpandTokens(q, args);
    ExpandAppend(p, [A(i)], args);
    ExpandAppend(p + [A(i)], q, args);
  }

  lemma {:induction false} ExpandTwo(p: seq<Piece>, i: nat, q: seq<Piece>, j: nat, r: seq<Piece>, args: seq<seq<Sql>>)
    requires AllTokens(p) && AllTokens(q) && AllTokens(r) && i < |args| && j < |args|
    ensures PiecesFit(p + [A(i)] + q + [A(j)] + r, |args|)
    ensures Expand(p + [A(i)] + q + [A(j)] + r, args) == Tokens(p) + args[i] + Tokens(q) + args[j] + Tokens(r)
  {
    ExpandOne(p, i, q, args);
    ExpandArg(j, args);
    ExpandTokens(r, args);
    ExpandAppend(p + [A(i)] + q, [A(j)], args);
    ExpandAppend(p + [A(i)] + q + [A(j)], r, args);
  }

  lemma {:induction false} ExpandThree(p: seq<Piece>, i: nat, q: seq<Piece>, j: nat, r: seq<Piece>, k: nat, s: seq<Piece>, args: seq<seq<Sql>>)
    requires AllTokens(p) && AllTokens(q) && AllTokens(r) && AllTokens(s) && i < |args| && j < |args| && k < |args|
    ensures PiecesFit(p + [A(i)] + q + [A(j)] + r + [A(k)] + s, |args|)
    ensures Expand(p + [A(i)] + q + [A(j)] + r + [A(k)] + s, args)
         == Tokens(p) + args[i] + Tokens(q) + args[j] + Tokens(r) + args[k] + Tokens(s)
  {
    ExpandTwo(p, i, q, j, r, args);
    ExpandArg(k, args);
    ExpandTokens(s, args);
    ExpandAppend(p + [A(i)] + q + [A(j)] + r, [A(k)], args);
    ExpandAppend(p + [A(i)] + q + [A(j)] + r + [A(k)], s, args);
  }

  // ----- every function's template is read as its call -----

  ghost predicate AllAtoms(xs: seq<seq<Sql>>, ts: seq<Tree>) {
    |xs| == |ts| && forall i :: 0 <= i < |xs| ==> IsAtom(xs[i], ts[i])
  }

  function Filled(fn: Fn, xs: seq<seq<Sql>>): seq<Sql>
    requires TakesArgs(fn, |xs|)
  {
    TemplateFits(fn, |xs|);
    Expand(Template(fn, |xs|), xs)
  }

  lemma {:induction false} UnaryRead(fn: Fn, name: string, xs: seq<seq<Sql>>, ts: seq<Tree>)
    requires |xs| == 1 && AllAtoms(xs, ts) && TakesArgs(fn, 1)
    requires Template(fn, 1) == [T(Fun(name)), T(LP), A(0), T(RP)]
    ensures IsAtom(Filled(fn, xs), TCall(name, [ts[0]]))
  {
    ExpandOne([T(Fun(name)), T(LP)], 0, [T(RP)], xs);
    assert Template(fn, 1) == [T(Fun(name)), T(LP)] + [A(0)] + [T(RP)];
    assert Tokens([T(Fun(name)), T(LP)]) == [Fun(name), LP] && Tokens([T(RP)]) == [RP];
    AtomIsArg(xs[0], ts[0]);
    CallOne(name, xs[0], ts[0]);
  }

  lemma {:induction false} DatePartFilled(format: string, xs: seq<seq<Sql>>)
    requires |xs| == 1
    ensures Filled(DatePart(format), xs)
         == [Kw(KCast), LP] + ([Fun("strftime"), LP] + [Lit(Words(format))] + [Sep] + xs[0] + [RP]) + [Kw(KAs), Kw(KInteger), RP]
  {
    var p := [T(Kw(KCast)), T(LP), T(Fun("strftime")), T(LP), T(Lit(Words(format))), T(Sep)];
    var q := [T(RP), T(Kw(KAs)), T(Kw(KInteger)), T(RP)];
    ExpandOne(p, 0, q, xs);
    assert Template(DatePart(format), 1) == p + [A(0)] + q;
    assert Tokens(p) == [Kw(KCast), LP, Fun("strftime"), LP, Lit(Words(format)), Sep];
    assert Tokens(q) == [RP, Kw(KAs), Kw(KInteger), RP];
  }

  lemma {:induction false} DatePartRead(format: string, xs: seq<seq<Sql>>, ts: seq<Tree>)
    requires |xs| == 1 && AllAtoms(xs, ts)
    ensures IsAtom(Filled(DatePart(format), xs), CallTree(DatePart(format), ts))
  {
    var literal := [Lit(Words(format))];
    OneToken(Lit(Words(format)), TLit(Words(format)));
    AtomIsArg(literal, TLit(Words(format)));
    AtomIsArg(xs[0], ts[0]);
    CallTwo("strftime", literal, TLit(Words(format)), xs[0], ts[0]);
    CastRead([Fun("strftime"), LP] + literal + [Sep] + xs[0] + [RP], TCall("strftime", [TLit(Words(format)), ts[0]]), KInteger);
    DatePartFilled(format, xs);
  }

  lemma {:induction false} InstrRead(a: seq<Sql>, ta: Tree, b: seq<Sql>, tb: Tree)
    requires IsAtom(a, ta) && IsAtom(b, tb)
    ensures IsAtom([Fun("instr"), LP] + a + [Sep] + b + [RP], TCall("instr", [ta, tb]))
  {
    AtomIsArg(a, ta);
    AtomIsArg(b, tb);
    CallTwo("instr", a, ta, b, tb);
  }

  lemma {:induction false} InstrCompared(fn: Fn, i: nat, j: nat, op: Operator, n: Sql, tn: Tree, xs: seq<seq<Sql>>, ts: seq<Tree>)
    requires |xs| == 2 && AllAtoms(xs, ts) && TakesArgs(fn, 2) && i < 2 && j < 2
    requires n.Lit? && tn == TLit(n.v) && (op == Greater || op == Equal)
    requires Template(fn, 2) == [T(Fun("instr")), T(LP), A(i), T(Sep), A(j), T(RP), T(Op(op)), T(n)]
    ensures IsCond(Filled(fn, xs), TBin(Op(op), TCall("instr", [ts[i], ts[j]]), tn))
  {
    var p, r := [T(Fun("instr")), T(LP)], [T(RP), T(Op(op)), T(n)];
    ExpandTwo(p, i, [T(Sep)], j, r, xs);
    assert Template(fn, 2) == p + [A(i)] + [T(Sep)] + [A(j)] + r;
    assert Tokens(p) == [Fun("instr"), LP] && Tokens([T(Sep)]) == [Sep] && Tokens(r) == [RP, Op(op), n];
    InstrRead(xs[i], ts[i], xs[j], ts[j]);
    OneToken(n, tn);
    var call := [Fun("instr"), LP] + xs[i] + [Sep] + xs[j] + [RP];
    AtomsCompared(call, Op(op), [n], TCall("instr", [ts[i], ts[j]]), tn);
    assert call + [Op(op)] + [n] == Tokens(p) + xs[i] + Tokens([T(Sep)]) + xs[j] + Tokens(r);
  }

  lemma {:induction false} IndexOfRead(xs: seq<seq<Sql>>, ts: seq<Tree>)
    requires |xs| == 2 && AllAtoms(xs, ts)
    ensures IsAtom(Filled(IndexOf, xs), CallTree(IndexOf, ts))
  {
    var p, r := [T(LP), T(Fun("instr")), T(LP)], [T(RP), T(Op(Minus)), T(ONE), T(RP)];
    ExpandTwo(p, 0, [T(Sep)], 1, r, xs);
    assert Template(IndexOf, 2) == p + [A(0)] + [T(Sep)] + [A(1)] + r;
    assert Tokens(p) == [LP, Fun("instr"), LP] && Tokens([T(Sep)]) == [Sep] && Tokens(r) == [RP, Op(Minus), ONE, RP];
    InstrRead(xs[0], ts[0], xs[1], ts[1]);
    OneToken(ONE, TOne());
    var call := [Fun("instr"), LP] + xs[0] + [Sep] + xs[1] + [RP];
    AtomsInParens(call, Op(Minus), [ONE], TCall("instr", [ts[0], ts[1]]), TOne());
    assert [LP] + call + [Op(Minus)] + [ONE] + [RP] == Tokens(p) + xs[0] + Tokens([T(Sep)]) + xs[1] + Tokens(r);
  }

  lemma {:induction false} ConcatRead(xs: seq<seq<Sql>>, ts: seq<Tree>)
    requires |xs| == 2 && AllAtoms(xs, ts)
    ensures IsAtom(Filled(Concat, xs), CallTree(Concat, ts))
  {
    ExpandTwo([T(LP)], 0, [T(Op(Join))], 1, [T(RP)], xs);
    assert Template(Concat, 2) == [T(LP)] + [A(0)] + [T(Op(Join))] + [A(1)] + [T(RP)];
    assert Tokens([T(LP)]) == [LP] && Tokens([T(Op(Join))]) == [Op(Join)] && Tokens([T(RP)]) == [RP];
    AtomsInParens(xs[0], Op(Join), xs[1], ts[0], ts[1]);
  }

  lemma {:induction false} SubstringRead(xs: seq<seq<Sql>>, ts: seq<Tree>)
    requires |xs| == 2 && AllAtoms(xs, ts)
    ensures IsAtom(Filled(Substring, xs), CallTree(Substring, ts))
  {
    var p, r := [T(Fun("substr")), T(LP)], [T(Op(Plus)), T(ONE), T(RP)];
    ExpandTwo(p, 0, [T(Sep)], 1, r, xs);
    assert Template(Substring, 2) == p + [A(0)] + [T(Sep)] + [A(1)] + r;
    assert Tokens(p) == [Fun("substr"), LP] && Tokens([T(Sep)]) == [Sep] && Tokens(r) == [Op(Plus), ONE, RP];
    AtomIsArg(xs[0], ts[0]);
    PlusOneIsArg(xs[1], ts[1]);
    CallTwo("substr", xs[0], ts[0], xs[1] + [Op(Plus), ONE], TBin(Op(Plus), ts[1], TOne()));
    assert [Fun("substr"), LP] + xs[0] + [Sep] + (xs[1] + [Op(Plus), ONE]) + [RP]
        == Tokens(p) + xs[0] + Tokens([T(Sep)]) + xs[1] + Tokens(r);
  }

  lemma {:induction false} SubstringOfLengthFilled(xs: seq<seq<Sql>>)
    requires |xs| == 3
    ensures Filled(Substring, xs) == [Fun("substr"), LP] + xs[0] + [Sep] + (xs[1] + [Op(Plus), ONE]) + [Sep] + xs[2] + [RP]
  {
    var p, r := [T(Fun("substr")), T(LP)], [T(Op(Plus)), T(ONE), T(Sep)];
    ExpandThree(p, 0, [T(Sep)], 1, r, 2, [T(RP)], xs);
    assert Template(Substring, 3) == p + [A(0)] + [T(Sep)] + [A(1)] + r + [A(2)] + [T(RP)];
    assert Tokens(p) == [Fun("substr"), LP] && Tokens([T(Sep)]) == [Sep] && Tokens(r) == [Op(Plus), ONE, Sep];
    assert Tokens([T(RP)]) == [RP];
  }

  lemma {:induction false} SubstringOfLengthRead(xs: seq<seq<Sql>>, ts: seq<Tree>)
    requires |xs| == 3 && AllAtoms(xs, ts)
    ensures IsAtom(Filled(Substring, xs), CallTree(Substring, ts))
  {
    AtomIsArg(xs[0], ts[0]);
    PlusOneIsArg(xs[1], ts[1]);
    AtomIsArg(xs[2], ts[2]);
    CallThree("substr", xs[0], ts[0], xs[1] + [Op(Plus), ONE], TBin(Op(Plus), ts[1], TOne()), xs[2], ts[2]);
    SubstringOfLengthFilled(xs);
  }

  lemma {:induction false} LastOfRead(x: seq<Sql>, t: Tree, y: seq<Sql>, u: Tree)
    requires IsAtom(x, t) && IsAtom(y, u)
    ensures IsAtom([Fun("substr"), LP] + x + [Sep] + ([Op(Minus)] + ([Fun("length"), LP] + y + [RP])) + [RP],
                   TCall("substr", [t, TNeg(TCall("length", [u]))]))
  {
    var length := [Fun("length"), LP] + y + [RP];
    AtomIsArg(x, t);
    AtomIsArg(y, u);
    CallOne("length", y, u);
    NegatedIsArg(length, TCall("length", [u]));
    CallTwo("substr", x, t, [Op(Minus)] + length, TNeg(TCall("length", [u])));
  }

  lemma {:induction false} EndsWithRead(xs: seq<seq<Sql>>, ts: seq<Tree>)
    requires |xs| == 2 && AllAtoms(xs, ts)
    ensures IsCond(Filled(EndsWith, xs), CallTree(EndsWith, ts))
  {
    hide Prefix, Expand;
    var p, q := [T(Fun("substr")), T(LP)], [T(Sep), T(Op(Minus)), T(Fun("length")), T(LP)];
    var r := [T(RP), T(RP), T(Op(Equal))];
    ExpandThree(p, 0, q, 1, r, 1, [], xs);
    assert Template(EndsWith, 2) == p + [A(0)] + q + [A(1)] + r + [A(1)] + [];
    assert Tokens(p) == [Fun("substr"), LP] && Tokens(q) == [Sep, Op(Minus), Fun("length"), LP];
    assert Tokens(r) == [RP, RP, Op(Equal)] && Tokens([]) == [];
    LastOfRead(xs[0], ts[0], xs[1], ts[1]);
    var call := [Fun("substr"), LP] + xs[0] + [Sep] + ([Op(Minus)] + ([Fun("length"), LP] + xs[1] + [RP])) + [RP];
    AtomsCompared(call, Op(Equal), xs[1], TCall("substr", [ts[0], TNeg(TCall("length", [ts[1]]))]), ts[1]);
    assert call + [Op(Equal)] + xs[1] == Tokens(p) + xs[0] + Tokens(q) + xs[1] + Tokens(r) + xs[1] + Tokens([]);
  }

  lemma {:induction false} ValueCallRead(fn: Fn, xs: seq<seq<Sql>>, ts: seq<Tree>)
    requires AllAtoms(xs, ts) && TakesArgs(fn, |xs|) && !IsBoolFn(fn)
    ensures IsAtom(Filled(fn, xs), CallTree(fn, ts))
  {
    match fn {
      case IndexOf => IndexOfRead(xs, ts);
      case ToLower => UnaryRead(fn, "lower", xs, ts);
      case ToUpper => UnaryRead(fn, "upper", xs, ts);
      case Trim => UnaryRead(fn, "trim", xs, ts);
      case Length => UnaryRead(fn, "length", xs, ts);
      case Concat => ConcatRead(xs, ts);
      case Substring =>
        if |xs| == 2 {
          SubstringRead(xs, ts);
        } else {
          SubstringOfLengthRead(xs, ts);
        }
      case DatePart(format) => DatePartRead(format, xs, ts);
      case _ =>
    }
  }

  lemma {:induction false} BoolCallRead(fn: Fn, xs: seq<seq<Sql>>, ts: seq<Tree>)
    requires AllAtoms(xs, ts) && TakesArgs(fn, |xs|) && IsBoolFn(fn)
    ensures IsCond(Filled(fn, xs), CallTree(fn, ts))
  {
    match fn {
      case SubstringOf => InstrCompared(fn, 1, 0, Greater, ZERO, TZero(), xs, ts);
      case Containing => InstrCompared(fn, 0, 1, Greater, ZERO, TZero(), xs, ts);
      case StartsWith => InstrCompared(fn, 0, 1, Equal, ONE, TOne(), xs, ts);
      case EndsWith => EndsWithRead(xs, ts);
      case _ =>
    }
  }

  // ----- the whole filter -----

  ghost predicate ReadsBack(e: Expr)
    requires Shaped(e)
  {
    && (Operand(e) ==> IsAtom(Render(e, false), TreeOf(e)))
    && (Cond(e) ==> IsCond(Render(e, false), TreeOf(e)))
  }

  lemma {:induction false} CallReadsBack(fn: Fn, args: seq<Expr>)
    requires Shaped(Call(fn, args)) && forall i :: 0 <= i < |args| ==> Operand(args[i]) && ReadsBack(args[i])
    ensures ReadsBack(Call(fn, args))
  {
    var xs := seq(|args|, i requires 0 <= i < |args| => Render(args[i], false));
    var ts := seq(|args|, i requires 0 <= i < |args| => TreeOf(args[i]));
    assert AllAtoms(xs, ts);
    assert Render(Call(fn, args), false) == Filled(fn, xs);
    if IsBoolFn(fn) {
      BoolCallRead(fn, xs, ts);
    } else {
      ValueCallRead(fn, xs, ts);
    }
  }

  lemma {:induction false} ColumnReadsBack(name: string, decimal: bool)
    ensures IsAtom(ColumnSql(name, decimal), TreeOf(Column(name, decimal)))
  {
    OneToken(Col(name), TCol(name));
    if decimal {
      CastRead([Col(name)], TCol(name), KReal);
      assert [Kw(KCast), LP] + [Col(name)] + [Kw(KAs), Kw(KReal), RP] == ColumnSql(name, decimal);
    }
  }

  lemma {:induction false} CompareReadsBack(cmp: Cmp, l: Expr, r: Expr)
    requires Shaped(l) && Shaped(r) && Operand(l) && Operand(r) && ReadsBack(l) && ReadsBack(r)
    ensures IsCond(Render(Compare(cmp, l, r), false), TreeOf(Compare(cmp, l, r)))
  {
    if r.NullLit? {
      NullTested(Render(l, false), TreeOf(l), cmp);
    } else if l.NullLit? {
      NullTested(Render(r, false), TreeOf(r), cmp);
    } else {
      AtomsCompared(Render(l, false), Op(CmpSql(cmp)), Render(r, false), TreeOf(l), TreeOf(r));
    }
  }

  lemma {:induction false} NonZeroReadsBack(x: Expr)
    requires Shaped(x) && Operand(x) && ReadsBack(x)
    ensures IsCond(Render(NonZero(x), false), TreeOf(NonZero(x)))
  {
    OneToken(ZERO, TZero());
    AtomsCompared(Render(x, false), Op(Unequal), [ZERO], TreeOf(x), TZero());
    assert Render(x, false) + [Op(Unequal)] + [ZERO] == Render(NonZero(x), false);
  }

  /** The SQL of every condition, its literals filled in, is read as the tree that was meant,
      wherever in a larger condition it stands. */
  lemma {:induction false} AllReadBack(e: Expr)
    requires Shaped(e)
    ensures ReadsBack(e)
  {
    if !Operand(e) && !Cond(e) {
      return;
    }
    match e {
      case Const(v) => OneToken(Lit(v), TLit(v));
      case NullLit => OneToken(Kw(KNull), TNull);
      case Column(name, decimal) => ColumnReadsBack(name, decimal);
      case Paren(c) =>
        AllReadBack(c);
        CondInParens(Render(c, false), TreeOf(c));
        AtomIsCond(Render(e, false), TreeOf(e));
      case Calc(op, l, r) =>
        AllReadBack(l);
        AllReadBack(r);
        AtomsInParens(Render(l, false), Op(ArithSql(op)), Render(r, false), TreeOf(l), TreeOf(r));
      case Call(fn, args) =>
        forall i | 0 <= i < |args| ensures ReadsBack(args[i]) {
          AllReadBack(args[i]);
        }
        CallReadsBack(fn, args);
      case Compare(cmp, l, r) =>
        AllReadBack(l);
        AllReadBack(r);
        CompareReadsBack(cmp, l, r);
      case NonZero(x) =>
        AllReadBack(x);
        NonZeroReadsBack(x);
      case Not(c) =>
        AllReadBack(c);
        NotInParens(Render(c, false), TreeOf(c));
        AtomIsCond(Render(e, false), TreeOf(e));
      case And(l, r) =>
        AllReadBack(l);
        AllReadBack(r);
        CondsInParens(Render(l, false), KAnd, Render(r, false), TreeOf(l), TreeOf(r));
        AtomIsCond(Render(e, false), TreeOf(e));
      case Or(l, r) =>
        AllReadBack(l);
        AllReadBack(r);
        CondsInParens(Render(l, false), KOr, Render(r, false), TreeOf(l), TreeOf(r));
        AtomIsCond(Render(e, false), TreeOf(e));
    }
  }

  /** As the whole of a where clause. */
  lemma {:induction false} ConditionReadBack(e: Expr)
    requires Cond(e) && Shaped(e)
    ensures ReadSql(Render(e, false)) == Some(TreeOf(e))
  {
    AllReadBack(e);
    CondAt(Render(e, false), TreeOf(e), [], 1);
    LoopStops(TreeOf(e), [], 1);
    assert Render(e, false) + [] == Render(e, false);
  }
}
