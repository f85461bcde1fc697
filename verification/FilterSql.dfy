/** The SQL a filter becomes: a fragment for every expression, with the values it binds, one for
    each mark and in the order of the marks. */
module FilterSql {
  import opened Common
  import opened FilterSyntax

  datatype Keyword = KOr | KAnd | KNot | KIs | KNull | KCast | KAs | KReal | KInteger

  datatype Operator =
    | Equal | Unequal | Greater | AtLeast | Below | AtMost
    | Plus | Minus | Times | Over | Remainder | Join

  /** A token of the SQL; a literal is one written into it, a mark stands for a bound value. */
  datatype Sql = LP | RP | Sep | Mark | Lit(v: Value) | Kw(k: Keyword) | Op(o: Operator) | Col(name: string) | Fun(name: string)

  /** A fragment with the values it consumes. */
  datatype Frag = Frag(sql: seq<Sql>, params: seq<Value>, isBool: bool)

  function CmpSql(cmp: Cmp): Operator {
    match cmp
    case Eq => Equal
    case Ne => Unequal
    case Gt => Greater
    case Ge => AtLeast
    case Lt => Below
    case Le => AtMost
  }

  function ArithSql(op: Arith): Operator {
    match op
    case Add => Plus
    case Sub => Minus
    case Mul => Times
    case Div => Over
    case Mod => Remainder
  }

  const ZERO := Lit(Number(0.0))
  const ONE := Lit(Number(1.0))

  /** A piece of a function's template: a token of its own, or one of its arguments. */
  datatype Piece = T(token: Sql) | A(index: nat)

  function Template(fn: Fn, n: nat): seq<Piece> {
    match fn
    case SubstringOf => [T(Fun("instr")), T(LP), A(1), T(Sep), A(0), T(RP), T(Op(Greater)), T(ZERO)]
    case Containing => [T(Fun("instr")), T(LP), A(0), T(Sep), A(1), T(RP), T(Op(Greater)), T(ZERO)]
    case StartsWith => [T(Fun("instr")), T(LP), A(0), T(Sep), A(1), T(RP), T(Op(Equal)), T(ONE)]
    case EndsWith => [T(Fun("substr")), T(LP), A(0), T(Sep), T(Op(Minus)), T(Fun("length")), T(LP), A(1), T(RP), T(RP),
                      T(Op(Equal)), A(1)]
    case IndexOf => [T(LP), T(Fun("instr")), T(LP), A(0), T(Sep), A(1), T(RP), T(Op(Minus)), T(ONE), T(RP)]
    case ToLower => [T(Fun("lower")), T(LP), A(0), T(RP)]
    case ToUpper => [T(Fun("upper")), T(LP), A(0), T(RP)]
    case Trim => [T(Fun("trim")), T(LP), A(0), T(RP)]
    case Length => [T(Fun("length")), T(LP), A(0), T(RP)]
    case Concat => [T(LP), A(0), T(Op(Join)), A(1), T(RP)]
    case Substring =>
      if n == 2 then [T(Fun("substr")), T(LP), A(0), T(Sep), A(1), T(Op(Plus)), T(ONE), T(RP)]
      else [T(Fun("substr")), T(LP), A(0), T(Sep), A(1), T(Op(Plus)), T(ONE), T(Sep), A(2), T(RP)]
    case DatePart(format) => [T(Kw(KCast)), T(LP), T(Fun("strftime")), T(LP), T(Lit(Words(format))), T(Sep), A(0), T(RP),
                              T(Kw(KAs)), T(Kw(KInteger)), T(RP)]
  }

  predicate PiecesFit(pieces: seq<Piece>, n: nat) {
    forall i :: 0 <= i < |pieces| && pieces[i].A? ==> pieces[i].index < n
  }

  lemma {:induction false} TemplateFits(fn: Fn, n: nat)
    requires TakesArgs(fn, n)
    ensures PiecesFit(Template(fn, n), n)
  {
  }

  /** The template with the arguments' SQL in it. */
  function Expand(pieces: seq<Piece>, args: seq<seq<Sql>>): seq<Sql>
    requires PiecesFit(pieces, |args|)
  {
    if |pieces| == 0 then []
    else (match pieces[0] case T(token) => [token] case A(i) => args[i]) + Expand(pieces[1..], args)
  }

  /** Their values, in the order the template names them. */
  function Gather(pieces: seq<Piece>, params: seq<seq<Value>>): seq<Value>
    requires PiecesFit(pieces, |params|)
  {
    if |pieces| == 0 then []
    else (match pieces[0] case T(token) => [] case A(i) => params[i]) + Gather(pieces[1..], params)
  }

  function ColumnSql(name: string, decimal: bool): seq<Sql> {
    if decimal then [Kw(KCast), LP, Col(name), Kw(KAs), Kw(KReal), RP] else [Col(name)]
  }

  function NullTest(cmp: Cmp): seq<Sql> {
    if cmp == Eq then [Kw(KIs), Kw(KNull)] else [Kw(KIs), Kw(KNot), Kw(KNull)]
  }

  /** The SQL of an expression: with a mark for each literal of the filter, or with the literal. */
  function Render(e: Expr, marked: bool): seq<Sql>
    requires Shaped(e)
  {
    match e
    case Const(v) => if marked then [Mark] else [Lit(v)]
    case NullLit => [Kw(KNull)]
    case Column(name, decimal) => ColumnSql(name, decimal)
    case Paren(inner) => [LP] + Render(inner, marked) + [RP]
    case Calc(op, l, r) => [LP] + Render(l, marked) + [Op(ArithSql(op))] + Render(r, marked) + [RP]
    case Call(fn, args) =>
      TemplateFits(fn, |args|);
      Expand(Template(fn, |args|), seq(|args|, i requires 0 <= i < |args| => Render(args[i], marked)))
    case Compare(cmp, l, r) =>
      if r.NullLit? then Render(l, marked) + NullTest(cmp)
      else if l.NullLit? then Render(r, marked) + NullTest(cmp)
      else Render(l, marked) + [Op(CmpSql(cmp))] + Render(r, marked)
    case NonZero(x) => Render(x, marked) + [Op(Unequal), ZERO]
    case Not(x) => [LP, Kw(KNot)] + Render(x, marked) + [RP]
    case And(l, r) => [LP] + Render(l, marked) + [Kw(KAnd)] + Render(r, marked) + [RP]
    case Or(l, r) => [LP] + Render(l, marked) + [Kw(KOr)] + Render(r, marked) + [RP]
  }

  function Params(e: Expr): seq<Value>
    requires Shaped(e)
  {
    match e
    case Const(v) => [v]
    case NullLit => []
    case Column(_, _) => []
    case Paren(inner) => Params(inner)
    case Calc(_, l, r) => Params(l) + Params(r)
    case Call(fn, args) =>
      TemplateFits(fn, |args|);
      Gather(Template(fn, |args|), seq(|args|, i requires 0 <= i < |args| => Params(args[i])))
    case Compare(_, l, r) =>
      if r.NullLit? then Params(l) else if l.NullLit? then Params(r) else Params(l) + Params(r)
    case NonZero(x) => Params(x)
    case Not(x) => Params(x)
    case And(l, r) => Params(l) + Params(r)
    case Or(l, r) => Params(l) + Params(r)
  }

  function Compiled(e: Expr): Frag
    requires Shaped(e)
  {
    Frag(Render(e, true), Params(e), IsBool(e))
  }

  // ----- one value for each mark, in order -----

  function Marks(sql: seq<Sql>): nat {
    if |sql| == 0 then 0 else (if sql[0] == Mark then 1 else 0) + Marks(sql[1..])
  }

  /** The SQL as it runs: each mark replaced by the next value. */
  function Fill(sql: seq<Sql>, params: seq<Value>): seq<Sql> {
    if |sql| == 0 then []
    else if sql[0] == Mark && |params| > 0 then [Lit(params[0])] + Fill(sql[1..], params[1..])
    else [sql[0]] + Fill(sql[1..], params)
  }

  /** A fragment binds a value for each of its marks, and filled in it is `shown`. */
  ghost predicate Binds(sql: seq<Sql>, params: seq<Value>, shown: seq<Sql>) {
    Marks(sql) == |params| && Fill(sql, params) == shown
  }

  lemma {:induction false} BindsJoined(s: seq<Sql>, p: seq<Value>, u: seq<Sql>, t: seq<Sql>, q: seq<Value>, v: seq<Sql>)
    requires Binds(s, p, u) && Binds(t, q, v)
    ensures Binds(s + t, p + q, u + v)
    decreases |s|
  {
    if |s| == 0 {
      assert s + t == t && p + q == q && u + v == v;
    } else {
      assert (s + t)[1..] == s[1..] + t;
      if s[0] == Mark {
        assert (p + q)[1..] == p[1..] + q;
        BindsJoined(s[1..], p[1..], u[1..], t, q, v);
        assert u + v == [u[0]] + (u[1..] + v);
      } else {
        BindsJoined(s[1..], p, u[1..], t, q, v);
        assert u + v == [u[0]] + (u[1..] + v);
      }
    }
  }

  ghost predicate NoMark(s: seq<Sql>) {
    forall i :: 0 <= i < |s| ==> s[i] != Mark
  }

  lemma {:induction false} BindsNothing(s: seq<Sql>)
    requires NoMark(s)
    ensures Binds(s, [], s)
  {
    if |s| > 0 {
      BindsNothing(s[1..]);
      assert s == [s[0]] + s[1..];
    }
  }

  lemma {:induction false} BindsAfter(s: seq<Sql>, t: seq<Sql>, q: seq<Value>, v: seq<Sql>)
    requires NoMark(s) && Binds(t, q, v)
    ensures Binds(s + t, q, s + v)
  {
    BindsNothing(s);
    BindsJoined(s, [], s, t, q, v);
    assert [] + q == q;
  }

  lemma {:induction false} BindsBefore(s: seq<Sql>, p: seq<Value>, u: seq<Sql>, t: seq<Sql>)
    requires NoMark(t) && Binds(s, p, u)
    ensures Binds(s + t, p, u + t)
  {
    BindsNothing(t);
    BindsJoined(s, p, u, t, [], t);
    assert p + [] == p;
  }

  lemma {:induction false} BindsBetween(a: seq<Sql>, s: seq<Sql>, p: seq<Value>, u: seq<Sql>, z: seq<Sql>)
    requires NoMark(a) && NoMark(z) && Binds(s, p, u)
    ensures Binds(a + s + z, p, a + u + z)
  {
    BindsAfter(a, s, p, u);
    BindsBefore(a + s, p, a + u, z);
  }

  lemma {:induction false} BindsTwo(a: seq<Sql>, s: seq<Sql>, p: seq<Value>, u: seq<Sql>, m: seq<Sql>, t: seq<Sql>, q: seq<Value>, v: seq<Sql>, z: seq<Sql>)
    requires NoMark(a) && NoMark(m) && NoMark(z) && Binds(s, p, u) && Binds(t, q, v)
    ensures Binds(a + s + m + t + z, p + q, a + u + m + v + z)
  {
    BindsBetween(a, s, p, u, m);
    BindsJoined(a + s + m, p, a + u + m, t, q, v);
    BindsBefore(a + s + m + t, p + q, a + u + m + v, z);
  }

  ghost predicate AllBind(sqls: seq<seq<Sql>>, params: seq<seq<Value>>, shown: seq<seq<Sql>>) {
    |sqls| == |params| == |shown| && forall i :: 0 <= i < |sqls| ==> Binds(sqls[i], params[i], shown[i])
  }

  /** However a template repeats or reorders its arguments, their values go with them. */
  lemma {:induction false} TemplateBinds(pieces: seq<Piece>, sqls: seq<seq<Sql>>, params: seq<seq<Value>>, shown: seq<seq<Sql>>)
    requires AllBind(sqls, params, shown) && PiecesFit(pieces, |sqls|)
    requires forall i :: 0 <= i < |pieces| && pieces[i].T? ==> pieces[i].token != Mark
    ensures Binds(Expand(pieces, sqls), Gather(pieces, params), Expand(pieces, shown))
  {
    if |pieces| > 0 {
      TemplateBinds(pieces[1..], sqls, params, shown);
      match pieces[0] {
        case T(token) =>
          assert Gather(pieces, params) == Gather(pieces[1..], params);
          assert Expand(pieces, sqls) == [token] + Expand(pieces[1..], sqls);
          assert Expand(pieces, shown) == [token] + Expand(pieces[1..], shown);
          BindsAfter([token], Expand(pieces[1..], sqls), Gather(pieces[1..], params), Expand(pieces[1..], shown));
        case A(i) =>
          BindsJoined(sqls[i], params[i], shown[i],
                      Expand(pieces[1..], sqls), Gather(pieces[1..], params), Expand(pieces[1..], shown));
      }
    }
  }

  ghost predicate ExprBinds(e: Expr)
    requires Shaped(e)
  {
    Binds(Render(e, true), Params(e), Render(e, false))
  }

  lemma {:induction false} CallBinds(fn: Fn, args: seq<Expr>)
    requires Shaped(Call(fn, args)) && forall i :: 0 <= i < |args| ==> ExprBinds(args[i])
    ensures ExprBinds(Call(fn, args))
  {
    TemplateFits(fn, |args|);
    var sqls := seq(|args|, i requires 0 <= i < |args| => Render(args[i], true));
    var params := seq(|args|, i requires 0 <= i < |args| => Params(args[i]));
    var shown := seq(|args|, i requires 0 <= i < |args| => Render(args[i], false));
    TemplateHasNoMark(fn, |args|);
    TemplateBinds(Template(fn, |args|), sqls, params, shown);
  }

  lemma {:induction false} TemplateHasNoMark(fn: Fn, n: nat)
    ensures forall i :: 0 <= i < |Template(fn, n)| && Template(fn, n)[i].T? ==> Template(fn, n)[i].token != Mark
  {
  }

  lemma {:induction false} PairBinds(a: seq<Sql>, l: Expr, m: seq<Sql>, r: Expr, z: seq<Sql>)
    requires Shaped(l) && Shaped(r) && ExprBinds(l) && ExprBinds(r) && NoMark(a) && NoMark(m) && NoMark(z)
    ensures Binds(a + Render(l, true) + m + Render(r, true) + z, Params(l) + Params(r),
                  a + Render(l, false) + m + Render(r, false) + z)
  {
    BindsTwo(a, Render(l, true), Params(l), Render(l, false), m, Render(r, true), Params(r), Render(r, false), z);
  }

  /** Every filter binds exactly one value for each mark in its SQL; put in, in order, they give the
      SQL with each literal where the filter has it - twice where it is used twice, and the
      other way round where the arguments are. */
  lemma {:induction false} FilterBinds(e: Expr)
    requires Shaped(e)
    ensures ExprBinds(e)
  {
    match e {
      case Const(v) =>
        assert Fill([Mark], [v]) == [Lit(v)] + Fill([], []);
      case NullLit => BindsNothing(Render(e, true));
      case Column(name, decimal) => BindsNothing(ColumnSql(name, decimal));
      case Paren(inner) =>
        FilterBinds(inner);
        BindsBetween([LP], Render(inner, true), Params(inner), Render(inner, false), [RP]);
      case Calc(op, l, r) =>
        FilterBinds(l);
        FilterBinds(r);
        PairBinds([LP], l, [Op(ArithSql(op))], r, [RP]);
      case Call(fn, args) =>
        forall i | 0 <= i < |args| ensures ExprBinds(args[i]) {
          FilterBinds(args[i]);
        }
        CallBinds(fn, args);
      case Compare(cmp, l, r) =>
        FilterBinds(l);
        FilterBinds(r);
        CompareBinds(cmp, l, r);
      case NonZero(x) =>
        FilterBinds(x);
        BindsBefore(Render(x, true), Params(x), Render(x, false), [Op(Unequal), ZERO]);
      case Not(x) =>
        FilterBinds(x);
        BindsBetween([LP, Kw(KNot)], Render(x, true), Params(x), Render(x, false), [RP]);
      case And(l, r) =>
        FilterBinds(l);
        FilterBinds(r);
        PairBinds([LP], l, [Kw(KAnd)], r, [RP]);
      case Or(l, r) =>
        FilterBinds(l);
        FilterBinds(r);
        PairBinds([LP], l, [Kw(KOr)], r, [RP]);
    }
  }

  lemma {:induction false} CompareBinds(cmp: Cmp, l: Expr, r: Expr)
    requires Shaped(l) && Shaped(r) && ExprBinds(l) && ExprBinds(r)
    ensures ExprBinds(Compare(cmp, l, r))
  {
    hide Binds, Fill, NoMark;
    if r.NullLit? {
      BindsBefore(Render(l, true), Params(l), Render(l, false), NullTest(cmp));
    } else if l.NullLit? {
      BindsBefore(Render(r, true), Params(r), Render(r, false), NullTest(cmp));
    } else {
      var op := [Op(CmpSql(cmp))];
      BindsBefore(Render(l, true), Params(l), Render(l, false), op);
      BindsJoined(Render(l, true) + op, Params(l), Render(l, false) + op, Render(r, true), Params(r), Render(r, false));
    }
  }

  // ----- a filter beside the conditions a request brings of its own -----

  /** Two conditions: both in parentheses, or the one there is. */
  function Merged(w: seq<Sql>, p: seq<Value>, v: seq<Sql>, q: seq<Value>): (seq<Sql>, seq<Value>) {
    if w != [] && v != [] then ([LP] + w + [RP, Kw(KAnd), LP] + v + [RP], p + q)
    else (if w != [] then w else v, p + q)
  }

  lemma {:induction false} MergedBinds(w: seq<Sql>, p: seq<Value>, u: seq<Sql>, v: seq<Sql>, q: seq<Value>, x: seq<Sql>)
    requires Binds(w, p, u) && Binds(v, q, x)
    ensures var (sql, params) := Merged(w, p, v, q);
      Binds(sql, params, if w != [] && v != [] then [LP] + u + [RP, Kw(KAnd), LP] + x + [RP] else if w != [] then u else x)
  {
    if w != [] && v != [] {
      BindsTwo([LP], w, p, u, [RP, Kw(KAnd), LP], v, q, x, [RP]);
    } else {
      assert p + [] == p && [] + q == q;
      assert w == [] ==> p == [];
      assert v == [] ==> q == [];
    }
  }
}
