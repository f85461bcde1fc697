/** The parser as it runs: one position moving over the tokens, fragments built on the way. */
module FilterCompiler {
  import opened Common
  import opened Text
  import opened FilterSyntax
  import opened FilterSql

  /** What a method leaves is the reading from where it began, compiled, and the rest of the tokens. */
  ghost predicate Matches(r: Result<Frag>, read: Read, t: seq<Token>, i: nat) {
    match read
    case Ok((e, rest)) => Shaped(e) && r == Ok(Compiled(e)) && i <= |t| && t[i..] == rest
    case Err(error) => r == Err(error)
  }

  lemma {:induction false} OnlyNull(e: Expr)
    requires Shaped(e)
    ensures Render(e, true) == [Kw(KNull)] <==> e.NullLit?
  {
    match e {
      case Call(fn, args) => FirstPiece(fn, args);
      case Compare(_, l, r) => RenderSome(l); RenderSome(r);
      case NonZero(x) => RenderSome(x);
      case _ =>
    }
  }

  lemma {:induction false} FirstPiece(fn: Fn, args: seq<Expr>)
    requires Shaped(Call(fn, args))
    ensures Render(Call(fn, args), true) != [] && Render(Call(fn, args), true)[0] != Kw(KNull)
  {
    TemplateFits(fn, |args|);
    var pieces := Template(fn, |args|);
    var sqls := seq(|args|, i requires 0 <= i < |args| => Render(args[i], true));
    assert Expand(pieces, sqls)[0] == pieces[0].token;
  }

  lemma {:induction false} RenderSome(e: Expr)
    requires Shaped(e)
    ensures Render(e, true) != []
  {
    match e {
      case Call(fn, args) => FirstPiece(fn, args);
      case Compare(_, l, r) => RenderSome(l); RenderSome(r);
      case NonZero(x) => RenderSome(x);
      case _ =>
    }
  }

  function Both(k: Keyword, left: Frag, right: Frag): Frag {
    Frag([LP] + left.sql + [Kw(k)] + right.sql + [RP], left.params + right.params, true)
  }

  lemma {:induction false} BothOr(l: Expr, r: Expr)
    requires Shaped(l) && Shaped(r)
    ensures Both(KOr, Compiled(l), Compiled(r)) == Compiled(Or(l, r))
  {
  }

  lemma {:induction false} BothAnd(l: Expr, r: Expr)
    requires Shaped(l) && Shaped(r)
    ensures Both(KAnd, Compiled(l), Compiled(r)) == Compiled(And(l, r))
  {
  }

  class FilterParser {
    const service: Service
    const t: seq<Token>
    var i: nat

    constructor (service: Service, t: seq<Token>)
      ensures this.service == service && this.t == t && i == 0
    {
      this.service, this.t, i := service, t, 0;
    }

    predicate AcceptsWord(word: string)
      requires i <= |t|
      reads this
    {
      i < |t| && t[i].Word? && Lower(t[i].text) == word
    }

    method Expects(token: Token) returns (error: Option<Error>)
      requires i <= |t|
      modifies this`i
      ensures old(i) <= i <= |t|
      ensures match Expect(token, t[old(i)..])
              case Ok(rest) => error == None && i == old(i) + 1 && t[i..] == rest
              case Err(e) => error == Some(e)
    {
      if i == |t| {
        return Some(EndOfFilter);
      }
      i := i + 1;
      if t[i - 1] != token {
        return Some(Expected(token));
      }
      return None;
    }

    method ParseFilter() returns (r: Result<Frag>)
      requires i == 0
      modifies this`i
      ensures match ReadFilter(service, t)
              case Ok(e) => r == Ok(Compiled(e))
              case Err(error) => r == Err(error)
    {
      assert t[0..] == t;
      r := ParseOr();
      if r.Ok? && i < |t| {
        return Err(Unexpected(t[i]));
      }
    }

    method ParseOr() returns (r: Result<Frag>)
      requires i <= |t|
      modifies this`i
      ensures old(i) <= i <= |t| && (r.Ok? ==> old(i) < i)
      ensures Matches(r, ReadOr(service, t[old(i)..]), t, i)
      decreases |t| - i, 7
    {
      ghost var read := ReadOr(service, t[i..]);
      r := ParseAnd();
      if r.Err? {
        return;
      }
      ghost var e := ReadAnd(service, t[old(i)..]).value.0;
      while AcceptsWord("or")
        invariant old(i) < i <= |t| && Shaped(e) && r == Ok(Compiled(e)) && read == MoreOr(service, e, t[i..])
        decreases |t| - i
      {
        ghost var right := ReadAnd(service, t[i..][1..]);
        r := TakeOr(r.value, e);
        if r.Err? {
          return;
        }
        e := Or(e, right.value.0);
      }
    }

    /** The word, and the right side of it. */
    method TakeOr(left: Frag, ghost e: Expr) returns (r: Result<Frag>)
      requires i < |t| && Shaped(e) && left == Compiled(e)
      modifies this`i
      ensures old(i) < i <= |t|
      ensures match ReadAnd(service, t[old(i)..][1..])
              case Ok((right, rest)) => r == Ok(Compiled(Or(e, right))) && t[i..] == rest
              case Err(error) => r == Err(error)
      decreases |t| - i, 0
    {
      assert t[i..][1..] == t[i + 1..];
      i := i + 1;
      ghost var read := ReadAnd(service, t[i..]);
      r := ParseAnd();
      if r.Ok? {
        BothOr(e, read.value.0);
        r := Ok(Both(KOr, left, r.value));
      }
    }

    method ParseAnd() returns (r: Result<Frag>)
      requires i <= |t|
      modifies this`i
      ensures old(i) <= i <= |t| && (r.Ok? ==> old(i) < i)
      ensures Matches(r, ReadAnd(service, t[old(i)..]), t, i)
      decreases |t| - i, 6
    {
      ghost var read := ReadAnd(service, t[i..]);
      r := ParseUnary();
      if r.Err? {
        return;
      }
      ghost var e := ReadUnary(service, t[old(i)..]).value.0;
      while AcceptsWord("and")
        invariant old(i) < i <= |t| && Shaped(e) && r == Ok(Compiled(e)) && read == MoreAnd(service, e, t[i..])
        decreases |t| - i
      {
        ghost var right := ReadUnary(service, t[i..][1..]);
        r := TakeAnd(r.value, e);
        if r.Err? {
          return;
        }
        e := And(e, right.value.0);
      }
    }

    method TakeAnd(left: Frag, ghost e: Expr) returns (r: Result<Frag>)
      requires i < |t| && Shaped(e) && left == Compiled(e)
      modifies this`i
      ensures old(i) < i <= |t|
      ensures match ReadUnary(service, t[old(i)..][1..])
              case Ok((right, rest)) => r == Ok(Compiled(And(e, right))) && t[i..] == rest
              case Err(error) => r == Err(error)
      decreases |t| - i, 0
    {
      assert t[i..][1..] == t[i + 1..];
      i := i + 1;
      ghost var read := ReadUnary(service, t[i..]);
      r := ParseUnary();
      if r.Ok? {
        BothAnd(e, read.value.0);
        r := Ok(Both(KAnd, left, r.value));
      }
    }

    method ParseUnary() returns (r: Result<Frag>)
      requires i <= |t|
      modifies this`i
      ensures old(i) <= i <= |t| && (r.Ok? ==> old(i) < i)
      ensures Matches(r, ReadUnary(service, t[old(i)..]), t, i)
      decreases |t| - i, 5
    {
      if AcceptsWord("not") {
        i := i + 1;
        r := ParseUnary();
        if r.Ok? {
          r := Ok(Frag([LP, Kw(KNot)] + r.value.sql + [RP], r.value.params, true));
        }
        return;
      }
      r := ParseComparison();
    }

    method ParseComparison() returns (r: Result<Frag>)
      requires i <= |t|
      modifies this`i
      ensures old(i) <= i <= |t| && (r.Ok? ==> old(i) < i)
      ensures Matches(r, ReadComparison(service, t[old(i)..]), t, i)
      decreases |t| - i, 4
    {
      r := ParseOperand();
      if r.Err? {
        return;
      }
      var left := r.value;
      ghost var l := ReadOperand(service, t[old(i)..]).value.0;
      if i < |t| && t[i].Word? && CmpNamed(t[i].text).Some? {
        var cmp := CmpNamed(t[i].text).value;
        i := i + 1;
        ghost var readRight := ReadOperand(service, t[i..]);
        r := ParseOperand();
        if r.Err? {
          return;
        }
        ghost var e := readRight.value.0;
        OnlyNull(l);
        OnlyNull(e);
        r := Ok(Compares(cmp, left, r.value));
        return;
      }
      if !left.isBool {
        r := Ok(Frag(left.sql + [Op(Unequal), ZERO], left.params, true));
      }
    }

    method ParseOperand() returns (r: Result<Frag>)
      requires i <= |t|
      modifies this`i
      ensures old(i) <= i <= |t| && (r.Ok? ==> old(i) < i)
      ensures Matches(r, ReadOperand(service, t[old(i)..]), t, i)
      decreases |t| - i, 3
    {
      ghost var read := ReadOperand(service, t[i..]);
      r := ParsePrimary();
      if r.Err? {
        return;
      }
      ghost var e := ReadPrimary(service, t[old(i)..]).value.0;
      while i < |t| && t[i].Word? && ArithNamed(t[i].text).Some?
        invariant old(i) < i <= |t| && Shaped(e) && r == Ok(Compiled(e)) && read == MoreOperand(service, e, t[i..])
        decreases |t| - i
      {
        ghost var op, right := ArithNamed(t[i].text).value, ReadPrimary(service, t[i..][1..]);
        r := TakeArith(r.value, e);
        if r.Err? {
          return;
        }
        e := Calc(op, e, right.value.0);
      }
    }

    method TakeArith(left: Frag, ghost e: Expr) returns (r: Result<Frag>)
      requires i < |t| && t[i].Word? && ArithNamed(t[i].text).Some? && Shaped(e) && left == Compiled(e)
      modifies this`i
      ensures old(i) < i <= |t|
      ensures match ReadPrimary(service, t[old(i)..][1..])
              case Ok((right, rest)) => r == Ok(Compiled(Calc(ArithNamed(t[old(i)].text).value, e, right))) && t[i..] == rest
              case Err(error) => r == Err(error)
      decreases |t| - i, 0
    {
      var op := ArithNamed(t[i].text).value;
      assert t[i..][1..] == t[i + 1..];
      i := i + 1;
      r := ParsePrimary();
      if r.Ok? {
        r := Ok(Frag([LP] + left.sql + [Op(ArithSql(op))] + r.value.sql + [RP], left.params + r.value.params, false));
      }
    }

    method ParsePrimary() returns (r: Result<Frag>)
      requires i <= |t|
      modifies this`i
      ensures old(i) <= i <= |t| && (r.Ok? ==> old(i) < i)
      ensures Matches(r, ReadPrimary(service, t[old(i)..]), t, i)
      decreases |t| - i, 2
    {
      if i == |t| {
        return Err(EndOfFilter);
      }
      var token := t[i];
      i := i + 1;
      match token {
        case Open =>
          r := ParseOr();
          if r.Err? {
            return;
          }
          var inner := r.value;
          var error := Expects(Close);
          if error.Some? {
            return Err(error.value);
          }
          return Ok(Frag([LP] + inner.sql + [RP], inner.params, inner.isBool));
        case Literal(value, dialect) =>
          var v := LiteralOf(service, value, dialect);
          if v.Err? {
            return Err(v.error);
          }
          return Ok(Frag([Mark], [v.value], false));
        case Word(text) =>
          r := ParseWord(text);
        case other =>
          return Err(Unexpected(other));
      }
    }

    method ParseWord(text: string) returns (r: Result<Frag>)
      requires i <= |t|
      modifies this`i
      ensures old(i) <= i <= |t|
      ensures Matches(r, ReadWord(service, text, t[old(i)..]), t, i)
      decreases |t| - i, 1
    {
      var low := Lower(text);
      if low == "null" {
        return Ok(Frag([Kw(KNull)], [], false));
      }
      if low == "true" {
        return Ok(Frag([Mark], [Number(1.0)], false));
      }
      if low == "false" {
        return Ok(Frag([Mark], [Number(0.0)], false));
      }
      if i < |t| && t[i] == Open {
        r := ParseFunction(low);
      } else {
        r := ParseColumn(text);
      }
    }

    method ParseColumn(name: string) returns (r: Result<Frag>)
      requires i <= |t|
      modifies this`i
      ensures old(i) <= i <= |t|
      ensures Matches(r, ReadColumn(service, name, t[old(i)..]), t, i)
    {
      var path := name;
      if i < |t| && t[i] == Slash {
        i := i + 1;
        if i == |t| {
          return Err(EndOfFilter);
        }
        i := i + 1;
        if !t[i - 1].Word? {
          return Err(Expected(Word("")));
        }
        path := name + "/" + t[i - 1].text;
      }
      var column := ColumnAt(service, path);
      if column.Err? {
        return Err(column.error);
      }
      return Ok(Frag(ColumnSql(column.value.name, column.value.decimal), [], false));
    }

    method ParseFunction(name: string) returns (r: Result<Frag>)
      requires i < |t| && t[i] == Open
      modifies this`i
      ensures old(i) <= i <= |t|
      ensures Matches(r, ReadFunction(service, name, t[old(i) + 1..]), t, i)
      decreases |t| - i, 0
    {
      i := i + 1;
      var args, exprs, error := ParseArguments();
      if error.Some? {
        return Err(error.value);
      }
      var fn := FnNamed(name);
      if fn.None? {
        return Err(Unsupported(name));
      }
      if !TakesArgs(fn.value, |args|) {
        return Err(ArgumentCount(fn.value));
      }
      TemplateFits(fn.value, |args|);
      r := Combine(fn.value, args);
      CombineIs(fn.value, args, exprs);
    }

    /** The arguments between the parentheses, the closing one taken. */
    method ParseArguments() returns (args: seq<Frag>, ghost exprs: seq<Expr>, error: Option<Error>)
      requires i <= |t|
      modifies this`i
      ensures old(i) <= i <= |t|
      ensures match ReadCall(service, t[old(i)..])
              case Ok((es, rest)) => error == None && exprs == es && AllCompiled(args, exprs) && t[i..] == rest
              case Err(e) => error == Some(e)
      decreases |t| - i, 6
    {
      hide ReadOperand, Shaped, Render, Params;
      args, exprs := [], [];
      if i < |t| && t[i] != Close {
        ghost var read := ReadArgs(service, [], t[i..]);
        while true
          invariant old(i) <= i <= |t| && AllCompiled(args, exprs)
          invariant read == ReadArgs(service, exprs, t[i..])
          decreases |t| - i
        {
          ghost var arg := ReadOperand(service, t[i..]);
          var r := ParseOperand();
          if r.Err? {
            return args, exprs, Some(r.error);
          }
          args, exprs := args + [r.value], exprs + [arg.value.0];
          if i < |t| && t[i] == Comma {
            i := i + 1;
            continue;
          }
          break;
        }
        assert read == Ok((exprs, t[i..]));
      }
      error := Expects(Close);
    }
  }

  function Compares(cmp: Cmp, left: Frag, right: Frag): Frag {
    if right.sql == [Kw(KNull)] then Frag(left.sql + NullTest(cmp), left.params, true)
    else if left.sql == [Kw(KNull)] then Frag(right.sql + NullTest(cmp), right.params, true)
    else Frag(left.sql + [Op(CmpSql(cmp))] + right.sql, left.params + right.params, true)
  }

  /** A call after its opening parenthesis. */
  function ReadFunction(s: Service, name: string, ts: seq<Token>): (r: Read) {
    var (args, rest) :- ReadCall(s, ts);
    var call :- CallOf(name, args);
    Ok((call, rest))
  }

  ghost predicate AllCompiled(args: seq<Frag>, exprs: seq<Expr>) {
    |args| == |exprs| && forall k :: 0 <= k < |args| ==> Shaped(exprs[k]) && args[k] == Compiled(exprs[k])
  }

  function Sqls(args: seq<Frag>): (r: seq<seq<Sql>>)
    ensures |r| == |args|
  {
    Map(args, (f: Frag) => f.sql)
  }

  function ParamsOf(args: seq<Frag>): (r: seq<seq<Value>>)
    ensures |r| == |args|
  {
    Map(args, (f: Frag) => f.params)
  }

  /** The template filled in; each argument's values follow it wherever it goes. */
  method Combine(fn: Fn, args: seq<Frag>) returns (r: Result<Frag>)
    requires PiecesFit(Template(fn, |args|), |args|)
    ensures r == Ok(Frag(Expand(Template(fn, |args|), Sqls(args)), Gather(Template(fn, |args|), ParamsOf(args)), IsBoolFn(fn)))
  {
    var pieces := Template(fn, |args|);
    var params: seq<Value> := [];
    for k := 0 to |pieces|
      invariant params + Gather(pieces[k..], ParamsOf(args)) == Gather(pieces, ParamsOf(args))
    {
      OneMore(pieces, k, ParamsOf(args), params);
      if pieces[k].A? {
        params := params + args[pieces[k].index].params;
      }
    }
    assert pieces[|pieces|..] == [] && params + [] == params;
    return Ok(Frag(Expand(pieces, Sqls(args)), params, IsBoolFn(fn)));
  }

  lemma {:induction false} OneMore(pieces: seq<Piece>, k: nat, values: seq<seq<Value>>, params: seq<Value>)
    requires k < |pieces| && PiecesFit(pieces, |values|)
    ensures PiecesFit(pieces[k..], |values|) && PiecesFit(pieces[k + 1..], |values|)
    ensures params + Gather(pieces[k..], values)
         == (if pieces[k].A? then params + values[pieces[k].index] else params) + Gather(pieces[k + 1..], values)
  {
    assert pieces[k..][1..] == pieces[k + 1..];
  }

  lemma {:induction false} CombineIs(fn: Fn, args: seq<Frag>, exprs: seq<Expr>)
    requires AllCompiled(args, exprs) && TakesArgs(fn, |args|)
    ensures PiecesFit(Template(fn, |args|), |args|) && Shaped(Call(fn, exprs))
    ensures Frag(Expand(Template(fn, |args|), Sqls(args)), Gather(Template(fn, |args|), ParamsOf(args)), IsBoolFn(fn))
         == Compiled(Call(fn, exprs))
  {
    TemplateFits(fn, |args|);
    assert Sqls(args) == seq(|exprs|, k requires 0 <= k < |exprs| => Render(exprs[k], true));
    assert ParamsOf(args) == seq(|exprs|, k requires 0 <= k < |exprs| => Params(exprs[k]));
  }
}
