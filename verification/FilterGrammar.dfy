/** The grammar of `$filter`, as what sentences each expression is written by, and that the reading is
    exactly this grammar: a filter is read as an expression if and only if it is one of its sentences. */
module FilterGrammar {
  import opened Common
  import opened Text
  import opened FilterSyntax

  // ----- the grammar -----

  predicate IsWord(token: Token, word: string) {
    token.Word? && Lower(token.text) == word
  }

  predicate IsCmpWord(token: Token, cmp: Cmp) {
    token.Word? && CmpNamed(token.text) == Some(cmp)
  }

  predicate IsArithWord(token: Token, op: Arith) {
    token.Word? && ArithNamed(token.text) == Some(op)
  }

  ghost predicate Disjunction(s: Service, e: Expr, ts: seq<Token>)
    decreases e, 6
  {
    match e
    case Or(l, r) => exists i :: 0 <= i < |ts| && IsWord(ts[i], "or") && Disjunction(s, l, ts[..i]) && Conjunction(s, r, ts[i + 1..])
    case _ => Conjunction(s, e, ts)
  }

  ghost predicate Conjunction(s: Service, e: Expr, ts: seq<Token>)
    decreases e, 5
  {
    match e
    case And(l, r) => exists i :: 0 <= i < |ts| && IsWord(ts[i], "and") && Conjunction(s, l, ts[..i]) && Negation(s, r, ts[i + 1..])
    case _ => Negation(s, e, ts)
  }

  ghost predicate Negation(s: Service, e: Expr, ts: seq<Token>)
    decreases e, 4
  {
    match e
    case Not(c) => ts != [] && IsWord(ts[0], "not") && Negation(s, c, ts[1..])
    case _ => !StartsWithWord(ts, "not") && Comparison(s, e, ts)
  }

  /** A comparison of two operands, or one operand that is a condition or is compared with zero. */
  ghost predicate Comparison(s: Service, e: Expr, ts: seq<Token>)
    decreases e, 3
  {
    if e.Compare? then
      exists i :: 0 <= i < |ts| && IsCmpWord(ts[i], e.cmp) && Arithmetic(s, e.left, ts[..i]) && Arithmetic(s, e.right, ts[i + 1..])
    else if e.NonZero? then !IsBool(e.operand) && Arithmetic(s, e.operand, ts)
    else IsBool(e) && Arithmetic(s, e, ts)
  }

  /** Operators of arithmetic, all of one strength, from left to right. */
  ghost predicate Arithmetic(s: Service, e: Expr, ts: seq<Token>)
    decreases e, 2
  {
    match e
    case Calc(op, l, r) => exists i :: 0 <= i < |ts| && IsArithWord(ts[i], op) && Arithmetic(s, l, ts[..i]) && Primary(s, r, ts[i + 1..])
    case _ => Primary(s, e, ts)
  }

  predicate IsConstantWord(text: string) {
    Lower(text) == "null" || Lower(text) == "true" || Lower(text) == "false"
  }

  predicate ConstantWord(ts: seq<Token>, v: Value) {
    |ts| == 1 && ((IsWord(ts[0], "true") && v == Number(1.0)) || (IsWord(ts[0], "false") && v == Number(0.0)))
  }

  predicate LiteralToken(s: Service, ts: seq<Token>, v: Value) {
    |ts| == 1 && ts[0].Literal? && LiteralOf(s, ts[0].value, ts[0].dialect) == Ok(v)
  }

  predicate Path(s: Service, e: Expr, ts: seq<Token>) {
    || (|ts| == 1 && ts[0].Word? && !IsConstantWord(ts[0].text) && ColumnAt(s, ts[0].text) == Ok(e))
    || (|ts| == 3 && ts[0].Word? && !IsConstantWord(ts[0].text) && ts[1] == Slash && ts[2].Word?
        && ColumnAt(s, ts[0].text + "/" + ts[2].text) == Ok(e))
  }

  ghost predicate Primary(s: Service, e: Expr, ts: seq<Token>)
    decreases e, 1
  {
    match e
    case Paren(c) => |ts| >= 2 && ts[0] == Open && ts[|ts| - 1] == Close && Disjunction(s, c, ts[1..|ts| - 1])
    case Const(v) => LiteralToken(s, ts, v) || ConstantWord(ts, v)
    case NullLit => |ts| == 1 && IsWord(ts[0], "null")
    case Column(_, _) => Path(s, e, ts)
    case Call(fn, args) =>
      && |ts| >= 3 && ts[0].Word? && !IsConstantWord(ts[0].text) && FnNamed(Lower(ts[0].text)) == Some(fn)
      && ts[1] == Open && ts[|ts| - 1] == Close && TakesArgs(fn, |args|) && Arguments(s, args, ts[2..|ts| - 1])
    case _ => false
  }

  ghost predicate Arguments(s: Service, args: seq<Expr>, ts: seq<Token>)
    decreases args, 0
  {
    if |args| == 0 then false
    else if |args| == 1 then Arithmetic(s, args[0], ts)
    else exists i :: 0 <= i < |ts| && ts[i] == Comma && Arithmetic(s, args[0], ts[..i]) && Arguments(s, args[1..], ts[i + 1..])
  }

  // ----- a sentence is read as its expression -----

  /** What may follow a complete operand: a word, a comma, a closing parenthesis, or nothing. */
  predicate Follows(rest: seq<Token>) {
    rest == [] || rest[0].Word? || rest[0] == Comma || rest[0] == Close
  }

  predicate NoArith(rest: seq<Token>) {
    rest == [] || !rest[0].Word? || ArithNamed(rest[0].text).None?
  }

  predicate NoCmp(rest: seq<Token>) {
    rest == [] || !rest[0].Word? || CmpNamed(rest[0].text).None?
  }

  /** Nothing that follows is taken into an operand, a comparison, a conjunction. */
  predicate AfterSum(rest: seq<Token>) { Follows(rest) && NoArith(rest) }
  predicate AfterComparison(rest: seq<Token>) { AfterSum(rest) && NoCmp(rest) }
  predicate AfterConjunction(rest: seq<Token>) { AfterComparison(rest) && !StartsWithWord(rest, "and") }

  /** A sentence cut at one of its tokens. */
  lemma {:induction false} CutAt(ts: seq<Token>, i: nat, rest: seq<Token>)
    requires i < |ts|
    ensures ts + rest == ts[..i] + ([ts[i]] + (ts[i + 1..] + rest))
    ensures ([ts[i]] + (ts[i + 1..] + rest))[1..] == ts[i + 1..] + rest
  {
  }

  lemma {:induction false} PrimaryReads(s: Service, e: Expr, ts: seq<Token>, rest: seq<Token>)
    requires Primary(s, e, ts) && Follows(rest)
    ensures ReadPrimary(s, ts + rest) == Ok((e, rest))
    decreases e, 1
  {
    if e.Paren? {
      DisjunctionReads(s, e.inner, ts[1..|ts| - 1], [Close] + rest);
      ParenTokens(ts, rest);
    } else if e.Call? {
      ArgumentsRead(s, e.args, ts[2..|ts| - 1], [], [Close] + rest);
      assert [] + e.args == e.args;
      CallTokens(s, e.fn, e.args, ts, rest);
    } else if e.Column? {
      PathReads(s, e, ts, rest);
    } else {
      assert (ts + rest)[1..] == rest;
    }
  }

  lemma {:induction false} ParenTokens(ts: seq<Token>, rest: seq<Token>)
    requires |ts| >= 2 && ts[|ts| - 1] == Close
    ensures (ts + rest)[1..] == ts[1..|ts| - 1] + ([Close] + rest)
    ensures ([Close] + rest)[1..] == rest
  {
  }

  lemma {:induction false} PathReads(s: Service, e: Expr, ts: seq<Token>, rest: seq<Token>)
    requires Path(s, e, ts) && Follows(rest)
    ensures ReadPrimary(s, ts + rest) == Ok((e, rest))
  {
    var after := (ts + rest)[1..];
    if |ts| == 1 {
      assert after == rest;
    } else {
      assert after == [ts[1], ts[2]] + rest;
      assert after[2..] == rest;
    }
  }

  lemma {:induction false} CallTokens(s: Service, fn: Fn, args: seq<Expr>, ts: seq<Token>, rest: seq<Token>)
    requires |ts| >= 3 && ts[0].Word? && !IsConstantWord(ts[0].text) && FnNamed(Lower(ts[0].text)) == Some(fn)
    requires ts[1] == Open && ts[|ts| - 1] == Close && TakesArgs(fn, |args|)
    requires ts[2..|ts| - 1] != [] && ts[2..|ts| - 1][0] != Close
    requires ReadArgs(s, [], ts[2..|ts| - 1] + ([Close] + rest)) == Ok((args, [Close] + rest))
    ensures ReadPrimary(s, ts + rest) == Ok((Call(fn, args), rest))
  {
    var after := (ts + rest)[1..];
    var inside := ts[2..|ts| - 1] + ([Close] + rest);
    assert after[0] == Open && after[1..] == inside;
    assert inside[0] == ts[2..|ts| - 1][0];
    assert ([Close] + rest)[1..] == rest;
    assert ReadCall(s, inside) == Ok((args, rest));
  }

  lemma {:induction false} ArgumentsRead(s: Service, args: seq<Expr>, ts: seq<Token>, before: seq<Expr>, rest: seq<Token>)
    requires Arguments(s, args, ts) && rest != [] && rest[0] == Close
    ensures ReadArgs(s, before, ts + rest) == Ok((before + args, rest))
    ensures ts != [] && ts[0] != Close
    decreases args, 1
  {
    if |args| == 1 {
      LastArgument(s, args, ts, before, rest);
    } else {
      var i :| 0 <= i < |ts| && ts[i] == Comma && Arithmetic(s, args[0], ts[..i]) && Arguments(s, args[1..], ts[i + 1..]);
      FirstArgument(s, args, ts, before, rest, i);
    }
  }

  lemma {:induction false} FirstArgument(s: Service, args: seq<Expr>, ts: seq<Token>, before: seq<Expr>, rest: seq<Token>, i: nat)
    requires |args| > 1 && i < |ts| && ts[i] == Comma && rest != [] && rest[0] == Close
    requires Arithmetic(s, args[0], ts[..i]) && Arguments(s, args[1..], ts[i + 1..])
    ensures ReadArgs(s, before, ts + rest) == Ok((before + args, rest))
    ensures ts != [] && ts[0] != Close
    decreases args, 0
  {
    hide Arithmetic, Arguments, ReadArgs, ReadOperand, ArithNamed;
    var after := ts[i + 1..] + rest;
    CutAt(ts, i, rest);
    OperandRead(s, args[0], ts[..i], [Comma] + after);
    SumStarts(s, args[0], ts[..i]);
    ArgumentsRead(s, args[1..], ts[i + 1..], before + [args[0]], rest);
    NextArgument(s, before, args[0], ts + rest, after);
    assert before + [args[0]] + args[1..] == before + args;
  }

  lemma {:induction false} LastArgument(s: Service, args: seq<Expr>, ts: seq<Token>, before: seq<Expr>, rest: seq<Token>)
    requires |args| == 1 && Arithmetic(s, args[0], ts) && rest != [] && rest[0] == Close
    ensures ReadArgs(s, before, ts + rest) == Ok((before + args, rest))
    ensures ts != [] && ts[0] != Close
    decreases args, 0
  {
    hide Arithmetic, ReadOperand;
    OperandRead(s, args[0], ts, rest);
    SumStarts(s, args[0], ts);
    assert before + args == before + [args[0]];
  }

  lemma {:induction false} NextArgument(s: Service, before: seq<Expr>, arg: Expr, ts: seq<Token>, after: seq<Token>)
    requires ReadOperand(s, ts) == Ok((arg, [Comma] + after))
    ensures ReadArgs(s, before, ts) == ReadArgs(s, before + [arg], after)
  {
    hide ReadOperand;
    assert ([Comma] + after)[1..] == after;
  }

  /** No operand starts with a closing parenthesis, or is empty. */
  lemma {:induction false} SumStarts(s: Service, e: Expr, ts: seq<Token>)
    requires Arithmetic(s, e, ts)
    ensures ts != [] && ts[0] != Close
    decreases e
  {
    if e.Calc? {
      var i :| 0 <= i < |ts| && IsArithWord(ts[i], e.op) && Arithmetic(s, e.left, ts[..i]) && Primary(s, e.right, ts[i + 1..]);
      SumStarts(s, e.left, ts[..i]);
    }
  }

  lemma {:induction false} SumReads(s: Service, e: Expr, ts: seq<Token>, rest: seq<Token>)
    requires Arithmetic(s, e, ts) && Follows(rest)
    ensures ReadOperand(s, ts + rest) == MoreOperand(s, e, rest)
    decreases e, 2
  {
    if e.Calc? {
      var i :| 0 <= i < |ts| && IsArithWord(ts[i], e.op) && Arithmetic(s, e.left, ts[..i]) && Primary(s, e.right, ts[i + 1..]);
      CutAt(ts, i, rest);
      SumReads(s, e.left, ts[..i], [ts[i]] + (ts[i + 1..] + rest));
      PrimaryReads(s, e.right, ts[i + 1..], rest);
    } else {
      PrimaryReads(s, e, ts, rest);
    }
  }

  lemma {:induction false} OperandRead(s: Service, e: Expr, ts: seq<Token>, rest: seq<Token>)
    requires Arithmetic(s, e, ts) && AfterSum(rest)
    ensures ReadOperand(s, ts + rest) == Ok((e, rest))
    decreases e, 3
  {
    SumReads(s, e, ts, rest);
  }

  lemma {:induction false} ComparisonReads(s: Service, e: Expr, ts: seq<Token>, rest: seq<Token>)
    requires Comparison(s, e, ts) && AfterComparison(rest)
    ensures ReadComparison(s, ts + rest) == Ok((e, rest))
    ensures ts != []
    decreases e, 4
  {
    if e.Compare? {
      var i :| 0 <= i < |ts| && IsCmpWord(ts[i], e.cmp) && Arithmetic(s, e.left, ts[..i]) && Arithmetic(s, e.right, ts[i + 1..]);
      CutAt(ts, i, rest);
      CmpIsNoArith(ts[i], e.cmp);
      OperandRead(s, e.left, ts[..i], [ts[i]] + (ts[i + 1..] + rest));
      OperandRead(s, e.right, ts[i + 1..], rest);
    } else if e.NonZero? {
      OperandRead(s, e.operand, ts, rest);
      SumStarts(s, e.operand, ts);
    } else {
      OperandRead(s, e, ts, rest);
      SumStarts(s, e, ts);
    }
  }

  lemma {:induction false} CmpIsNoArith(token: Token, cmp: Cmp)
    requires IsCmpWord(token, cmp)
    ensures ArithNamed(token.text).None?
  {
  }

  lemma {:induction false} NegationReads(s: Service, e: Expr, ts: seq<Token>, rest: seq<Token>)
    requires Negation(s, e, ts) && AfterComparison(rest)
    ensures ReadUnary(s, ts + rest) == Ok((e, rest))
    decreases e, 5
  {
    if e.Not? {
      NegationReads(s, e.operand, ts[1..], rest);
      assert (ts + rest)[1..] == ts[1..] + rest;
    } else {
      ComparisonReads(s, e, ts, rest);
      assert (ts + rest)[0] == ts[0];
    }
  }

  lemma {:induction false} ConjunctionReads(s: Service, e: Expr, ts: seq<Token>, rest: seq<Token>)
    requires Conjunction(s, e, ts) && AfterComparison(rest)
    ensures ReadAnd(s, ts + rest) == MoreAnd(s, e, rest)
    decreases e, 6
  {
    hide Negation, ReadUnary;
    if e.And? {
      var i :| 0 <= i < |ts| && IsWord(ts[i], "and") && Conjunction(s, e.left, ts[..i]) && Negation(s, e.right, ts[i + 1..]);
      CutAt(ts, i, rest);
      ConjunctionReads(s, e.left, ts[..i], [ts[i]] + (ts[i + 1..] + rest));
      NegationReads(s, e.right, ts[i + 1..], rest);
    } else {
      NegationReads(s, e, ts, rest);
    }
  }

  lemma {:induction false} DisjunctionReads(s: Service, e: Expr, ts: seq<Token>, rest: seq<Token>)
    requires Disjunction(s, e, ts) && AfterConjunction(rest)
    ensures ReadOr(s, ts + rest) == MoreOr(s, e, rest)
    decreases e, 7
  {
    hide Conjunction, ReadAnd;
    if e.Or? {
      var i :| 0 <= i < |ts| && IsWord(ts[i], "or") && Disjunction(s, e.left, ts[..i]) && Conjunction(s, e.right, ts[i + 1..]);
      CutAt(ts, i, rest);
      DisjunctionReads(s, e.left, ts[..i], [ts[i]] + (ts[i + 1..] + rest));
      ConjunctionReads(s, e.right, ts[i + 1..], rest);
    } else {
      ConjunctionReads(s, e, ts, rest);
    }
  }

  // ----- what is read is a sentence -----

  lemma {:induction false} PrimaryIsRead(s: Service, ts: seq<Token>) returns (used: seq<Token>)
    requires ReadPrimary(s, ts).Ok?
    ensures var (e, rest) := ReadPrimary(s, ts).value; ts == used + rest && Primary(s, e, used)
    decreases |ts|, 2
  {
    hide ReadWord, ReadOr, Disjunction, Arguments;
    var (e, rest) := ReadPrimary(s, ts).value;
    match ts[0] {
      case Open =>
        var inside := DisjunctionIsRead(s, ts[1..]);
        used := [Open] + inside + [Close];
        assert used[1..|used| - 1] == inside;
        assert ts == [Open] + ts[1..];
      case Literal(_, _) =>
        used := [ts[0]];
      case Word(text) =>
        var after := WordIsRead(s, text, ts[1..]);
        used := [ts[0]] + after;
        assert ts == [ts[0]] + ts[1..];
      case _ =>
    }
  }

  lemma {:induction false} WordIsRead(s: Service, text: string, ts: seq<Token>) returns (after: seq<Token>)
    requires ReadWord(s, text, ts).Ok?
    ensures var (e, rest) := ReadWord(s, text, ts).value; ts == after + rest && Primary(s, e, [Word(text)] + after)
    decreases |ts|, 1
  {
    hide Arguments, Path, ReadColumn, ReadCall;
    if IsConstantWord(text) {
      after := [];
      assert [Word(text)] + [] == [Word(text)];
    } else if ts != [] && ts[0] == Open {
      var inside := CallIsRead(s, ts[1..]);
      after := [Open] + inside + [Close];
      assert ([Word(text)] + after)[2..|[Word(text)] + after| - 1] == inside;
      assert ts == [Open] + ts[1..];
    } else {
      after := ColumnIsRead(s, text, ts);
    }
  }

  lemma {:induction false} ColumnIsRead(s: Service, text: string, ts: seq<Token>) returns (after: seq<Token>)
    requires ReadColumn(s, text, ts).Ok? && !IsConstantWord(text)
    ensures var (e, rest) := ReadColumn(s, text, ts).value; ts == after + rest && e.Column? && Path(s, e, [Word(text)] + after)
  {
    if ts != [] && ts[0] == Slash {
      after := ts[..2];
      assert [Word(text)] + after == [Word(text), Slash, ts[1]];
    } else {
      after := [];
      assert [Word(text)] + [] == [Word(text)];
    }
  }

  lemma {:induction false} CallIsRead(s: Service, ts: seq<Token>) returns (inside: seq<Token>)
    requires ReadCall(s, ts).Ok?
    ensures var (args, rest) := ReadCall(s, ts).value;
      ts == inside + [Close] + rest && (args == [] || Arguments(s, args, inside))
    decreases |ts|, 5
  {
    if ts[0] != Close {
      inside := ArgumentsAreRead(s, [], ts);
      var (args, rest) := ReadArgs(s, [], ts).value;
      assert args == [] + args[0..];
      assert rest == [Close] + rest[1..];
    } else {
      inside := [];
    }
  }

  lemma {:induction false} ArgumentsAreRead(s: Service, before: seq<Expr>, ts: seq<Token>) returns (used: seq<Token>)
    requires ReadArgs(s, before, ts).Ok?
    ensures var (args, rest) := ReadArgs(s, before, ts).value;
      && ts == used + rest && before <= args && |before| < |args| && Arguments(s, args[|before|..], used)
    decreases |ts|, 4
  {
    hide Arguments, ReadOperand, Arithmetic;
    var (arg, rest) := ReadOperand(s, ts).value;
    var first := OperandIsRead(s, ts);
    if rest != [] && rest[0] == Comma {
      var more := ArgumentsAreRead(s, before + [arg], rest[1..]);
      var (args, after) := ReadArgs(s, before + [arg], rest[1..]).value;
      used := first + [Comma] + more;
      ArgumentsJoined(s, before, arg, args, first, more);
      assert rest == [Comma] + rest[1..];
    } else {
      used := first;
      OneArgument(s, before, arg, first);
    }
  }

  lemma {:induction false} OneArgument(s: Service, before: seq<Expr>, arg: Expr, ts: seq<Token>)
    requires Arithmetic(s, arg, ts)
    ensures Arguments(s, (before + [arg])[|before|..], ts)
  {
    hide Arithmetic;
    assert (before + [arg])[|before|..] == [arg];
  }

  lemma {:induction false} ArgumentsJoined(s: Service, before: seq<Expr>, arg: Expr, args: seq<Expr>, first: seq<Token>, more: seq<Token>)
    requires before + [arg] <= args && |before| + 1 < |args|
    requires Arithmetic(s, arg, first) && Arguments(s, args[|before + [arg]|..], more)
    ensures before <= args && Arguments(s, args[|before|..], first + [Comma] + more)
  {
    hide Arithmetic;
    var used, own := first + [Comma] + more, args[|before|..];
    assert args[|before|] == (before + [arg])[|before|];
    assert own[0] == arg && own[1..] == args[|before + [arg]|..];
    assert used[..|first|] == first && used[|first| + 1..] == more && used[|first|] == Comma;
  }

  lemma {:induction false} OperandIsRead(s: Service, ts: seq<Token>) returns (used: seq<Token>)
    requires ReadOperand(s, ts).Ok?
    ensures var (e, rest) := ReadOperand(s, ts).value; ts == used + rest && Arithmetic(s, e, used)
    decreases |ts|, 3
  {
    var first := PrimaryIsRead(s, ts);
    var (e, rest) := ReadPrimary(s, ts).value;
    PrimaryIsSum(s, e, first);
    used := MoreOperandIsRead(s, e, first, rest);
  }

  lemma {:induction false} PrimaryIsSum(s: Service, e: Expr, ts: seq<Token>)
    requires Primary(s, e, ts)
    ensures Arithmetic(s, e, ts)
  {
  }

  lemma {:induction false} MoreOperandIsRead(s: Service, left: Expr, first: seq<Token>, ts: seq<Token>) returns (used: seq<Token>)
    requires Arithmetic(s, left, first) && MoreOperand(s, left, ts).Ok?
    ensures var (e, rest) := MoreOperand(s, left, ts).value; first + ts == used + rest && Arithmetic(s, e, used)
    decreases |ts|, 0
  {
    hide Arithmetic, Primary, ReadPrimary;
    used := first;
    if ts != [] && ts[0].Word? && ArithNamed(ts[0].text).Some? {
      var more := PrimaryIsRead(s, ts[1..]);
      var (right, rest) := ReadPrimary(s, ts[1..]).value;
      var op := ArithNamed(ts[0].text).value;
      SumJoined(s, op, left, first, ts[0], right, more);
      assert first + ts == first + [ts[0]] + more + rest;
      used := MoreOperandIsRead(s, Calc(op, left, right), first + [ts[0]] + more, rest);
    }
  }

  lemma {:induction false} SumJoined(s: Service, op: Arith, l: Expr, first: seq<Token>, word: Token, r: Expr, more: seq<Token>)
    requires Arithmetic(s, l, first) && IsArithWord(word, op) && Primary(s, r, more)
    ensures Arithmetic(s, Calc(op, l, r), first + [word] + more)
  {
    hide Primary;
    var both := first + [word] + more;
    assert both[..|first|] == first && both[|first| + 1..] == more && both[|first|] == word;
  }

  lemma {:induction false} ComparisonIsRead(s: Service, ts: seq<Token>) returns (used: seq<Token>)
    requires ReadComparison(s, ts).Ok?
    ensures var (e, rest) := ReadComparison(s, ts).value; ts == used + rest && Comparison(s, e, used)
    decreases |ts|, 4
  {
    hide Arithmetic, Comparison, ReadOperand;
    used := OperandIsRead(s, ts);
    var (left, rest) := ReadOperand(s, ts).value;
    if rest != [] && rest[0].Word? && CmpNamed(rest[0].text).Some? {
      var more := OperandIsRead(s, rest[1..]);
      ComparisonJoined(s, CmpNamed(rest[0].text).value, left, used, rest[0], ReadOperand(s, rest[1..]).value.0, more);
      assert rest == [rest[0]] + rest[1..];
      used := used + [rest[0]] + more;
    } else {
      OperandCompared(s, left, used);
    }
  }

  /** An operand alone is a condition, or is compared with zero. */
  lemma {:induction false} OperandCompared(s: Service, e: Expr, ts: seq<Token>)
    requires Arithmetic(s, e, ts)
    ensures Comparison(s, if IsBool(e) then e else NonZero(e), ts)
  {
    SumIsOperand(s, e, ts);
  }

  lemma {:induction false} ComparisonJoined(s: Service, cmp: Cmp, l: Expr, first: seq<Token>, word: Token, r: Expr, more: seq<Token>)
    requires Arithmetic(s, l, first) && IsCmpWord(word, cmp) && Arithmetic(s, r, more)
    ensures Comparison(s, Compare(cmp, l, r), first + [word] + more)
  {
    var both := first + [word] + more;
    assert both[..|first|] == first && both[|first| + 1..] == more && both[|first|] == word;
  }

  /** An operand is no comparison, negation, conjunction or disjunction. */
  lemma {:induction false} SumIsOperand(s: Service, e: Expr, ts: seq<Token>)
    requires Arithmetic(s, e, ts)
    ensures !e.Compare? && !e.NonZero? && !e.Not? && !e.And? && !e.Or?
  {
  }

  lemma {:induction false} NegationIsRead(s: Service, ts: seq<Token>) returns (used: seq<Token>)
    requires ReadUnary(s, ts).Ok?
    ensures var (e, rest) := ReadUnary(s, ts).value; ts == used + rest && Negation(s, e, used)
    decreases |ts|, 5
  {
    if StartsWithWord(ts, "not") {
      var inner := NegationIsRead(s, ts[1..]);
      used := [ts[0]] + inner;
      assert used[1..] == inner;
      assert ts == [ts[0]] + ts[1..];
    } else {
      used := ComparisonIsRead(s, ts);
      ComparisonIsNegation(s, ReadComparison(s, ts).value.0, used);
      ComparisonHasTokens(s, ReadComparison(s, ts).value.0, used);
    }
  }

  lemma {:induction false} ComparisonHasTokens(s: Service, e: Expr, ts: seq<Token>)
    requires Comparison(s, e, ts)
    ensures ts != []
  {
    if e.NonZero? {
      SumStarts(s, e.operand, ts);
    } else if !e.Compare? {
      SumStarts(s, e, ts);
    }
  }

  lemma {:induction false} ComparisonIsNegation(s: Service, e: Expr, ts: seq<Token>)
    requires Comparison(s, e, ts)
    ensures !e.Not? && !e.And? && !e.Or?
  {
    if !e.Compare? && !e.NonZero? {
      SumIsOperand(s, e, ts);
    }
  }

  lemma {:induction false} ConjunctionIsRead(s: Service, ts: seq<Token>) returns (used: seq<Token>)
    requires ReadAnd(s, ts).Ok?
    ensures var (e, rest) := ReadAnd(s, ts).value; ts == used + rest && Conjunction(s, e, used)
    decreases |ts|, 6
  {
    var first := NegationIsRead(s, ts);
    var (e, rest) := ReadUnary(s, ts).value;
    NegationIsConjunction(s, e, first);
    used := MoreAndIsRead(s, e, first, rest);
  }

  lemma {:induction false} NegationIsConjunction(s: Service, e: Expr, ts: seq<Token>)
    requires Negation(s, e, ts)
    ensures !e.And? && !e.Or? && Conjunction(s, e, ts)
  {
    if !e.Not? {
      ComparisonIsNegation(s, e, ts);
    }
  }

  lemma {:induction false} MoreAndIsRead(s: Service, left: Expr, first: seq<Token>, ts: seq<Token>) returns (used: seq<Token>)
    requires Conjunction(s, left, first) && MoreAnd(s, left, ts).Ok?
    ensures var (e, rest) := MoreAnd(s, left, ts).value; first + ts == used + rest && Conjunction(s, e, used)
    decreases |ts|, 0
  {
    hide Negation, ReadUnary;
    used := first;
    if StartsWithWord(ts, "and") {
      var more := NegationIsRead(s, ts[1..]);
      var (right, rest) := ReadUnary(s, ts[1..]).value;
      var both := first + [ts[0]] + more;
      assert both[..|first|] == first && both[|first| + 1..] == more && both[|first|] == ts[0];
      assert first + ts == both + rest;
      used := MoreAndIsRead(s, And(left, right), both, rest);
    }
  }

  lemma {:induction false} ConjunctionIsDisjunction(s: Service, e: Expr, ts: seq<Token>)
    requires Conjunction(s, e, ts)
    ensures !e.Or? && Disjunction(s, e, ts)
  {
    if !e.And? {
      NegationIsConjunction(s, e, ts);
    }
  }

  lemma {:induction false} DisjunctionIsRead(s: Service, ts: seq<Token>) returns (used: seq<Token>)
    requires ReadOr(s, ts).Ok?
    ensures var (e, rest) := ReadOr(s, ts).value; ts == used + rest && Disjunction(s, e, used)
    decreases |ts|, 7
  {
    var first := ConjunctionIsRead(s, ts);
    var (e, rest) := ReadAnd(s, ts).value;
    ConjunctionIsDisjunction(s, e, first);
    used := MoreOrIsRead(s, e, first, rest);
  }

  lemma {:induction false} MoreOrIsRead(s: Service, left: Expr, first: seq<Token>, ts: seq<Token>) returns (used: seq<Token>)
    requires Disjunction(s, left, first) && MoreOr(s, left, ts).Ok?
    ensures var (e, rest) := MoreOr(s, left, ts).value; first + ts == used + rest && Disjunction(s, e, used)
    decreases |ts|, 0
  {
    hide Conjunction, ReadAnd;
    used := first;
    if StartsWithWord(ts, "or") {
      var more := ConjunctionIsRead(s, ts[1..]);
      var (right, rest) := ReadAnd(s, ts[1..]).value;
      var both := first + [ts[0]] + more;
      assert both[..|first|] == first && both[|first| + 1..] == more && both[|first|] == ts[0];
      assert first + ts == both + rest;
      used := MoreOrIsRead(s, Or(left, right), both, rest);
    }
  }

  /** A filter is read as an expression if and only if it is a sentence of that expression; so the
      grammar is unambiguous, and everything else is refused. */
  lemma {:induction false} ReadsTheGrammar(s: Service, ts: seq<Token>, e: Expr)
    ensures ReadFilter(s, ts) == Ok(e) <==> Disjunction(s, e, ts)
  {
    assert ts + [] == ts;
    if Disjunction(s, e, ts) {
      DisjunctionReads(s, e, ts, []);
    }
    if ReadFilter(s, ts) == Ok(e) {
      var used := DisjunctionIsRead(s, ts);
      assert used + [] == used;
    }
  }

  /** No filter can be read in two ways. */
  lemma {:induction false} Unambiguous(s: Service, ts: seq<Token>, e: Expr, f: Expr)
    requires Disjunction(s, e, ts) && Disjunction(s, f, ts)
    ensures e == f
  {
    hide *;
    ReadsTheGrammar(s, ts, e);
    ReadsTheGrammar(s, ts, f);
  }
}
