/** The `$filter` language from its tokens up: `or` below `and` below `not` below comparisons
    below arithmetic, which is read from left to right. */
module FilterSyntax {
  import opened Common
  import opened Text

  datatype Value = Null | Number(n: real) | Words(s: string)

  /** Which version of the protocol a literal is spelled for. */
  datatype Dialect = Either | OnlyV2 | OnlyV4

  /** A literal comes with the value it stands for: None for a date that is none. */
  datatype Token = Word(text: string) | Literal(value: Option<Value>, dialect: Dialect) | Open | Close | Comma | Slash

  datatype Arith = Add | Sub | Mul | Div | Mod
  datatype Cmp = Eq | Ne | Gt | Ge | Lt | Le

  datatype Fn =
    | SubstringOf | Containing | StartsWith | EndsWith
    | IndexOf | ToLower | ToUpper | Trim | Length | Concat | Substring
    | DatePart(format: string)

  datatype Expr =
    | Const(v: Value)
    | NullLit
    | Column(name: string, decimal: bool)
    | Paren(inner: Expr)
    | Calc(op: Arith, left: Expr, right: Expr)
    | Call(fn: Fn, args: seq<Expr>)
    | Compare(cmp: Cmp, left: Expr, right: Expr)
    | NonZero(operand: Expr)
    | Not(operand: Expr)
    | And(left: Expr, right: Expr)
    | Or(left: Expr, right: Expr)

  /** The columns a path may name, and the version the service speaks. */
  datatype Service = Service(columns: map<string, Expr>, version: nat)

  datatype Error =
    | EndOfFilter | Expected(what: Token) | Unexpected(token: Token) | WrongDialect | NotADate
    | NoProperty(path: string) | ArgumentCount(fn: Fn) | Unsupported(name: string)

  datatype Result<+T> = Ok(value: T) | Err(error: Error) {
    predicate IsFailure() { Err? }
    function PropagateFailure<U>(): Result<U> requires Err? { Err(error) }
    function Extract(): T requires Ok? { value }
  }

  type Read = Result<(Expr, seq<Token>)>

  // ----- words -----

  predicate StartsWithWord(ts: seq<Token>, word: string) {
    ts != [] && ts[0].Word? && Lower(ts[0].text) == word
  }

  function CmpNamed(text: string): Option<Cmp> {
    match Lower(text)
    case "eq" => Some(Eq)
    case "ne" => Some(Ne)
    case "gt" => Some(Gt)
    case "ge" => Some(Ge)
    case "lt" => Some(Lt)
    case "le" => Some(Le)
    case _ => None
  }

  function ArithNamed(text: string): Option<Arith> {
    match Lower(text)
    case "add" => Some(Add)
    case "sub" => Some(Sub)
    case "mul" => Some(Mul)
    case "div" => Some(Div)
    case "mod" => Some(Mod)
    case _ => None
  }

  function FnNamed(name: string): Option<Fn> {
    match name
    case "substringof" => Some(SubstringOf)
    case "contains" => Some(Containing)
    case "startswith" => Some(StartsWith)
    case "endswith" => Some(EndsWith)
    case "indexof" => Some(IndexOf)
    case "tolower" => Some(ToLower)
    case "toupper" => Some(ToUpper)
    case "trim" => Some(Trim)
    case "length" => Some(Length)
    case "concat" => Some(Concat)
    case "substring" => Some(Substring)
    case "year" => Some(DatePart("%Y"))
    case "month" => Some(DatePart("%m"))
    case "day" => Some(DatePart("%d"))
    case "hour" => Some(DatePart("%H"))
    case "minute" => Some(DatePart("%M"))
    case "second" => Some(DatePart("%S"))
    case _ => None
  }

  predicate TakesArgs(fn: Fn, n: nat) {
    match fn
    case SubstringOf => n == 2
    case Containing => n == 2
    case StartsWith => n == 2
    case EndsWith => n == 2
    case IndexOf => n == 2
    case Concat => n == 2
    case Substring => n == 2 || n == 3
    case _ => n == 1
  }

  predicate IsBoolFn(fn: Fn) {
    fn == SubstringOf || fn == Containing || fn == StartsWith || fn == EndsWith
  }

  /** What is a condition already; anything else becomes one by being compared with zero. A
      parenthesis holds a condition whatever was written in it. */
  predicate IsBool(e: Expr) {
    match e
    case Call(fn, _) => IsBoolFn(fn)
    case Paren(_) => true
    case Compare(_, _, _) => true
    case NonZero(_) => true
    case Not(_) => true
    case And(_, _) => true
    case Or(_, _) => true
    case _ => false
  }

  /** Calls with the right number of arguments, all the way down. */
  predicate Shaped(e: Expr) {
    match e
    case Paren(inner) => Shaped(inner)
    case Calc(_, l, r) => Shaped(l) && Shaped(r)
    case Call(fn, args) => TakesArgs(fn, |args|) && forall i :: 0 <= i < |args| ==> Shaped(args[i])
    case Compare(_, l, r) => Shaped(l) && Shaped(r)
    case NonZero(x) => Shaped(x)
    case Not(x) => Shaped(x)
    case And(l, r) => Shaped(l) && Shaped(r)
    case Or(l, r) => Shaped(l) && Shaped(r)
    case _ => true
  }

  predicate AllShaped(args: seq<Expr>) {
    forall i :: 0 <= i < |args| ==> Shaped(args[i])
  }

  // ----- reading -----

  function ReadOr(s: Service, ts: seq<Token>): (r: Read)
    ensures r.Ok? ==> |r.value.1| < |ts| && Shaped(r.value.0) && IsBool(r.value.0)
    decreases |ts|, 7
  {
    var (left, rest) :- ReadAnd(s, ts);
    MoreOr(s, left, rest)
  }

  function MoreOr(s: Service, left: Expr, ts: seq<Token>): (r: Read)
    ensures r.Ok? ==> |r.value.1| <= |ts| && (Shaped(left) ==> Shaped(r.value.0)) && (IsBool(left) ==> IsBool(r.value.0))
    decreases |ts|, 0
  {
    if StartsWithWord(ts, "or") then
      var (right, rest) :- ReadAnd(s, ts[1..]);
      MoreOr(s, Or(left, right), rest)
    else Ok((left, ts))
  }

  function ReadAnd(s: Service, ts: seq<Token>): (r: Read)
    ensures r.Ok? ==> |r.value.1| < |ts| && Shaped(r.value.0) && IsBool(r.value.0)
    decreases |ts|, 6
  {
    var (left, rest) :- ReadUnary(s, ts);
    MoreAnd(s, left, rest)
  }

  function MoreAnd(s: Service, left: Expr, ts: seq<Token>): (r: Read)
    ensures r.Ok? ==> |r.value.1| <= |ts| && (Shaped(left) ==> Shaped(r.value.0)) && (IsBool(left) ==> IsBool(r.value.0))
    decreases |ts|, 0
  {
    if StartsWithWord(ts, "and") then
      var (right, rest) :- ReadUnary(s, ts[1..]);
      MoreAnd(s, And(left, right), rest)
    else Ok((left, ts))
  }

  function ReadUnary(s: Service, ts: seq<Token>): (r: Read)
    ensures r.Ok? ==> |r.value.1| < |ts| && Shaped(r.value.0) && IsBool(r.value.0)
    decreases |ts|, 5
  {
    if StartsWithWord(ts, "not") then
      var (inner, rest) :- ReadUnary(s, ts[1..]);
      Ok((Not(inner), rest))
    else ReadComparison(s, ts)
  }

  function ReadComparison(s: Service, ts: seq<Token>): (r: Read)
    ensures r.Ok? ==> |r.value.1| < |ts| && Shaped(r.value.0) && IsBool(r.value.0)
    decreases |ts|, 4
  {
    var (left, rest) :- ReadOperand(s, ts);
    if rest != [] && rest[0].Word? && CmpNamed(rest[0].text).Some? then
      var (right, rest') :- ReadOperand(s, rest[1..]);
      Ok((Compare(CmpNamed(rest[0].text).value, left, right), rest'))
    else Ok((if IsBool(left) then left else NonZero(left), rest))
  }

  function ReadOperand(s: Service, ts: seq<Token>): (r: Read)
    ensures r.Ok? ==> |r.value.1| < |ts| && Shaped(r.value.0)
    decreases |ts|, 3
  {
    var (left, rest) :- ReadPrimary(s, ts);
    MoreOperand(s, left, rest)
  }

  function MoreOperand(s: Service, left: Expr, ts: seq<Token>): (r: Read)
    ensures r.Ok? ==> |r.value.1| <= |ts| && (Shaped(left) ==> Shaped(r.value.0))
    decreases |ts|, 0
  {
    if ts != [] && ts[0].Word? && ArithNamed(ts[0].text).Some? then
      var (right, rest) :- ReadPrimary(s, ts[1..]);
      MoreOperand(s, Calc(ArithNamed(ts[0].text).value, left, right), rest)
    else Ok((left, ts))
  }

  function ReadPrimary(s: Service, ts: seq<Token>): (r: Read)
    ensures r.Ok? ==> |r.value.1| < |ts| && Shaped(r.value.0)
    decreases |ts|, 2
  {
    if ts == [] then Err(EndOfFilter)
    else
      match ts[0]
      case Open =>
        var (inner, rest) :- ReadOr(s, ts[1..]);
        var rest' :- Expect(Close, rest);
        Ok((Paren(inner), rest'))
      case Literal(value, dialect) =>
        var v :- LiteralOf(s, value, dialect);
        Ok((Const(v), ts[1..]))
      case Word(text) => ReadWord(s, text, ts[1..])
      case other => Err(Unexpected(other))
  }

  function Expect(token: Token, ts: seq<Token>): (r: Result<seq<Token>>)
    ensures r.Ok? ==> |r.value| < |ts|
  {
    if ts == [] then Err(EndOfFilter) else if ts[0] != token then Err(Expected(token)) else Ok(ts[1..])
  }

  /** A service takes the literals of the version it speaks. */
  function LiteralOf(s: Service, value: Option<Value>, dialect: Dialect): Result<Value> {
    if dialect == OnlyV2 && s.version >= 4 then Err(WrongDialect)
    else if dialect == OnlyV4 && s.version < 4 then Err(WrongDialect)
    else match value case Some(v) => Ok(v) case None => Err(NotADate)
  }

  /** A word and what follows it: a constant, a call, or a column. */
  function ReadWord(s: Service, text: string, ts: seq<Token>): (r: Read)
    ensures r.Ok? ==> |r.value.1| <= |ts| && Shaped(r.value.0)
    decreases |ts|, 1
  {
    match Lower(text)
    case "null" => Ok((NullLit, ts))
    case "true" => Ok((Const(Number(1.0)), ts))
    case "false" => Ok((Const(Number(0.0)), ts))
    case low =>
      if ts != [] && ts[0] == Open then
        var (args, rest) :- ReadCall(s, ts[1..]);
        var call :- CallOf(low, args);
        Ok((call, rest))
      else ReadColumn(s, text, ts)
  }

  function ReadColumn(s: Service, name: string, ts: seq<Token>): (r: Read)
    ensures r.Ok? ==> |r.value.1| <= |ts| && Shaped(r.value.0)
  {
    if ts != [] && ts[0] == Slash then
      if |ts| == 1 then Err(EndOfFilter)
      else if !ts[1].Word? then Err(Expected(Word("")))
      else
        var column :- ColumnAt(s, name + "/" + ts[1].text);
        Ok((column, ts[2..]))
    else
      var column :- ColumnAt(s, name);
      Ok((column, ts))
  }

  function ColumnAt(s: Service, path: string): (r: Result<Expr>)
    ensures r.Ok? ==> r.value.Column?
  {
    if path in s.columns && s.columns[path].Column? then Ok(s.columns[path]) else Err(NoProperty(path))
  }

  /** The arguments after an opening parenthesis, and what follows the closing one. */
  function ReadCall(s: Service, ts: seq<Token>): (r: Result<(seq<Expr>, seq<Token>)>)
    ensures r.Ok? ==> |r.value.1| < |ts| && AllShaped(r.value.0)
    decreases |ts|, 5
  {
    if ts != [] && ts[0] != Close then
      var (args, rest) :- ReadArgs(s, [], ts);
      var rest' :- Expect(Close, rest);
      Ok((args, rest'))
    else
      var rest :- Expect(Close, ts);
      Ok(([], rest))
  }

  function ReadArgs(s: Service, before: seq<Expr>, ts: seq<Token>): (r: Result<(seq<Expr>, seq<Token>)>)
    ensures r.Ok? ==> |r.value.1| < |ts| && (AllShaped(before) ==> AllShaped(r.value.0))
    decreases |ts|, 4
  {
    var (arg, rest) :- ReadOperand(s, ts);
    if rest != [] && rest[0] == Comma then ReadArgs(s, before + [arg], rest[1..])
    else Ok((before + [arg], rest))
  }

  function CallOf(name: string, args: seq<Expr>): (r: Result<Expr>)
    ensures r.Ok? && AllShaped(args) ==> Shaped(r.value)
  {
    match FnNamed(name)
    case None => Err(Unsupported(name))
    case Some(fn) => if TakesArgs(fn, |args|) then Ok(Call(fn, args)) else Err(ArgumentCount(fn))
  }

  /** A whole filter. */
  function ReadFilter(s: Service, ts: seq<Token>): (r: Result<Expr>)
    ensures r.Ok? ==> Shaped(r.value)
  {
    var (e, rest) :- ReadOr(s, ts);
    if rest == [] then Ok(e) else Err(Unexpected(rest[0]))
  }
}
