/**
 The expression language of `rmote/templates/engine.py`: tokens, trees, the precedence tables, and the
 Pratt parser as functions on the tokens that are left.
 */
module Expressions {
  import opened Prelude

  // ---------------------------------------------------------------- tokens

  datatype Comparison = Eq | Ne | Lt | Le | Gt | Ge | Is | IsNot | In | NotIn

  datatype Operator = Or | And | Add | Sub | Mul | Div | FloorDiv | Mod | Pow

  datatype Prefix = NotOp | Plus | Minus

  /** The value of a literal: a number or string stands for itself. */
  datatype Constant = TrueValue | FalseValue | NoneValue | Value(id: nat)

  datatype Token =
    | TName(name: string)     // an identifier that is no keyword
    | TLiteral(value: Constant)
    | TIf | TElse | TOr | TAnd | TNot | TIn | TIs
    | TEq | TNe | TLt | TLe | TGt | TGe
    | TPlus | TMinus | TStar | TSlash | TSlashSlash | TPercent | TStarStar
    | TBar | TDot | TLeftBracket | TRightBracket | TLeftParen | TRightParen | TComma | TAssign

  // ---------------------------------------------------------------- trees

  datatype Expr =
    | Literal(value: Constant)
    | Variable(name: string)
    | Unary(prefix: Prefix, operand: Expr)
    | Binary(op: Operator, left: Expr, right: Expr)
    | Compare(first: Expr, links: Links)
    | Conditional(condition: Expr, positive: Expr, negative: Expr)
    | Attribute(base: Expr, attribute: string)
    | Lookup(base: Expr, key: Expr)
    | Filter(filter: string, input: Expr, arguments: Arguments)
    | List(items: Exprs)
    | Tuple(items: Exprs)

  datatype Links = NoLinks | Link(op: Comparison, operand: Expr, more: Links)

  datatype Exprs = NoExprs | Cons(head: Expr, tail: Exprs)

  /** The arguments of a filter in order; those with a name are keyword arguments. */
  datatype Arguments = NoArguments | Argument(name: Option<string>, value: Expr, more: Arguments)

  // ---------------------------------------------------------------- precedence tables

  datatype Infix = InfixIf | InfixBinary(op: Operator) | InfixCompare(c: Comparison) | InfixFilter | InfixDot | InfixBracket | NoInfix

  const CONDITIONAL: int := 5
  const COMPARISON: int := 40

  function OperatorPrecedence(op: Operator): (p: int) {
    match op
    case Or => 10
    case And => 20
    case Add => 50
    case Sub => 50
    case Mul => 60
    case Div => 60
    case FloorDiv => 60
    case Mod => 60
    case Pow => 80
  }

  function PrefixPrecedence(p: Prefix): (r: int) {
    match p
    case NotOp => 35
    case Plus => 95
    case Minus => 95
  }

  function Precedence(i: Infix): (p: int) {
    match i
    case InfixIf => CONDITIONAL
    case InfixBinary(op) => OperatorPrecedence(op)
    case InfixCompare(_) => COMPARISON
    case InfixFilter => 90
    case InfixDot => 100
    case InfixBracket => 100
    case NoInfix => -1
  }

  // ---------------------------------------------------------------- reading operators

  function Peek(ts: seq<Token>, distance: nat): (t: Option<Token>) {
    if distance < |ts| then Some(ts[distance]) else None
  }

  /** `operation`: the infix operator at the front and the number of its tokens. */
  function Operation(ts: seq<Token>): (r: (Infix, nat))
    ensures r.1 <= |ts| && (r.0 != NoInfix ==> r.1 > 0)
  {
    if ts == [] then (NoInfix, 0)
    else
      match ts[0]
      case TNot => if Peek(ts, 1) == Some(TIn) then (InfixCompare(NotIn), 2) else (NoInfix, 0)
      case TIs => if Peek(ts, 1) == Some(TNot) then (InfixCompare(IsNot), 2) else (InfixCompare(Is), 1)
      case TIn => (InfixCompare(In), 1)
      case TEq => (InfixCompare(Eq), 1)
      case TNe => (InfixCompare(Ne), 1)
      case TLt => (InfixCompare(Lt), 1)
      case TLe => (InfixCompare(Le), 1)
      case TGt => (InfixCompare(Gt), 1)
      case TGe => (InfixCompare(Ge), 1)
      case TIf => (InfixIf, 1)
      case TOr => (InfixBinary(Or), 1)
      case TAnd => (InfixBinary(And), 1)
      case TPlus => (InfixBinary(Add), 1)
      case TMinus => (InfixBinary(Sub), 1)
      case TStar => (InfixBinary(Mul), 1)
      case TSlash => (InfixBinary(Div), 1)
      case TSlashSlash => (InfixBinary(FloorDiv), 1)
      case TPercent => (InfixBinary(Mod), 1)
      case TStarStar => (InfixBinary(Pow), 1)
      case TBar => (InfixFilter, 1)
      case TDot => (InfixDot, 1)
      case TLeftBracket => (InfixBracket, 1)
      case _ => (NoInfix, 0)
  }

  /** The lower-case names of `LITERALS`; the capitalised ones are keywords and arrive as literals. */
  function NamedLiteral(name: string): (c: Option<Constant>) {
    if name == "true" then Some(TrueValue)
    else if name == "false" then Some(FalseValue)
    else if name == "none" then Some(NoneValue)
    else None
  }

  /** A public name: private ones are refused. */
  predicate Public(name: string) { name != "" && name[0] != '_' }

  // ---------------------------------------------------------------- the parser

  type Parsed<T> = Option<(T, seq<Token>)>

  /** `take(expected)`. */
  function Take(ts: seq<Token>, t: Token): (r: Option<seq<Token>>)
    ensures r.Some? ==> |r.value| < |ts|
  {
    if ts != [] && ts[0] == t then Some(ts[1..]) else None
  }

  function TakeName(ts: seq<Token>): (r: Parsed<string>)
    ensures r.Some? ==> |r.value.1| < |ts|
  {
    if ts != [] && ts[0].TName? && Public(ts[0].name) then Some((ts[0].name, ts[1..])) else None
  }

  function ParseExpression(fs: set<string>, ts: seq<Token>, minimum: int): (r: Parsed<Expr>)
    ensures r.Some? ==> |r.value.1| < |ts|
    decreases |ts|, 1
  {
    var p := ParsePrimary(fs, ts);
    if p.None? then None else ParseLoop(fs, p.value.0, p.value.1, minimum)
  }

  /** The loop of `expression`: infix operators that bind at least as tight as `minimum`. */
  function ParseLoop(fs: set<string>, left: Expr, ts: seq<Token>, minimum: int): (r: Parsed<Expr>)
    ensures r.Some? ==> |r.value.1| <= |ts|
    decreases |ts|, 1
  {
    var (op, width) := Operation(ts);
    if op == NoInfix || Precedence(op) < minimum then Some((left, ts))
    else
      var i := ParseInfix(fs, left, op, ts[width..]);
      if i.None? then None else ParseLoop(fs, i.value.0, i.value.1, minimum)
  }

  function PrefixOf(t: Token): (p: Option<Prefix>) {
    match t
    case TNot => Some(NotOp)
    case TPlus => Some(Plus)
    case TMinus => Some(Minus)
    case _ => None
  }

  function ParsePrimary(fs: set<string>, ts: seq<Token>): (r: Parsed<Expr>)
    ensures r.Some? ==> |r.value.1| < |ts|
    decreases |ts|, 0
  {
    if ts == [] then None
    else if PrefixOf(ts[0]).Some? then
      var p := PrefixOf(ts[0]).value;
      var e := ParseExpression(fs, ts[1..], PrefixPrecedence(p));
      if e.None? then None else Some((Unary(p, e.value.0), e.value.1))
    else
      match ts[0]
      case TLiteral(v) => Some((Literal(v), ts[1..]))
      case TName(name) =>
        if NamedLiteral(name).Some? then Some((Literal(NamedLiteral(name).value), ts[1..]))
        else if Public(name) then Some((Variable(name), ts[1..]))
        else None
      case TLeftParen => ParseParenthesis(fs, ts[1..])
      case TLeftBracket =>
        var items := ParseItems(fs, ts[1..], TRightBracket);
        if items.None? then None else Some((List(items.value.0), items.value.1))
      case _ => None
  }

  function ParseParenthesis(fs: set<string>, ts: seq<Token>): (r: Parsed<Expr>)
    ensures r.Some? ==> |r.value.1| < |ts|
    decreases |ts|, 3
  {
    if Take(ts, TRightParen).Some? then Some((Tuple(NoExprs), ts[1..]))
    else
      var first := ParseExpression(fs, ts, 0);
      if first.None? then None
      else if Peek(first.value.1, 0) == Some(TComma) then
        var more := ParseMore(fs, first.value.1, TRightParen);
        if more.None? then None else Some((Tuple(Cons(first.value.0, more.value.0)), more.value.1))
      else
        var rest := Take(first.value.1, TRightParen);
        if rest.None? then None else Some((first.value.0, rest.value))
  }

  /** `sequence` with no first item: items up to and including `closing`. */
  function ParseItems(fs: set<string>, ts: seq<Token>, closing: Token): (r: Parsed<Exprs>)
    ensures r.Some? ==> |r.value.1| < |ts|
    decreases |ts|, 3
  {
    if Take(ts, closing).Some? then Some((NoExprs, ts[1..]))
    else
      var e := ParseExpression(fs, ts, 0);
      if e.None? then None
      else
        var more := ParseMore(fs, e.value.1, closing);
        if more.None? then None else Some((Cons(e.value.0, more.value.0), more.value.1))
  }

  /** The comma loop of `sequence`, after an item; a comma may stand before `closing`. */
  function ParseMore(fs: set<string>, ts: seq<Token>, closing: Token): (r: Parsed<Exprs>)
    ensures r.Some? ==> |r.value.1| < |ts|
    decreases |ts|, 3
  {
    if Peek(ts, 0) != Some(TComma) then
      var rest := Take(ts, closing);
      if rest.None? then None else Some((NoExprs, rest.value))
    else if Take(ts[1..], closing).Some? then Some((NoExprs, ts[2..]))
    else
      var e := ParseExpression(fs, ts[1..], 0);
      if e.None? then None
      else
        var more := ParseMore(fs, e.value.1, closing);
        if more.None? then None else Some((Cons(e.value.0, more.value.0), more.value.1))
  }

  function ParseInfix(fs: set<string>, left: Expr, op: Infix, ts: seq<Token>): (r: Parsed<Expr>)
    ensures r.Some? ==> |r.value.1| < |ts|
    decreases |ts|, 4
  {
    match op
    case InfixDot =>
      var n := TakeName(ts);
      if n.None? then None else Some((Attribute(left, n.value.0), n.value.1))
    case InfixBracket =>
      var key := ParseExpression(fs, ts, 0);
      if key.None? then None
      else
        var rest := Take(key.value.1, TRightBracket);
        if rest.None? then None else Some((Lookup(left, key.value.0), rest.value))
    case InfixFilter => ParseFilter(fs, left, ts)
    case InfixIf =>
      var condition := ParseExpression(fs, ts, CONDITIONAL + 1);
      if condition.None? then None
      else
        var rest := Take(condition.value.1, TElse);
        if rest.None? then None
        else
          var negative := ParseExpression(fs, rest.value, CONDITIONAL);
          if negative.None? then None
          else Some((Conditional(condition.value.0, left, negative.value.0), negative.value.1))
    case InfixCompare(c) =>
      var links := ParseLinks(fs, c, ts);
      if links.None? then None else Some((Compare(left, links.value.0), links.value.1))
    case InfixBinary(b) =>
      var right := ParseExpression(fs, ts, if b == Pow then OperatorPrecedence(b) else OperatorPrecedence(b) + 1);
      if right.None? then None else Some((Binary(b, left, right.value.0), right.value.1))
    case NoInfix => None
  }

  function ParseFilter(fs: set<string>, left: Expr, ts: seq<Token>): (r: Parsed<Expr>)
    ensures r.Some? ==> |r.value.1| < |ts|
    decreases |ts|, 3
  {
    var n := TakeName(ts);
    if n.None? || n.value.0 !in fs then None
    else if Peek(n.value.1, 0) != Some(TLeftParen) then Some((Filter(n.value.0, left, NoArguments), n.value.1))
    else
      var arguments := ParseArguments(fs, n.value.1[1..]);
      if arguments.None? then None else Some((Filter(n.value.0, left, arguments.value.0), arguments.value.1))
  }

  /** `sequence` of `argument`, up to and including the closing parenthesis. */
  function ParseArguments(fs: set<string>, ts: seq<Token>): (r: Parsed<Arguments>)
    ensures r.Some? ==> |r.value.1| < |ts|
    decreases |ts|, 4
  {
    if Take(ts, TRightParen).Some? then Some((NoArguments, ts[1..])) else ParseNextArguments(fs, ts, {})
  }

  /** An argument and those after it; `used` are the names of the keyword arguments before it. */
  function ParseNextArguments(fs: set<string>, ts: seq<Token>, used: set<string>): (r: Parsed<Arguments>)
    ensures r.Some? ==> |r.value.1| < |ts|
    decreases |ts|, 3
  {
    var a := ParseArgument(fs, ts, used);
    if a.None? then None
    else
      var (name, value) := a.value.0;
      var more := ParseMoreArguments(fs, a.value.1, used + Named(name));
      if more.None? then None else Some((Argument(name, value, more.value.0), more.value.1))
  }

  function Named(name: Option<string>): (r: set<string>) { if name.Some? then {name.value} else {} }

  /** `argument`: a name before `=` that no other has, or an expression before all names. */
  function ParseArgument(fs: set<string>, ts: seq<Token>, used: set<string>): (r: Parsed<(Option<string>, Expr)>)
    ensures r.Some? ==> |r.value.1| < |ts|
    decreases |ts|, 2
  {
    if Peek(ts, 1) == Some(TAssign) then
      var n := TakeName(ts);
      if n.None? || n.value.0 in used then None
      else
        var e := ParseExpression(fs, ts[2..], 0);
        if e.None? then None else Some(((Some(n.value.0), e.value.0), e.value.1))
    else if used != {} then None
    else
      var e := ParseExpression(fs, ts, 0);
      if e.None? then None else Some(((None, e.value.0), e.value.1))
  }

  /** The comma loop of `sequence`, after an argument. */
  function ParseMoreArguments(fs: set<string>, ts: seq<Token>, used: set<string>): (r: Parsed<Arguments>)
    ensures r.Some? ==> |r.value.1| < |ts|
    decreases |ts|, 3
  {
    if Peek(ts, 0) != Some(TComma) then
      var rest := Take(ts, TRightParen);
      if rest.None? then None else Some((NoArguments, rest.value))
    else if Take(ts[1..], TRightParen).Some? then Some((NoArguments, ts[2..]))
    else ParseNextArguments(fs, ts[1..], used)
  }

  /** The chain of comparisons, whose first operator is already taken. */
  function ParseLinks(fs: set<string>, c: Comparison, ts: seq<Token>): (r: Parsed<Links>)
    ensures r.Some? ==> |r.value.1| < |ts|
    decreases |ts|, 3
  {
    var e := ParseExpression(fs, ts, COMPARISON + 1);
    if e.None? then None
    else
      var (op, width) := Operation(e.value.1);
      if !op.InfixCompare? then Some((Link(c, e.value.0, NoLinks), e.value.1))
      else
        var more := ParseLinks(fs, op.c, e.value.1[width..]);
        if more.None? then None else Some((Link(c, e.value.0, more.value.0), more.value.1))
  }

  /** `parse`: a whole tag; a comma at the top level makes a tuple. */
  function Parse(fs: set<string>, ts: seq<Token>): (r: Option<Expr>) {
    var e := ParseExpression(fs, ts, 0);
    if e.None? then None
    else if e.value.1 == [] then Some(e.value.0)
    else if e.value.1[0] != TComma then None
    else
      var items := ParseTop(fs, e.value.1);
      if items.Some? && items.value.1 == [] then Some(Tuple(Cons(e.value.0, items.value.0))) else None
  }

  /** The comma loop of `sequence` without a closing token. */
  function ParseTop(fs: set<string>, ts: seq<Token>): (r: Parsed<Exprs>)
    decreases |ts|
  {
    if Peek(ts, 0) != Some(TComma) || ts[1..] == [] then Some((NoExprs, if ts == [] || ts[0] != TComma then ts else ts[1..]))
    else
      var e := ParseExpression(fs, ts[1..], 0);
      if e.None? then None
      else
        var more := ParseTop(fs, e.value.1);
        if more.None? then None else Some((Cons(e.value.0, more.value.0), more.value.1))
  }
}
