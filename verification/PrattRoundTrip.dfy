/**
 The Pratt round trip: every tree, printed with the parentheses that the precedence tables ask for and
 no others, is parsed back to itself.
 */
module PrattRoundTrip {
  import opened Prelude
  import opened Expressions

  // ---------------------------------------------------------------- printing

  const ATOM: int := 200

  /** How tight the outermost construct of a tree binds. */
  function Level(e: Expr): (n: int) {
    match e
    case Unary(p, _) => PrefixPrecedence(p)
    case Binary(op, _, _) => OperatorPrecedence(op)
    case Compare(_, _) => COMPARISON
    case Conditional(_, _, _) => CONDITIONAL
    case Attribute(_, _) => 100
    case Lookup(_, _) => 100
    case Filter(_, _, _) => 90
    case Literal(_) => ATOM
    case Variable(_) => ATOM
    case List(_) => ATOM
    case Tuple(_) => ATOM
  }

  function PrefixToken(p: Prefix): (t: Token) {
    match p case NotOp => TNot case Plus => TPlus case Minus => TMinus
  }

  function OperatorToken(op: Operator): (t: Token) {
    match op
    case Or => TOr
    case And => TAnd
    case Add => TPlus
    case Sub => TMinus
    case Mul => TStar
    case Div => TSlash
    case FloorDiv => TSlashSlash
    case Mod => TPercent
    case Pow => TStarStar
  }

  function ComparisonTokens(c: Comparison): (ts: seq<Token>)
    ensures 1 <= |ts| <= 2
  {
    match c
    case Eq => [TEq]
    case Ne => [TNe]
    case Lt => [TLt]
    case Le => [TLe]
    case Gt => [TGt]
    case Ge => [TGe]
    case Is => [TIs]
    case IsNot => [TIs, TNot]
    case In => [TIn]
    case NotIn => [TNot, TIn]
  }

  /** What the operands of a binary operator must bind at least as tight as: `**` associates to the right. */
  function LeftMinimum(op: Operator): (n: int) { if op == Pow then OperatorPrecedence(op) + 1 else OperatorPrecedence(op) }

  function RightMinimum(op: Operator): (n: int) { if op == Pow then OperatorPrecedence(op) else OperatorPrecedence(op) + 1 }

  function Print(e: Expr, minimum: int): (ts: seq<Token>)
    ensures ts != []
    decreases e, 1
  {
    if Level(e) < minimum then [TLeftParen] + PrintBare(e) + [TRightParen] else PrintBare(e)
  }

  function PrintBare(e: Expr): (ts: seq<Token>)
    ensures ts != []
    decreases e, 0
  {
    match e
    case Literal(v) => [TLiteral(v)]
    case Variable(name) => [TName(name)]
    case Unary(p, x) => [PrefixToken(p)] + Print(x, PrefixPrecedence(p))
    case Binary(op, l, r) => Print(l, LeftMinimum(op)) + ([OperatorToken(op)] + Print(r, RightMinimum(op)))
    case Compare(first, links) => Print(first, COMPARISON + 1) + PrintLinks(links)
    case Conditional(c, positive, negative) =>
      Print(positive, CONDITIONAL + 1) + ([TIf] + (Print(c, CONDITIONAL + 1) + ([TElse] + Print(negative, CONDITIONAL))))
    case Attribute(x, name) => Print(x, 100) + [TDot, TName(name)]
    case Lookup(x, key) => Print(x, 100) + ([TLeftBracket] + (Print(key, 0) + [TRightBracket]))
    case Filter(name, x, arguments) =>
      Print(x, 90) + ([TBar, TName(name)] + (if arguments.NoArguments? then [] else [TLeftParen] + PrintArguments(arguments)))
    case List(items) => [TLeftBracket] + PrintItems(items, TRightBracket)
    case Tuple(items) =>
      match items
      case NoExprs => [TLeftParen, TRightParen]
      case Cons(x, tail) =>
        [TLeftParen] + (Print(x, 0) + (if tail.NoExprs? then [TComma, TRightParen] else PrintMore(tail, TRightParen)))
  }

  function PrintLinks(links: Links): (ts: seq<Token>)
    decreases links
  {
    match links
    case NoLinks => []
    case Link(c, e, more) => ComparisonTokens(c) + (Print(e, COMPARISON + 1) + PrintLinks(more))
  }

  function PrintItems(items: Exprs, closing: Token): (ts: seq<Token>)
    ensures ts != []
    decreases items, 1
  {
    match items
    case NoExprs => [closing]
    case Cons(e, tail) => Print(e, 0) + PrintMore(tail, closing)
  }

  function PrintMore(items: Exprs, closing: Token): (ts: seq<Token>)
    ensures ts != []
    decreases items, 0
  {
    match items
    case NoExprs => [closing]
    case Cons(e, tail) => [TComma] + (Print(e, 0) + PrintMore(tail, closing))
  }

  function PrintArguments(a: Arguments): (ts: seq<Token>)
    ensures ts != []
    decreases a, 0
  {
    match a
    case NoArguments => [TRightParen]
    case Argument(name, e, more) => PrintName(name) + (Print(e, 0) + PrintMoreArguments(more))
  }

  function PrintName(name: Option<string>): (ts: seq<Token>) { if name.Some? then [TName(name.value), TAssign] else [] }

  function PrintMoreArguments(a: Arguments): (ts: seq<Token>)
    ensures ts != []
    decreases a, 1
  {
    if a.NoArguments? then [TRightParen] else [TComma] + PrintArguments(a)
  }

  // ---------------------------------------------------------------- well-formed trees

  /** Names are public, filters are known, and a comparison compares something. */
  predicate WellFormed(fs: set<string>, e: Expr) {
    match e
    case Literal(_) => true
    case Variable(name) => Public(name) && NamedLiteral(name).None?
    case Unary(_, x) => WellFormed(fs, x)
    case Binary(_, l, r) => WellFormed(fs, l) && WellFormed(fs, r)
    case Compare(first, links) => links.Link? && WellFormed(fs, first) && WellFormedLinks(fs, links)
    case Conditional(c, p, n) => WellFormed(fs, c) && WellFormed(fs, p) && WellFormed(fs, n)
    case Attribute(x, name) => Public(name) && WellFormed(fs, x)
    case Lookup(x, key) => WellFormed(fs, x) && WellFormed(fs, key)
    case Filter(name, x, arguments) => Public(name) && name in fs && WellFormed(fs, x) && WellFormedArguments(fs, arguments, {})
    case List(items) => WellFormedAll(fs, items)
    case Tuple(items) => WellFormedAll(fs, items)
  }

  predicate WellFormedLinks(fs: set<string>, links: Links) {
    links.NoLinks? || (WellFormed(fs, links.operand) && WellFormedLinks(fs, links.more))
  }

  predicate WellFormedAll(fs: set<string>, items: Exprs) {
    items.NoExprs? || (WellFormed(fs, items.head) && WellFormedAll(fs, items.tail))
  }

  /** Keyword arguments come last and have different public names; `used` are the names before. */
  predicate WellFormedArguments(fs: set<string>, a: Arguments, used: set<string>) {
    a.NoArguments? || (
      && (if a.name.Some? then Public(a.name.value) && a.name.value !in used else used == {})
      && WellFormed(fs, a.value) && WellFormedArguments(fs, a.more, used + Named(a.name)))
  }

  // ---------------------------------------------------------------- what may follow a tree

  /** The weakest operator that the last operand of a bare tree would still swallow. */
  function Tail(e: Expr): (n: int)
    ensures n >= Level(e)
  {
    match e
    case Unary(p, _) => PrefixPrecedence(p)
    case Binary(op, _, _) => RightMinimum(op)
    case Compare(_, _) => COMPARISON
    case Conditional(_, _, _) => CONDITIONAL
    case _ => ATOM
  }

  function TailOf(e: Expr, minimum: int): (n: int) { if Level(e) < minimum then ATOM else Tail(e) }

  /** `rest` starts with nothing that the printed tree before it would take. */
  predicate Follows(rest: seq<Token>, tail: int) {
    Peek(rest, 0) != Some(TLeftParen) && Precedence(Operation(rest).0) < tail
  }

  lemma LoopStops(fs: set<string>, e: Expr, rest: seq<Token>, minimum: int)
    requires Precedence(Operation(rest).0) < minimum
    ensures ParseLoop(fs, e, rest, minimum) == Some((e, rest))
  {
  }

  lemma LoopTakes(fs: set<string>, left: Expr, ts: seq<Token>, minimum: int, op: Infix, width: nat, e: Expr, rest: seq<Token>)
    requires Operation(ts) == (op, width) && op != NoInfix && Precedence(op) >= minimum
    requires ParseInfix(fs, left, op, ts[width..]) == Some((e, rest))
    ensures ParseLoop(fs, left, ts, minimum) == ParseLoop(fs, e, rest, minimum)
  {
  }

  lemma MoreTakes(fs: set<string>, ts: seq<Token>, closing: Token, e: Expr, after: seq<Token>, items: Exprs, rest: seq<Token>)
    requires |ts| > 1 && ts[0] == TComma && ts[1] != closing
    requires ParseExpression(fs, ts[1..], 0) == Some((e, after)) && ParseMore(fs, after, closing) == Some((items, rest))
    ensures ParseMore(fs, ts, closing) == Some((Cons(e, items), rest))
  {
    hide ParseExpression;
  }

  lemma TupleTakes(fs: set<string>, ts: seq<Token>, e: Expr, after: seq<Token>, items: Exprs, rest: seq<Token>)
    requires ts != [] && ts[0] != TRightParen
    requires ParseExpression(fs, ts, 0) == Some((e, after)) && Peek(after, 0) == Some(TComma)
    requires ParseMore(fs, after, TRightParen) == Some((items, rest))
    ensures ParseParenthesis(fs, ts) == Some((Tuple(Cons(e, items)), rest))
  {
    hide ParseExpression, ParseMore;
  }

  lemma TrailingComma(fs: set<string>, ts: seq<Token>, rest: seq<Token>)
    requires ts == [TComma, TRightParen] + rest
    ensures ParseMore(fs, ts, TRightParen) == Some((NoExprs, rest)) && Peek(ts, 0) == Some(TComma) && Follows(ts, 0)
  {
    hide ParseExpression;
    assert ts[1..] == [TRightParen] + rest && ts[2..] == rest;
  }

  lemma FollowsHigher(ts: seq<Token>, tail: int)
    requires Follows(ts, 0) && tail >= 0
    ensures Follows(ts, tail)
  {
    hide Operation;
  }

  lemma StopperFollows(ts: seq<Token>)
    requires ts != [] && (ts[0] == TComma || ts[0] == TRightParen || ts[0] == TRightBracket)
    ensures Follows(ts, 0)
  {
  }

  lemma FilterTakes(fs: set<string>, left: Expr, name: string, call: seq<Token>, arguments: Arguments, rest: seq<Token>)
    requires Public(name) && name in fs
    requires if Peek(call, 0) == Some(TLeftParen) then ParseArguments(fs, call[1..]) == Some((arguments, rest))
             else arguments == NoArguments && call == rest
    ensures ParseFilter(fs, left, [TName(name)] + call) == Some((Filter(name, left, arguments), rest))
  {
    hide ParseArguments;
    var ts := [TName(name)] + call;
    assert ts[1..] == call;
  }

  /** A tree printed above the level of `not` does not begin with `not`. */
  lemma {:induction false} NoLeadingNot(e: Expr, minimum: int)
    requires minimum > 35
    ensures Print(e, minimum)[0] != TNot
    decreases e
  {
    if Level(e) >= minimum {
      match e
      case Binary(op, l, r) => NoLeadingNot(l, LeftMinimum(op));
      case Compare(first, links) => NoLeadingNot(first, COMPARISON + 1);
      case Attribute(x, name) => NoLeadingNot(x, 100);
      case Lookup(x, key) => NoLeadingNot(x, 100);
      case Filter(name, x, arguments) => NoLeadingNot(x, 90);
      case _ =>
    }
  }

  /** The tokens of a comparison are read back as that comparison, unless `not` follows `is`. */
  lemma OperationOfComparison(c: Comparison, rest: seq<Token>)
    requires Peek(rest, 0) != Some(TNot)
    ensures Operation(ComparisonTokens(c) + rest) == (InfixCompare(c), |ComparisonTokens(c)|)
    ensures (ComparisonTokens(c) + rest)[|ComparisonTokens(c)|..] == rest
  {
    var ts := ComparisonTokens(c) + rest;
    assert |ComparisonTokens(c)| == 1 && rest != [] ==> ts[1] == rest[0];
  }

  lemma OperationOfOperator(op: Operator, rest: seq<Token>)
    ensures Operation([OperatorToken(op)] + rest) == (InfixBinary(op), 1)
    ensures ([OperatorToken(op)] + rest)[1..] == rest
  {
  }

  // ---------------------------------------------------------------- the round trip

  /**
   Reading a printed tree leaves the parser's loop with that tree in hand and the rest still to read.
   */
  lemma {:induction false} Printed(fs: set<string>, e: Expr, m: int, rest: seq<Token>, minimum: int)
    requires WellFormed(fs, e) && 0 <= minimum <= m <= 101 && Follows(rest, TailOf(e, m))
    ensures ParseExpression(fs, Print(e, m) + rest, minimum) == ParseLoop(fs, e, rest, minimum)
    decreases e, 3
  {
    if Level(e) < m {
      PrintedParenthesis(fs, e, m, rest);
    } else {
      PrintedBare(fs, e, rest, minimum);
    }
  }

  /** A printed tree before something that ends it is read back whole. */
  lemma {:induction false} PrintedWhole(fs: set<string>, e: Expr, m: int, rest: seq<Token>)
    requires WellFormed(fs, e) && 0 <= m <= 101 && Follows(rest, TailOf(e, m)) && Follows(rest, m)
    ensures ParseExpression(fs, Print(e, m) + rest, m) == Some((e, rest))
    decreases e, 4
  {
    Printed(fs, e, m, rest, m);
    LoopStops(fs, e, rest, m);
  }

  lemma {:induction false} PrintedParenthesis(fs: set<string>, e: Expr, m: int, rest: seq<Token>)
    requires WellFormed(fs, e) && 0 <= m <= 101 && Level(e) < m
    ensures ParsePrimary(fs, Print(e, m) + rest) == Some((e, rest))
    decreases e, 2
  {
    hide ParseExpression, ParseLoop, PrintBare, ParseItems, ParseMore;
    var closed := [TRightParen] + rest;
    assert Print(e, m) + rest == [TLeftParen] + (PrintBare(e) + closed);
    PrintedBare(fs, e, closed, 0);
    LoopStops(fs, e, closed, 0);
    NoClosing(e, 0, TRightParen);
    assert (PrintBare(e) + closed)[0] == PrintBare(e)[0];
    assert closed[1..] == rest;
  }

  /** A printed tree never begins with a closing token, a comma or `=`. */
  lemma {:induction false} NoClosing(e: Expr, m: int, closing: Token)
    requires closing == TRightParen || closing == TRightBracket || closing == TComma || closing == TAssign
    ensures Print(e, m)[0] != closing
    decreases e
  {
    match e
    case Binary(op, l, r) => NoClosing(l, LeftMinimum(op), closing);
    case Compare(first, links) => NoClosing(first, COMPARISON + 1, closing);
    case Conditional(c, p, n) => NoClosing(p, CONDITIONAL + 1, closing);
    case Attribute(x, name) => NoClosing(x, 100, closing);
    case Lookup(x, key) => NoClosing(x, 100, closing);
    case Filter(name, x, arguments) => NoClosing(x, 90, closing);
    case _ =>
  }

  lemma {:induction false} PrintedBare(fs: set<string>, e: Expr, rest: seq<Token>, minimum: int)
    requires WellFormed(fs, e) && 0 <= minimum <= Level(e) && Follows(rest, Tail(e))
    ensures ParseExpression(fs, PrintBare(e) + rest, minimum) == ParseLoop(fs, e, rest, minimum)
    decreases e, 1
  {
    match e
    case Literal(_) =>
    case Variable(_) =>
    case Unary(p, x) => PrintedUnary(fs, e, rest);
    case Binary(op, l, r) => PrintedBinary(fs, e, rest, minimum);
    case Compare(first, links) => PrintedCompare(fs, e, rest, minimum);
    case Conditional(c, positive, negative) => PrintedConditional(fs, e, rest, minimum);
    case Attribute(x, name) => PrintedAttribute(fs, e, rest, minimum);
    case Lookup(x, key) => PrintedLookup(fs, e, rest, minimum);
    case Filter(name, x, arguments) => PrintedFilter(fs, e, rest, minimum);
    case List(items) => PrintedList(fs, e, rest);
    case Tuple(items) => PrintedTuple(fs, e, rest);
  }

  lemma {:induction false} PrintedUnary(fs: set<string>, e: Expr, rest: seq<Token>)
    requires e.Unary? && WellFormed(fs, e) && Follows(rest, Tail(e))
    ensures ParsePrimary(fs, PrintBare(e) + rest) == Some((e, rest))
    decreases e, 0
  {
    hide ParseExpression, Print;
    var m := PrefixPrecedence(e.prefix);
    PrintedWhole(fs, e.operand, m, rest);
    assert (PrintBare(e) + rest)[1..] == Print(e.operand, m) + rest;
  }

  lemma {:induction false} PrintedBinary(fs: set<string>, e: Expr, rest: seq<Token>, minimum: int)
    requires e.Binary? && WellFormed(fs, e) && 0 <= minimum <= Level(e) && Follows(rest, Tail(e))
    ensures ParseExpression(fs, PrintBare(e) + rest, minimum) == ParseLoop(fs, e, rest, minimum)
    decreases e, 0
  {
    hide ParseExpression, ParseLoop, Print;
    var right := Print(e.right, RightMinimum(e.op)) + rest;
    var ts := [OperatorToken(e.op)] + right;
    assert PrintBare(e) + rest == Print(e.left, LeftMinimum(e.op)) + ts;
    OperationOfOperator(e.op, right);
    Printed(fs, e.left, LeftMinimum(e.op), ts, minimum);
    PrintedWhole(fs, e.right, RightMinimum(e.op), rest);
    LoopTakes(fs, e.left, ts, minimum, InfixBinary(e.op), 1, e, rest);
  }

  lemma {:induction false} PrintedCompare(fs: set<string>, e: Expr, rest: seq<Token>, minimum: int)
    requires e.Compare? && WellFormed(fs, e) && 0 <= minimum <= Level(e) && Follows(rest, Tail(e))
    ensures ParseExpression(fs, PrintBare(e) + rest, minimum) == ParseLoop(fs, e, rest, minimum)
    decreases e, 0
  {
    var ts := PrintLinks(e.links) + rest;
    assert PrintBare(e) + rest == Print(e.first, COMPARISON + 1) + ts;
    PrintedLinks(fs, e.links, rest);
    Printed(fs, e.first, COMPARISON + 1, ts, minimum);
    LoopTakes(fs, e.first, ts, minimum, InfixCompare(e.links.op), |ComparisonTokens(e.links.op)|, e, rest);
  }

  /** A printed chain begins with its operator, and the operands are read up to the end of the chain. */
  lemma {:induction false} PrintedLinks(fs: set<string>, links: Links, rest: seq<Token>)
    requires links.Link? && WellFormedLinks(fs, links) && Follows(rest, COMPARISON)
    ensures var ts := PrintLinks(links) + rest;
            var width := |ComparisonTokens(links.op)|;
            && width <= |ts| && Operation(ts) == (InfixCompare(links.op), width)
            && Peek(ts, 0) != Some(TLeftParen)
            && ParseLinks(fs, links.op, ts[width..]) == Some((links, rest))
    decreases links, 0
  {
    hide ParseExpression, Print, Operation, ComparisonTokens;
    var after := PrintLinks(links.more) + rest;
    LinkStarts(links, rest);
    if links.more.Link? {
      PrintedLinks(fs, links.more, rest);
    } else {
      assert after == rest;
    }
    PrintedWhole(fs, links.operand, COMPARISON + 1, after);
  }

  /** A printed link begins with its operator, and its operand follows. */
  lemma LinkStarts(links: Links, rest: seq<Token>)
    requires links.Link?
    ensures var ts := PrintLinks(links) + rest;
            var width := |ComparisonTokens(links.op)|;
            && width <= |ts| && Operation(ts) == (InfixCompare(links.op), width) && Peek(ts, 0) != Some(TLeftParen)
            && ts[width..] == Print(links.operand, COMPARISON + 1) + (PrintLinks(links.more) + rest)
  {
    hide Print, Operation, ComparisonTokens, Peek;
    var printed, more := Print(links.operand, COMPARISON + 1), PrintLinks(links.more);
    assert PrintLinks(links) == ComparisonTokens(links.op) + (printed + more);
    hide PrintLinks;
    Regrouped(ComparisonTokens(links.op), printed, more, rest);
    NoLeadingNot(links.operand, COMPARISON + 1);
    FirstOf(printed, more + rest);
    OperationOfComparison(links.op, printed + (more + rest));
    ComparisonStarts(links.op, printed + (more + rest));
  }

  lemma Regrouped(a: seq<Token>, b: seq<Token>, c: seq<Token>, d: seq<Token>)
    ensures a + (b + c) + d == a + (b + (c + d))
  {
  }

  lemma FirstOf(a: seq<Token>, b: seq<Token>)
    requires a != []
    ensures Peek(a + b, 0) == Some(a[0])
  {
  }

  lemma ComparisonStarts(c: Comparison, rest: seq<Token>)
    ensures Peek(ComparisonTokens(c) + rest, 0) != Some(TLeftParen)
  {
    FirstOf(ComparisonTokens(c), rest);
  }

  lemma {:induction false} PrintedConditional(fs: set<string>, e: Expr, rest: seq<Token>, minimum: int)
    requires e.Conditional? && WellFormed(fs, e) && 0 <= minimum <= Level(e) && Follows(rest, Tail(e))
    ensures ParseExpression(fs, PrintBare(e) + rest, minimum) == ParseLoop(fs, e, rest, minimum)
    decreases e, 0
  {
    hide ParseExpression, ParseLoop, Print;
    var negative := Print(e.negative, CONDITIONAL) + rest;
    var otherwise := [TElse] + negative;
    var condition := Print(e.condition, CONDITIONAL + 1) + otherwise;
    var ts := [TIf] + condition;
    assert PrintBare(e) + rest == Print(e.positive, CONDITIONAL + 1) + ts;
    Printed(fs, e.positive, CONDITIONAL + 1, ts, minimum);
    PrintedWhole(fs, e.condition, CONDITIONAL + 1, otherwise);
    PrintedWhole(fs, e.negative, CONDITIONAL, rest);
    assert ts[1..] == condition && otherwise[1..] == negative;
    LoopTakes(fs, e.positive, ts, minimum, InfixIf, 1, e, rest);
  }

  lemma {:induction false} PrintedAttribute(fs: set<string>, e: Expr, rest: seq<Token>, minimum: int)
    requires e.Attribute? && WellFormed(fs, e) && 0 <= minimum <= Level(e) && Follows(rest, Tail(e))
    ensures ParseExpression(fs, PrintBare(e) + rest, minimum) == ParseLoop(fs, e, rest, minimum)
    decreases e, 0
  {
    hide ParseExpression, ParseLoop, Print;
    var ts := [TDot, TName(e.attribute)] + rest;
    assert PrintBare(e) + rest == Print(e.base, 100) + ts;
    Printed(fs, e.base, 100, ts, minimum);
    assert ts[1..] == [TName(e.attribute)] + rest && ts[1..][1..] == rest;
    LoopTakes(fs, e.base, ts, minimum, InfixDot, 1, e, rest);
  }

  lemma {:induction false} PrintedLookup(fs: set<string>, e: Expr, rest: seq<Token>, minimum: int)
    requires e.Lookup? && WellFormed(fs, e) && 0 <= minimum <= Level(e) && Follows(rest, Tail(e))
    ensures ParseExpression(fs, PrintBare(e) + rest, minimum) == ParseLoop(fs, e, rest, minimum)
    decreases e, 0
  {
    hide ParseExpression, ParseLoop, Print;
    var closed := [TRightBracket] + rest;
    var key := Print(e.key, 0) + closed;
    var ts := [TLeftBracket] + key;
    assert PrintBare(e) + rest == Print(e.base, 100) + ts;
    Printed(fs, e.base, 100, ts, minimum);
    PrintedWhole(fs, e.key, 0, closed);
    assert ts[1..] == key && closed[1..] == rest;
    LoopTakes(fs, e.base, ts, minimum, InfixBracket, 1, e, rest);
  }

  lemma {:induction false} PrintedFilter(fs: set<string>, e: Expr, rest: seq<Token>, minimum: int)
    requires e.Filter? && WellFormed(fs, e) && 0 <= minimum <= Level(e) && Follows(rest, Tail(e))
    ensures ParseExpression(fs, PrintBare(e) + rest, minimum) == ParseLoop(fs, e, rest, minimum)
    decreases e, 0
  {
    hide ParseExpression, ParseLoop, ParseFilter, ParseArguments, ParseNextArguments, PrintArguments, Print;
    var call := (if e.arguments.NoArguments? then [] else [TLeftParen] + PrintArguments(e.arguments)) + rest;
    var ts := [TBar, TName(e.filter)] + call;
    assert PrintBare(e) + rest == Print(e.input, 90) + ts;
    hide PrintBare;
    Printed(fs, e.input, 90, ts, minimum);
    assert ts[1..] == [TName(e.filter)] + call;
    if e.arguments.Argument? {
      PrintedArguments(fs, e.arguments, {}, rest);
      assert call[1..] == PrintArguments(e.arguments) + rest;
      ArgumentsStart(fs, e.arguments, rest);
    } else {
      assert call == rest;
    }
    FilterTakes(fs, e.input, e.filter, call, e.arguments, rest);
    LoopTakes(fs, e.input, ts, minimum, InfixFilter, 1, e, rest);
  }

  lemma {:induction false} PrintedList(fs: set<string>, e: Expr, rest: seq<Token>)
    requires e.List? && WellFormed(fs, e)
    ensures ParsePrimary(fs, PrintBare(e) + rest) == Some((e, rest))
    decreases e, 0
  {
    hide ParseItems, PrintItems, ParseExpression, ParseParenthesis;
    PrintedItems(fs, e.items, TRightBracket, rest);
    assert (PrintBare(e) + rest)[1..] == PrintItems(e.items, TRightBracket) + rest;
  }

  lemma {:induction false} PrintedTuple(fs: set<string>, e: Expr, rest: seq<Token>)
    requires e.Tuple? && WellFormed(fs, e)
    ensures ParsePrimary(fs, PrintBare(e) + rest) == Some((e, rest))
    decreases e, 0
  {
    hide ParseExpression, ParseMore, ParseItems, Print;
    if e.items.NoExprs? {
      assert (PrintBare(e) + rest)[1..] == [TRightParen] + rest;
    } else {
      hide ParseParenthesis;
      var x, tail := e.items.head, e.items.tail;
      var after := (if tail.NoExprs? then [TComma, TRightParen] else PrintMore(tail, TRightParen)) + rest;
      assert (PrintBare(e) + rest)[1..] == Print(x, 0) + after;
      NoClosing(x, 0, TRightParen);
      assert (Print(x, 0) + after)[0] == Print(x, 0)[0];
      if tail.Cons? {
        PrintedMore(fs, tail, TRightParen, rest);
      } else {
        TrailingComma(fs, after, rest);
      }
      PrintedWhole(fs, x, 0, after);
      TupleTakes(fs, Print(x, 0) + after, x, after, tail, rest);
    }
  }

  lemma {:induction false} PrintedItems(fs: set<string>, items: Exprs, closing: Token, rest: seq<Token>)
    requires WellFormedAll(fs, items) && (closing == TRightParen || closing == TRightBracket)
    ensures ParseItems(fs, PrintItems(items, closing) + rest, closing) == Some((items, rest))
    decreases items, 1
  {
    match items
    case NoExprs =>
      assert ([closing] + rest)[1..] == rest;
    case Cons(e, tail) =>
      var after := PrintMore(tail, closing) + rest;
      assert PrintItems(items, closing) + rest == Print(e, 0) + after;
      NoClosing(e, 0, closing);
      assert (Print(e, 0) + after)[0] == Print(e, 0)[0];
      PrintedMore(fs, tail, closing, rest);
      PrintedWhole(fs, e, 0, after);
  }

  lemma {:induction false} PrintedMore(fs: set<string>, items: Exprs, closing: Token, rest: seq<Token>)
    requires WellFormedAll(fs, items) && (closing == TRightParen || closing == TRightBracket)
    ensures var ts := PrintMore(items, closing) + rest;
            && ParseMore(fs, ts, closing) == Some((items, rest))
            && (Peek(ts, 0) == Some(TComma) <==> items.Cons?)
            && Follows(ts, 0)
    decreases items, 0
  {
    hide ParseExpression, Print, Operation, Follows;
    match items
    case NoExprs =>
      assert ([closing] + rest)[1..] == rest;
      StopperFollows([closing] + rest);
    case Cons(e, tail) =>
      var after := PrintMore(tail, closing) + rest;
      var ts := PrintMore(items, closing) + rest;
      assert ts[1..] == Print(e, 0) + after;
      NoClosing(e, 0, closing);
      assert (Print(e, 0) + after)[0] == Print(e, 0)[0];
      PrintedMore(fs, tail, closing, rest);
      hide ParseMore;
      StopperFollows(ts);
      FollowsHigher(after, TailOf(e, 0));
      PrintedWhole(fs, e, 0, after);
      MoreTakes(fs, ts, closing, e, after, tail, rest);
  }

  /** Before something other than `=`, the second token of a printed tree is not `=`. */
  lemma {:induction false} NoAssign(e: Expr, m: int, rest: seq<Token>)
    requires rest != [] && rest[0] != TAssign
    ensures (Print(e, m) + rest)[1] != TAssign
    decreases e, 1
  {
    if Level(e) < m {
      NoClosing(e, 0, TAssign);
      assert (Print(e, m) + rest)[1] == PrintBare(e)[0] && PrintBare(e) == Print(e, 0);
    } else {
      NoAssignBare(e, rest);
    }
  }

  lemma {:induction false} NoAssignBare(e: Expr, rest: seq<Token>)
    requires rest != [] && rest[0] != TAssign
    ensures (PrintBare(e) + rest)[1] != TAssign
    decreases e, 0
  {
    match e
    case Unary(p, x) => NoClosing(x, PrefixPrecedence(p), TAssign);
    case Binary(op, l, r) => NoAssignThen(e, l, LeftMinimum(op), [OperatorToken(op)] + Print(r, RightMinimum(op)), rest);
    case Compare(first, links) => NoAssignThen(e, first, COMPARISON + 1, PrintLinks(links), rest);
    case Conditional(c, positive, negative) =>
      NoAssignThen(e, positive, CONDITIONAL + 1, [TIf] + (Print(c, CONDITIONAL + 1) + ([TElse] + Print(negative, CONDITIONAL))), rest);
    case Attribute(x, name) => NoAssignThen(e, x, 100, [TDot, TName(name)], rest);
    case Lookup(x, key) => NoAssignThen(e, x, 100, [TLeftBracket] + (Print(key, 0) + [TRightBracket]), rest);
    case Filter(name, x, arguments) =>
      NoAssignThen(e, x, 90, [TBar, TName(name)] + (if arguments.NoArguments? then [] else [TLeftParen] + PrintArguments(arguments)), rest);
    case List(items) => if items.Cons? { NoClosing(items.head, 0, TAssign); }
    case Tuple(items) => if items.Cons? { NoClosing(items.head, 0, TAssign); }
    case _ =>
  }

  /** A tree that is printed as its first part and something more. */
  lemma {:induction false} NoAssignThen(e: Expr, first: Expr, m: int, more: seq<Token>, rest: seq<Token>)
    requires first < e && PrintBare(e) == Print(first, m) + more && (more != [] ==> more[0] != TAssign) && rest != [] && rest[0] != TAssign
    ensures (PrintBare(e) + rest)[1] != TAssign
    decreases first, 2
  {
    hide Print, PrintBare;
    NoAssign(first, m, more + rest);
    assert PrintBare(e) + rest == Print(first, m) + (more + rest);
  }

  /** The arguments of a call do not begin with its end. */
  lemma ArgumentsStart(fs: set<string>, a: Arguments, rest: seq<Token>)
    requires a.Argument?
    ensures (PrintArguments(a) + rest)[0] != TRightParen
    ensures ParseArguments(fs, PrintArguments(a) + rest) == ParseNextArguments(fs, PrintArguments(a) + rest, {})
  {
    hide Print, ParseNextArguments, PrintMoreArguments;
    NoClosing(a.value, 0, TRightParen);
    assert a.name.None? ==> (PrintArguments(a) + rest)[0] == Print(a.value, 0)[0];
  }

  lemma {:induction false} PrintedArguments(fs: set<string>, a: Arguments, used: set<string>, rest: seq<Token>)
    requires a.Argument? && WellFormedArguments(fs, a, used)
    ensures ParseNextArguments(fs, PrintArguments(a) + rest, used) == Some((a, rest))
    decreases a, 0
  {
    hide ParseArgument, ParseMoreArguments, Print, PrintMoreArguments, Follows;
    var after := PrintMoreArguments(a.more) + rest;
    assert PrintArguments(a) + rest == PrintName(a.name) + (Print(a.value, 0) + after);
    PrintedMoreArguments(fs, a.more, used + Named(a.name), rest);
    FollowsHigher(after, TailOf(a.value, 0));
    PrintedWhole(fs, a.value, 0, after);
    PrintedArgument(fs, a.name, a.value, used, after);
  }

  lemma PrintedArgument(fs: set<string>, name: Option<string>, e: Expr, used: set<string>, after: seq<Token>)
    requires if name.Some? then Public(name.value) && name.value !in used else used == {}
    requires ParseExpression(fs, Print(e, 0) + after, 0) == Some((e, after)) && after != [] && after[0] != TAssign
    ensures ParseArgument(fs, PrintName(name) + (Print(e, 0) + after), used) == Some(((name, e), after))
  {
    hide ParseExpression, Print;
    var ts := PrintName(name) + (Print(e, 0) + after);
    if name.Some? {
      assert ts[2..] == Print(e, 0) + after;
    } else {
      NoAssign(e, 0, after);
      assert ts == Print(e, 0) + after;
    }
  }

  lemma {:induction false} PrintedMoreArguments(fs: set<string>, a: Arguments, used: set<string>, rest: seq<Token>)
    requires WellFormedArguments(fs, a, used)
    ensures var ts := PrintMoreArguments(a) + rest;
            ParseMoreArguments(fs, ts, used) == Some((a, rest)) && Follows(ts, 0) && ts != [] && ts[0] != TAssign
    decreases a, 1
  {
    hide ParseNextArguments, PrintArguments, Follows;
    var ts := PrintMoreArguments(a) + rest;
    if a.NoArguments? {
      assert ts == [TRightParen] + rest && ts[1..] == rest;
    } else {
      assert ts[1..] == PrintArguments(a) + rest;
      PrintedArguments(fs, a, used, rest);
      ArgumentsStart(fs, a, rest);
    }
    StopperFollows(ts);
  }

  /** Pratt round trip: printing with minimal parentheses and parsing gives the same tree. */
  lemma RoundTrip(fs: set<string>, e: Expr)
    requires WellFormed(fs, e)
    ensures Parse(fs, Print(e, 0)) == Some(e)
  {
    PrintedWhole(fs, e, 0, []);
    assert Print(e, 0) + [] == Print(e, 0);
  }

  // ---------------------------------------------------------------- commas

  /** Items after the first, each behind a comma, and a comma behind them if asked for. */
  function Listing(items: Exprs, trailing: bool): (ts: seq<Token>) {
    match items
    case NoExprs => if trailing then [TComma] else []
    case Cons(e, tail) => [TComma] + (Print(e, 0) + Listing(tail, trailing))
  }

  /** A comma may stand before a closing token and changes nothing. */
  lemma {:induction false} TrailingCommaIsFree(fs: set<string>, items: Exprs, closing: Token, trailing: bool, rest: seq<Token>)
    requires WellFormedAll(fs, items) && (closing == TRightParen || closing == TRightBracket)
    ensures var ts := Listing(items, trailing) + ([closing] + rest); ParseMore(fs, ts, closing) == Some((items, rest)) && Follows(ts, 0)
    decreases items
  {
    hide ParseExpression, Print, Operation, Follows;
    var closed := [closing] + rest;
    var ts := Listing(items, trailing) + closed;
    match items
    case NoExprs =>
      assert closed[1..] == rest;
      if trailing { assert ts == [TComma] + closed && ts[1..] == closed && ts[2..] == rest; } else { assert ts == closed; }
      StopperFollows(ts);
    case Cons(e, tail) =>
      var after := Listing(tail, trailing) + closed;
      assert ts[1..] == Print(e, 0) + after;
      NoClosing(e, 0, closing);
      assert (Print(e, 0) + after)[0] == Print(e, 0)[0];
      TrailingCommaIsFree(fs, tail, closing, trailing, rest);
      hide ParseMore;
      StopperFollows(ts);
      FollowsHigher(after, TailOf(e, 0));
      PrintedWhole(fs, e, 0, after);
      MoreTakes(fs, ts, closing, e, after, tail, rest);
  }

  lemma TopTakes(fs: set<string>, ts: seq<Token>, e: Expr, after: seq<Token>, items: Exprs)
    requires |ts| > 1 && ts[0] == TComma && ParseExpression(fs, ts[1..], 0) == Some((e, after)) && ParseTop(fs, after) == Some((items, []))
    ensures ParseTop(fs, ts) == Some((Cons(e, items), []))
  {
    hide ParseExpression;
  }

  lemma {:induction false} TopListing(fs: set<string>, items: Exprs, trailing: bool)
    requires WellFormedAll(fs, items)
    ensures var ts := Listing(items, trailing); ParseTop(fs, ts) == Some((items, [])) && Follows(ts, 0)
    decreases items
  {
    hide ParseExpression, Print;
    var ts := Listing(items, trailing);
    match items
    case NoExprs => if trailing { assert ts[1..] == []; }
    case Cons(e, tail) =>
      var after := Listing(tail, trailing);
      assert ts[1..] == Print(e, 0) + after;
      TopListing(fs, tail, trailing);
      hide ParseTop, Follows;
      StopperFollows(ts);
      FollowsHigher(after, TailOf(e, 0));
      PrintedWhole(fs, e, 0, after);
      TopTakes(fs, ts, e, after, tail);
  }

  /** A tag with a comma at its top level is a tuple of its items in order, a comma may trail. */
  lemma TopLevelTuple(fs: set<string>, e: Expr, items: Exprs, trailing: bool)
    requires WellFormed(fs, e) && WellFormedAll(fs, items) && (items.Cons? || trailing)
    ensures Parse(fs, Print(e, 0) + Listing(items, trailing)) == Some(Tuple(Cons(e, items)))
  {
    hide ParseExpression, ParseTop, Print, Follows;
    var after := Listing(items, trailing);
    TopListing(fs, items, trailing);
    FollowsHigher(after, TailOf(e, 0));
    PrintedWhole(fs, e, 0, after);
  }

  // ---------------------------------------------------------------- the parser builds nothing else

  lemma {:induction false} ExpressionWellFormed(fs: set<string>, ts: seq<Token>, minimum: int)
    ensures var r := ParseExpression(fs, ts, minimum); r.Some? ==> WellFormed(fs, r.value.0)
    decreases |ts|, 1
  {
    hide ParseLoop, ParsePrimary;
    PrimaryWellFormed(fs, ts);
    var p := ParsePrimary(fs, ts);
    if p.Some? { LoopWellFormed(fs, p.value.0, p.value.1, minimum); }
  }

  lemma {:induction false} LoopWellFormed(fs: set<string>, left: Expr, ts: seq<Token>, minimum: int)
    requires WellFormed(fs, left)
    ensures var r := ParseLoop(fs, left, ts, minimum); r.Some? ==> WellFormed(fs, r.value.0)
    decreases |ts|, 1
  {
    hide ParseInfix, Operation, WellFormed;
    var (op, width) := Operation(ts);
    if op != NoInfix && Precedence(op) >= minimum {
      InfixWellFormed(fs, left, op, ts[width..]);
      var i := ParseInfix(fs, left, op, ts[width..]);
      if i.Some? { LoopWellFormed(fs, i.value.0, i.value.1, minimum); }
    }
  }

  lemma {:induction false} PrimaryWellFormed(fs: set<string>, ts: seq<Token>)
    ensures var r := ParsePrimary(fs, ts); r.Some? ==> WellFormed(fs, r.value.0)
    decreases |ts|, 0
  {
    hide ParseExpression, ParseParenthesis, ParseItems;
    if ts != [] {
      if PrefixOf(ts[0]).Some? {
        ExpressionWellFormed(fs, ts[1..], PrefixPrecedence(PrefixOf(ts[0]).value));
      } else if ts[0] == TLeftParen {
        ParenthesisWellFormed(fs, ts[1..]);
      } else if ts[0] == TLeftBracket {
        ItemsWellFormed(fs, ts[1..], TRightBracket);
      }
    }
  }

  lemma {:induction false} ParenthesisWellFormed(fs: set<string>, ts: seq<Token>)
    ensures var r := ParseParenthesis(fs, ts); r.Some? ==> WellFormed(fs, r.value.0)
    decreases |ts|, 3
  {
    hide ParseExpression, ParseMore;
    ExpressionWellFormed(fs, ts, 0);
    var first := ParseExpression(fs, ts, 0);
    if first.Some? { MoreWellFormed(fs, first.value.1, TRightParen); }
  }

  lemma {:induction false} ItemsWellFormed(fs: set<string>, ts: seq<Token>, closing: Token)
    ensures var r := ParseItems(fs, ts, closing); r.Some? ==> WellFormedAll(fs, r.value.0)
    decreases |ts|, 3
  {
    hide ParseExpression, ParseMore;
    ExpressionWellFormed(fs, ts, 0);
    var e := ParseExpression(fs, ts, 0);
    if e.Some? { MoreWellFormed(fs, e.value.1, closing); }
  }

  lemma {:induction false} MoreWellFormed(fs: set<string>, ts: seq<Token>, closing: Token)
    ensures var r := ParseMore(fs, ts, closing); r.Some? ==> WellFormedAll(fs, r.value.0)
    decreases |ts|, 3
  {
    hide ParseExpression;
    if Peek(ts, 0) == Some(TComma) {
      ExpressionWellFormed(fs, ts[1..], 0);
      var e := ParseExpression(fs, ts[1..], 0);
      if e.Some? { MoreWellFormed(fs, e.value.1, closing); }
    }
  }

  lemma {:induction false} TopWellFormed(fs: set<string>, ts: seq<Token>)
    ensures var r := ParseTop(fs, ts); r.Some? ==> WellFormedAll(fs, r.value.0)
    decreases |ts|
  {
    hide ParseExpression;
    if Peek(ts, 0) == Some(TComma) {
      ExpressionWellFormed(fs, ts[1..], 0);
      var e := ParseExpression(fs, ts[1..], 0);
      if e.Some? { TopWellFormed(fs, e.value.1); }
    }
  }

  lemma {:induction false} InfixWellFormed(fs: set<string>, left: Expr, op: Infix, ts: seq<Token>)
    requires WellFormed(fs, left)
    ensures var r := ParseInfix(fs, left, op, ts); r.Some? ==> WellFormed(fs, r.value.0)
    decreases |ts|, 4
  {
    hide ParseExpression, ParseLinks, ParseFilter, Take;
    match op
    case InfixBracket => ExpressionWellFormed(fs, ts, 0);
    case InfixFilter => FilterWellFormed(fs, left, ts);
    case InfixIf => ConditionalWellFormed(fs, left, ts);
    case InfixCompare(c) => LinksWellFormed(fs, c, ts);
    case InfixBinary(b) => ExpressionWellFormed(fs, ts, RightMinimum(b));
    case _ =>
  }

  lemma {:induction false} FilterWellFormed(fs: set<string>, left: Expr, ts: seq<Token>)
    requires WellFormed(fs, left)
    ensures var r := ParseFilter(fs, left, ts); r.Some? ==> WellFormed(fs, r.value.0)
    decreases |ts|, 3
  {
    hide ParseNextArguments;
    if |ts| > 2 { NextArgumentsWellFormed(fs, ts[1..][1..], {}); }
  }

  lemma {:induction false} NextArgumentsWellFormed(fs: set<string>, ts: seq<Token>, used: set<string>)
    ensures var r := ParseNextArguments(fs, ts, used); r.Some? ==> r.value.0.Argument? && WellFormedArguments(fs, r.value.0, used)
    decreases |ts|, 3
  {
    hide ParseArgument, ParseMoreArguments;
    ArgumentWellFormed(fs, ts, used);
    var a := ParseArgument(fs, ts, used);
    if a.Some? { MoreArgumentsWellFormed(fs, a.value.1, used + Named(a.value.0.0)); }
  }

  lemma {:induction false} ArgumentWellFormed(fs: set<string>, ts: seq<Token>, used: set<string>)
    ensures var r := ParseArgument(fs, ts, used);
            r.Some? ==>
              var (name, e) := r.value.0;
              (if name.Some? then Public(name.value) && name.value !in used else used == {}) && WellFormed(fs, e)
    decreases |ts|, 2
  {
    hide ParseExpression;
    if Peek(ts, 1) == Some(TAssign) { ExpressionWellFormed(fs, ts[2..], 0); } else { ExpressionWellFormed(fs, ts, 0); }
  }

  lemma {:induction false} MoreArgumentsWellFormed(fs: set<string>, ts: seq<Token>, used: set<string>)
    ensures var r := ParseMoreArguments(fs, ts, used); r.Some? ==> WellFormedArguments(fs, r.value.0, used)
    decreases |ts|, 3
  {
    hide ParseNextArguments;
    if Peek(ts, 0) == Some(TComma) { NextArgumentsWellFormed(fs, ts[1..], used); }
  }

  lemma {:induction false} ConditionalWellFormed(fs: set<string>, left: Expr, ts: seq<Token>)
    requires WellFormed(fs, left)
    ensures var r := ParseInfix(fs, left, InfixIf, ts); r.Some? ==> WellFormed(fs, r.value.0)
    decreases |ts|, 3
  {
    hide ParseExpression, Take;
    ExpressionWellFormed(fs, ts, CONDITIONAL + 1);
    var condition := ParseExpression(fs, ts, CONDITIONAL + 1);
    if condition.Some? && Take(condition.value.1, TElse).Some? {
      ExpressionWellFormed(fs, Take(condition.value.1, TElse).value, CONDITIONAL);
    }
  }

  lemma {:induction false} LinksWellFormed(fs: set<string>, c: Comparison, ts: seq<Token>)
    ensures var r := ParseLinks(fs, c, ts); r.Some? ==> r.value.0.Link? && WellFormedLinks(fs, r.value.0)
    decreases |ts|, 3
  {
    hide ParseExpression, Operation;
    ExpressionWellFormed(fs, ts, COMPARISON + 1);
    var e := ParseExpression(fs, ts, COMPARISON + 1);
    if e.Some? {
      var (op, width) := Operation(e.value.1);
      if op.InfixCompare? { LinksWellFormed(fs, op.c, e.value.1[width..]); }
    }
  }

  /**
   Whatever tokens the parser accepts, the printed form of their tree is accepted too and means the
   same: with `RoundTrip`, the well-formed trees are exactly those the parser builds.
   */
  lemma PrintedFormIsCanonical(fs: set<string>, ts: seq<Token>)
    ensures var r := Parse(fs, ts); r.Some? ==> WellFormed(fs, r.value) && Parse(fs, Print(r.value, 0)) == r
  {
    hide ParseExpression, ParseTop, WellFormed, Print;
    var r := Parse(fs, ts);
    if r.Some? {
      ExpressionWellFormed(fs, ts, 0);
      var e := ParseExpression(fs, ts, 0);
      TopWellFormed(fs, e.value.1);
      TupleWellFormed(fs, e.value.0, if ParseTop(fs, e.value.1).Some? then ParseTop(fs, e.value.1).value.0 else NoExprs);
      RoundTrip(fs, r.value);
    }
  }

  lemma TupleWellFormed(fs: set<string>, e: Expr, items: Exprs)
    requires WellFormed(fs, e) && WellFormedAll(fs, items)
    ensures WellFormed(fs, Tuple(Cons(e, items)))
  {
  }

  // ---------------------------------------------------------------- how operators group

  /** The conventional order of the operators, from weak to strong. */
  function Tier(op: Operator): (n: nat) {
    match op
    case Or => 0
    case And => 1
    case Add => 2
    case Sub => 2
    case Mul => 3
    case Div => 3
    case FloorDiv => 3
    case Mod => 3
    case Pow => 4
  }

  /** Without parentheses the stronger operator takes its operands first; equals go left to right, `**` right to left. */
  lemma Grouping(fs: set<string>, a: Constant, p: Operator, b: Constant, q: Operator, c: Constant)
    ensures Parse(fs, [TLiteral(a), OperatorToken(p), TLiteral(b), OperatorToken(q), TLiteral(c)]) ==
            Some(if Tier(p) > Tier(q) || (Tier(p) == Tier(q) && p != Pow)
                 then Binary(q, Binary(p, Literal(a), Literal(b)), Literal(c))
                 else Binary(p, Literal(a), Binary(q, Literal(b), Literal(c))))
  {
    hide Parse;
    if Tier(p) > Tier(q) || (Tier(p) == Tier(q) && p != Pow) {
      GroupsLeft(fs, a, p, b, q, c);
    } else {
      GroupsRight(fs, a, p, b, q, c);
    }
  }

  lemma GroupsLeft(fs: set<string>, a: Constant, p: Operator, b: Constant, q: Operator, c: Constant)
    requires OperatorPrecedence(p) >= LeftMinimum(q)
    ensures Parse(fs, [TLiteral(a), OperatorToken(p), TLiteral(b), OperatorToken(q), TLiteral(c)]) ==
            Some(Binary(q, Binary(p, Literal(a), Literal(b)), Literal(c)))
  {
    hide Parse, OperatorToken, OperatorPrecedence;
    var inner := Binary(p, Literal(a), Literal(b));
    var e := Binary(q, inner, Literal(c));
    Pair(p, a, b, LeftMinimum(q));
    Positive(q);
    PrintedLiteral(c, RightMinimum(q));
    assert Print(e, 0) == [TLiteral(a), OperatorToken(p), TLiteral(b)] + ([OperatorToken(q)] + [TLiteral(c)]);
    assert Print(e, 0) == [TLiteral(a), OperatorToken(p), TLiteral(b), OperatorToken(q), TLiteral(c)];
    RoundTrip(fs, e);
  }

  lemma GroupsRight(fs: set<string>, a: Constant, p: Operator, b: Constant, q: Operator, c: Constant)
    requires OperatorPrecedence(q) >= RightMinimum(p)
    ensures Parse(fs, [TLiteral(a), OperatorToken(p), TLiteral(b), OperatorToken(q), TLiteral(c)]) ==
            Some(Binary(p, Literal(a), Binary(q, Literal(b), Literal(c))))
  {
    hide Parse, OperatorToken, OperatorPrecedence;
    var inner := Binary(q, Literal(b), Literal(c));
    var e := Binary(p, Literal(a), inner);
    Pair(q, b, c, RightMinimum(p));
    Positive(p);
    PrintedLiteral(a, LeftMinimum(p));
    assert Print(e, 0) == [TLiteral(a)] + ([OperatorToken(p)] + [TLiteral(b), OperatorToken(q), TLiteral(c)]);
    assert Print(e, 0) == [TLiteral(a), OperatorToken(p), TLiteral(b), OperatorToken(q), TLiteral(c)];
    RoundTrip(fs, e);
  }

  lemma Positive(op: Operator)
    ensures 0 < OperatorPrecedence(op) < 100
  {
  }

  lemma PrintedLiteral(c: Constant, minimum: int)
    requires minimum <= ATOM
    ensures Print(Literal(c), minimum) == [TLiteral(c)]
  {
    var e := Literal(c);
    assert Level(e) == ATOM && PrintBare(e) == [TLiteral(c)];
  }

  lemma Pair(op: Operator, a: Constant, b: Constant, minimum: int)
    requires OperatorPrecedence(op) >= minimum
    ensures Print(Binary(op, Literal(a), Literal(b)), minimum) == [TLiteral(a), OperatorToken(op), TLiteral(b)]
  {
    hide OperatorToken, OperatorPrecedence;
    Positive(op);
    PrintedLiteral(a, LeftMinimum(op));
    PrintedLiteral(b, RightMinimum(op));
    assert Print(Binary(op, Literal(a), Literal(b)), minimum) == [TLiteral(a)] + ([OperatorToken(op)] + [TLiteral(b)]);
  }

  /** The operator of each token, between any two literals. */
  lemma OperatorOfToken(fs: set<string>, a: Constant, t: Token, b: Constant)
    ensures var read := (op: Operator) => Some(Binary(op, Literal(a), Literal(b)));
            var r := Parse(fs, [TLiteral(a), t, TLiteral(b)]);
            match t
            case TOr => r == read(Or)
            case TAnd => r == read(And)
            case TPlus => r == read(Add)
            case TMinus => r == read(Sub)
            case TStar => r == read(Mul)
            case TSlash => r == read(Div)
            case TSlashSlash => r == read(FloorDiv)
            case TPercent => r == read(Mod)
            case TStarStar => r == read(Pow)
            case _ => true
  {
    hide Parse;
    var op := match t
      case TAnd => And case TPlus => Add case TMinus => Sub case TStar => Mul case TSlash => Div
      case TSlashSlash => FloorDiv case TPercent => Mod case TStarStar => Pow case _ => Or;
    Positive(op);
    Pair(op, a, b, 0);
    RoundTrip(fs, Binary(op, Literal(a), Literal(b)));
  }

  /** The comparison of each token, and of the pairs that make one operator. */
  lemma ComparisonOfTokens(fs: set<string>, a: Constant, b: Constant, c: Comparison, ts: seq<Token>)
    requires match c
             case Eq => ts == [TEq] case Ne => ts == [TNe] case Lt => ts == [TLt] case Le => ts == [TLe] case Gt => ts == [TGt]
             case Ge => ts == [TGe] case Is => ts == [TIs] case IsNot => ts == [TIs, TNot] case In => ts == [TIn] case NotIn => ts == [TNot, TIn]
    ensures Parse(fs, [TLiteral(a)] + (ts + [TLiteral(b)])) == Some(Compare(Literal(a), Link(c, Literal(b), NoLinks)))
  {
    hide Parse, ComparisonTokens;
    var links := Link(c, Literal(b), NoLinks);
    var e := Compare(Literal(a), links);
    PrintedLiteral(a, COMPARISON + 1);
    PrintedLiteral(b, COMPARISON + 1);
    assert PrintLinks(NoLinks) == [] && [TLiteral(b)] + [] == [TLiteral(b)];
    assert PrintLinks(links) == ComparisonTokens(c) + [TLiteral(b)];
    assert Print(e, 0) == [TLiteral(a)] + (ComparisonTokens(c) + [TLiteral(b)]);
    SpelledAs(c, ts);
    RoundTrip(fs, e);
  }

  lemma SpelledAs(c: Comparison, ts: seq<Token>)
    requires match c
             case Eq => ts == [TEq] case Ne => ts == [TNe] case Lt => ts == [TLt] case Le => ts == [TLe] case Gt => ts == [TGt]
             case Ge => ts == [TGe] case Is => ts == [TIs] case IsNot => ts == [TIs, TNot] case In => ts == [TIn] case NotIn => ts == [TNot, TIn]
    ensures ComparisonTokens(c) == ts
  {
  }

  /** A name alone: three of them stand for values, every other public one for a variable, and a private one is refused. */
  lemma NameAlone(fs: set<string>, name: string)
    ensures Parse(fs, [TName(name)]) ==
            if name == "true" then Some(Literal(TrueValue))
            else if name == "false" then Some(Literal(FalseValue))
            else if name == "none" then Some(Literal(NoneValue))
            else if name != "" && name[0] != '_' then Some(Variable(name))
            else None
  {
    var ts := [TName(name)];
    assert ts[1..] == [];
    assert Operation([]) == (NoInfix, 0);
    var e := ParsePrimary(fs, ts);
    if e.Some? { LoopStops(fs, e.value.0, [], 0); }
  }

  /** `not` takes all but `and` and `or` first; a sign takes its operand before every operator, `**` included. */
  lemma PrefixGrouping(fs: set<string>, prefix: Prefix, a: Constant, op: Operator, b: Constant)
    ensures Parse(fs, [PrefixToken(prefix), TLiteral(a), OperatorToken(op), TLiteral(b)]) ==
            Some(if prefix == NotOp && Tier(op) > 1 then Unary(prefix, Binary(op, Literal(a), Literal(b)))
                 else Binary(op, Unary(prefix, Literal(a)), Literal(b)))
  {
    hide Parse;
    if prefix == NotOp && Tier(op) > 1 { PrefixLast(fs, prefix, a, op, b); } else { PrefixFirst(fs, prefix, a, op, b); }
  }

  lemma PrefixLast(fs: set<string>, prefix: Prefix, a: Constant, op: Operator, b: Constant)
    requires OperatorPrecedence(op) >= PrefixPrecedence(prefix)
    ensures Parse(fs, [PrefixToken(prefix), TLiteral(a), OperatorToken(op), TLiteral(b)]) ==
            Some(Unary(prefix, Binary(op, Literal(a), Literal(b))))
  {
    hide Parse, OperatorToken, OperatorPrecedence, PrefixToken;
    var e := Unary(prefix, Binary(op, Literal(a), Literal(b)));
    Pair(op, a, b, PrefixPrecedence(prefix));
    assert Print(e, 0) == [PrefixToken(prefix)] + [TLiteral(a), OperatorToken(op), TLiteral(b)];
    assert Print(e, 0) == [PrefixToken(prefix), TLiteral(a), OperatorToken(op), TLiteral(b)];
    RoundTrip(fs, e);
  }

  lemma PrefixFirst(fs: set<string>, prefix: Prefix, a: Constant, op: Operator, b: Constant)
    requires PrefixPrecedence(prefix) >= LeftMinimum(op)
    ensures Parse(fs, [PrefixToken(prefix), TLiteral(a), OperatorToken(op), TLiteral(b)]) ==
            Some(Binary(op, Unary(prefix, Literal(a)), Literal(b)))
  {
    hide Parse, OperatorToken, OperatorPrecedence, PrefixToken;
    var u := Unary(prefix, Literal(a));
    var e := Binary(op, u, Literal(b));
    Positive(op);
    PrintedLiteral(a, PrefixPrecedence(prefix));
    PrintedLiteral(b, RightMinimum(op));
    assert Print(u, LeftMinimum(op)) == [PrefixToken(prefix)] + [TLiteral(a)];
    assert Print(e, 0) == [PrefixToken(prefix), TLiteral(a), OperatorToken(op), TLiteral(b)];
    RoundTrip(fs, e);
  }
}
