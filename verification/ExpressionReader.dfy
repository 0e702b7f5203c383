/**
 `ExpressionParser` as the source writes it: one index into the tokens, moved by loops. Every method is
 proved to read what the functions of `Expressions` read.
 */
module ExpressionReader {
  import opened Prelude
  import opened Expressions

  /** The outcome `r` with the tokens `left` is what the function `p` gives. */
  ghost predicate Agrees<T>(r: Option<T>, left: seq<Token>, p: Parsed<T>) {
    if p.None? then r.None? else r == Some(p.value.0) && left == p.value.1
  }

  /** `items` put before what is still to be read. */
  function Onto(items: seq<Expr>, p: Parsed<Exprs>): (r: Parsed<Exprs>)
    decreases |items|
  {
    if items == [] || p.None? then p
    else Onto(items[..|items| - 1], Some((Cons(items[|items| - 1], p.value.0), p.value.1)))
  }

  function Listed(items: seq<Expr>): (r: Exprs) {
    if items == [] then NoExprs else Cons(items[0], Listed(items[1..]))
  }

  lemma OntoNone(items: seq<Expr>)
    ensures Onto(items, None) == None
  {
  }

  lemma OntoAppend(items: seq<Expr>, e: Expr, p: Parsed<Exprs>)
    requires p.Some?
    ensures Onto(items + [e], p) == Onto(items, Some((Cons(e, p.value.0), p.value.1)))
  {
    assert (items + [e])[..|items|] == items;
  }

  lemma {:induction false} OntoListed(items: seq<Expr>, tail: seq<Expr>, rest: seq<Token>)
    ensures Onto(items, Some((Listed(tail), rest))) == Some((Listed(items + tail), rest))
    decreases |items|
  {
    if items == [] {
      assert items + tail == tail;
    } else {
      var last := items[|items| - 1];
      var longer := [last] + tail;
      assert longer[1..] == tail;
      OntoListed(items[..|items| - 1], longer, rest);
      assert items[..|items| - 1] + longer == items + tail;
    }
  }

  /** What `sequence` still reads after an item: `None` stands for the empty closing string. */
  function Remaining(fs: set<string>, ts: seq<Token>, closing: Option<Token>): (r: Parsed<Exprs>) {
    match closing
    case None => ParseTop(fs, ts)
    case Some(c) => ParseMore(fs, ts, c)
  }

  lemma RemainingStops(fs: set<string>, ts: seq<Token>, closing: Option<Token>)
    requires Peek(ts, 0) != Some(TComma)
    ensures closing.None? ==> Remaining(fs, ts, closing) == Some((NoExprs, ts))
    ensures closing.Some? ==> Remaining(fs, ts, closing) == (if Take(ts, closing.value).None? then None else Some((NoExprs, ts[1..])))
  {
  }

  lemma RemainingTrails(fs: set<string>, ts: seq<Token>, closing: Option<Token>)
    requires Peek(ts, 0) == Some(TComma) && Peek(ts, 1) == closing
    ensures closing.None? ==> Remaining(fs, ts, closing) == Some((NoExprs, ts[1..]))
    ensures closing.Some? ==> Remaining(fs, ts, closing) == Some((NoExprs, ts[2..]))
  {
  }

  lemma RemainingTakes(fs: set<string>, ts: seq<Token>, closing: Option<Token>)
    requires Peek(ts, 0) == Some(TComma) && Peek(ts, 1) != closing
    ensures var e := ParseExpression(fs, ts[1..], 0);
            Remaining(fs, ts, closing) ==
            if e.None? then None
            else
              var more := Remaining(fs, e.value.1, closing);
              if more.None? then None else Some((Cons(e.value.0, more.value.0), more.value.1))
  {
    hide ParseExpression;
  }

  /** Arguments of a filter as they are read: the name of a keyword argument, and the value. */
  type Items = seq<(Option<string>, Expr)>

  /** `items` put before the arguments still to be read. */
  function Before(items: Items, p: Parsed<Arguments>): (r: Parsed<Arguments>)
    decreases |items|
  {
    var n := |items| - 1;
    if items == [] || p.None? then p
    else Before(items[..n], Some((Argument(items[n].0, items[n].1, p.value.0), p.value.1)))
  }

  function ArgumentsOf(items: Items): (r: Arguments) {
    if items == [] then NoArguments else Argument(items[0].0, items[0].1, ArgumentsOf(items[1..]))
  }

  lemma BeforeNone(items: Items)
    ensures Before(items, None) == None
  {
  }

  lemma BeforeGrows(items: Items, name: Option<string>, e: Expr, more: Parsed<Arguments>)
    ensures Before(items, if more.None? then None else Some((Argument(name, e, more.value.0), more.value.1))) == Before(items + [(name, e)], more)
  {
    if more.None? {
      BeforeNone(items);
      BeforeNone(items + [(name, e)]);
    } else {
      assert (items + [(name, e)])[..|items|] == items;
    }
  }

  lemma {:induction false} BeforeList(items: Items, tail: Items, rest: seq<Token>)
    ensures Before(items, Some((ArgumentsOf(tail), rest))) == Some((ArgumentsOf(items + tail), rest))
    decreases |items|
  {
    if items == [] {
      assert items + tail == tail;
    } else {
      var n := |items| - 1;
      var longer := [items[n]] + tail;
      assert longer[1..] == tail;
      BeforeList(items[..n], longer, rest);
      assert items[..n] + longer == items + tail;
    }
  }

  lemma BeforeEnds(items: Items, rest: seq<Token>)
    ensures Before(items, Some((NoArguments, rest))) == Some((ArgumentsOf(items), rest))
  {
    BeforeList(items, [], rest);
    assert items + [] == items;
  }

  lemma MoreArguments(fs: set<string>, ts: seq<Token>, used: set<string>)
    ensures ParseMoreArguments(fs, ts, used) ==
            if Peek(ts, 0) != Some(TComma) then (if Take(ts, TRightParen).None? then None else Some((NoArguments, ts[1..])))
            else if Peek(ts, 1) == Some(TRightParen) then Some((NoArguments, ts[2..]))
            else ParseNextArguments(fs, ts[1..], used)
  {
    hide ParseNextArguments;
  }

  /** One argument, and what follows it put behind those before. */
  lemma NextArguments(fs: set<string>, items: Items, ts: seq<Token>, used: set<string>)
    ensures var a := ParseArgument(fs, ts, used);
            Before(items, ParseNextArguments(fs, ts, used)) ==
            if a.None? then None else Before(items + [a.value.0], ParseMoreArguments(fs, a.value.1, used + Named(a.value.0.0)))
  {
    hide ParseArgument, ParseMoreArguments, Before;
    var a := ParseArgument(fs, ts, used);
    if a.None? {
      BeforeNone(items);
    } else {
      var (name, e) := a.value.0;
      BeforeGrows(items, name, e, ParseMoreArguments(fs, a.value.1, used + Named(name)));
    }
  }

  lemma NothingBefore(p: Parsed<Arguments>)
    ensures Before([], p) == p && ArgumentsOf([]) == NoArguments
  {
  }

  /** The comparison chain as a list, and `operands`, `operators` of the source's tree. */
  function Chain(operators: seq<Comparison>, operands: seq<Expr>, p: Parsed<Links>): (r: Parsed<Links>)
    requires |operators| == |operands|
    decreases |operators|
  {
    var n := |operators| - 1;
    if operators == [] || p.None? then p
    else Chain(operators[..n], operands[..n], Some((Link(operators[n], operands[n], p.value.0), p.value.1)))
  }

  lemma ChainAppend(operators: seq<Comparison>, operands: seq<Expr>, c: Comparison, e: Expr, p: Parsed<Links>)
    requires |operators| == |operands| && p.Some?
    ensures Chain(operators + [c], operands + [e], p) == Chain(operators, operands, Some((Link(c, e, p.value.0), p.value.1)))
  {
    assert (operators + [c])[..|operators|] == operators && (operands + [e])[..|operands|] == operands;
  }

  function LinksOf(operators: seq<Comparison>, operands: seq<Expr>): (r: Links)
    requires |operators| == |operands|
  {
    if operators == [] then NoLinks else Link(operators[0], operands[0], LinksOf(operators[1..], operands[1..]))
  }

  lemma {:induction false} ChainLinks(xs: seq<Comparison>, es: seq<Expr>, ys: seq<Comparison>, fs: seq<Expr>, rest: seq<Token>)
    requires |xs| == |es| && |ys| == |fs|
    ensures Chain(xs, es, Some((LinksOf(ys, fs), rest))) == Some((LinksOf(xs + ys, es + fs), rest))
    decreases |xs|
  {
    if xs == [] {
      assert xs + ys == ys && es + fs == fs;
    } else {
      var n := |xs| - 1;
      assert ([xs[n]] + ys)[1..] == ys && ([es[n]] + fs)[1..] == fs;
      ChainLinks(xs[..n], es[..n], [xs[n]] + ys, [es[n]] + fs, rest);
      assert xs[..n] + ([xs[n]] + ys) == xs + ys && es[..n] + ([es[n]] + fs) == es + fs;
    }
  }

  class ExpressionParser {
    const tokens: seq<Token>
    const filters: set<string>
    var index: nat

    predicate Valid() reads this { index <= |tokens| }

    /** The tokens not read yet. */
    function Left(): (ts: seq<Token>)
      requires Valid()
      reads this
    {
      tokens[index..]
    }

    constructor (tokens: seq<Token>, filters: set<string>)
      ensures Valid() && this.tokens == tokens && this.filters == filters && index == 0
    {
      this.tokens, this.filters, index := tokens, filters, 0;
    }

    method PeekAt(distance: nat) returns (t: Option<Token>)
      requires Valid()
      ensures t == Peek(Left(), distance)
    {
      t := if index + distance < |tokens| then Some(tokens[index + distance]) else None;
    }

    /** `take(expected)`; false is the `SyntaxError`. */
    method TakeToken(expected: Token) returns (ok: bool)
      requires Valid()
      modifies this`index
      ensures Valid()
      ensures var rest := Take(old(Left()), expected); ok == rest.Some? && (ok ==> Left() == rest.value)
      ensures if ok then old(index) < index else index == old(index)
    {
      ok := index < |tokens| && tokens[index] == expected;
      if ok { index := index + 1; }
    }

    method TakeIdentifier() returns (r: Option<string>)
      requires Valid()
      modifies this`index
      ensures Valid() && Agrees(r, Left(), TakeName(old(Left())))
      ensures old(index) <= index && (r.Some? ==> old(index) < index)
    {
      if index < |tokens| && tokens[index].TName? && Public(tokens[index].name) {
        r := Some(tokens[index].name);
        index := index + 1;
      } else {
        r := None;
      }
    }

    /** `expression(minimum)`. */
    method ReadExpression(minimum: int) returns (r: Option<Expr>)
      requires Valid()
      modifies this`index
      ensures Valid() && Agrees(r, Left(), ParseExpression(filters, old(Left()), minimum))
      ensures old(index) <= index && (r.Some? ==> old(index) < index)
      decreases |tokens| - index, 1
    {
      hide ParseLoop, ParsePrimary, ParseInfix, Operation, Precedence;
      ghost var whole := ParseExpression(filters, Left(), minimum);
      r := ReadPrimary();
      if r.None? { return; }
      var (op, width) := Operation(Left());
      while op != NoInfix && Precedence(op) >= minimum
        invariant Valid() && r.Some? && old(index) < index
        invariant (op, width) == Operation(Left()) && width <= |Left()|
        invariant whole == ParseLoop(filters, r.value, Left(), minimum)
        decreases |tokens| - index
      {
        LoopUnfolds(r.value, minimum);
        index := index + width;
        assert Left() == tokens[index - width..][width..];
        r := ReadInfix(r.value, op);
        if r.None? { return; }
        var next := Operation(Left());
        op, width := next.0, next.1;
      }
      LoopUnfolds(r.value, minimum);
    }

    lemma LoopUnfolds(left: Expr, minimum: int)
      requires Valid()
      ensures var (op, width) := Operation(Left());
              ParseLoop(filters, left, Left(), minimum) ==
              if op == NoInfix || Precedence(op) < minimum then Some((left, Left()))
              else
                var i := ParseInfix(filters, left, op, Left()[width..]);
                if i.None? then None else ParseLoop(filters, i.value.0, i.value.1, minimum)
    {
      hide ParseInfix;
    }

    /** `primary`. */
    method ReadPrimary() returns (r: Option<Expr>)
      requires Valid()
      modifies this`index
      ensures Valid() && Agrees(r, Left(), ParsePrimary(filters, old(Left())))
      ensures old(index) <= index && (r.Some? ==> old(index) < index)
      decreases |tokens| - index, 0
    {
      hide ParseExpression, ParseParenthesis, ParseItems;
      if index == |tokens| { return None; }
      var token := tokens[index];
      index := index + 1;
      assert Left() == old(Left())[1..];
      if PrefixOf(token).Some? {
        var prefix := PrefixOf(token).value;
        var operand := ReadExpression(PrefixPrecedence(prefix));
        r := if operand.None? then None else Some(Unary(prefix, operand.value));
      } else {
        match token
        case TLiteral(v) => r := Some(Literal(v));
        case TName(name) =>
          r := if NamedLiteral(name).Some? then Some(Literal(NamedLiteral(name).value))
               else if Public(name) then Some(Variable(name))
               else None;
        case TLeftParen => r := ReadParenthesis();
        case TLeftBracket =>
          var items := ReadItems(TRightBracket);
          r := if items.None? then None else Some(List(Listed(items.value)));
        case _ => r := None;
      }
    }

    method ReadParenthesis() returns (r: Option<Expr>)
      requires Valid()
      modifies this`index
      ensures Valid() && Agrees(r, Left(), ParseParenthesis(filters, old(Left())))
      ensures old(index) <= index && (r.Some? ==> old(index) < index)
      decreases |tokens| - index, 4
    {
      hide ParseExpression, ParseMore;
      var ok := TakeToken(TRightParen);
      if ok { return Some(Tuple(NoExprs)); }
      r := ReadExpression(0);
      if r.None? { return; }
      var next := PeekAt(0);
      if next == Some(TComma) {
        ghost var after := Left();
        var items := Sequence(Some(TRightParen), [r.value]);
        OntoOne(r.value, ParseMore(filters, after, TRightParen));
        r := if items.None? then None else Some(Tuple(Listed(items.value)));
      } else {
        ok := TakeToken(TRightParen);
        if !ok { r := None; }
      }
    }

    static lemma OntoOne(e: Expr, p: Parsed<Exprs>)
      ensures Onto([e], p) == if p.None? then None else Some((Cons(e, p.value.0), p.value.1))
    {
      if p.Some? {
        assert [e][..0] == [];
        assert Onto([], Some((Cons(e, p.value.0), p.value.1))) == Some((Cons(e, p.value.0), p.value.1));
      }
    }

    /** `sequence` with no first item. */
    method ReadItems(closing: Token) returns (r: Option<seq<Expr>>)
      requires Valid()
      modifies this`index
      ensures Valid() && old(index) <= index && (r.Some? ==> old(index) < index)
      ensures Agrees(if r.None? then None else Some(Listed(r.value)), Left(), ParseItems(filters, old(Left()), closing))
      decreases |tokens| - index, 4
    {
      hide ParseExpression, ParseMore;
      var next := PeekAt(0);
      if next == Some(closing) {
        index := index + 1;
        return Some([]);
      }
      var e := ReadExpression(0);
      if e.None? { return None; }
      ghost var after := Left();
      r := Sequence(Some(closing), [e.value]);
      OntoOne(e.value, ParseMore(filters, after, closing));
    }

    /** `sequence` after its first items. */
    method Sequence(closing: Option<Token>, first: seq<Expr>) returns (r: Option<seq<Expr>>)
      requires Valid()
      modifies this`index
      ensures Valid() && old(index) <= index && (r.Some? && closing.Some? ==> old(index) < index)
      ensures Agrees(if r.None? then None else Some(Listed(r.value)), Left(), Onto(first, Remaining(filters, old(Left()), closing)))
      decreases |tokens| - index, 3
    {
      hide ParseExpression, Remaining, Onto, Listed;
      ghost var whole := Onto(first, Remaining(filters, Left(), closing));
      var items := first;
      var next := PeekAt(0);
      while next == Some(TComma)
        invariant Valid() && old(index) <= index && next == Peek(Left(), 0)
        invariant whole == Onto(items, Remaining(filters, Left(), closing))
        decreases |tokens| - index
      {
        ghost var ts := Left();
        index := index + 1;
        assert Left() == ts[1..];
        next := PeekAt(0);
        assert next == Peek(ts, 1);
        if next == closing {
          RemainingTrails(filters, ts, closing);
          if closing.Some? { index := index + 1; }
          assert Onto(items, Some((NoExprs, Left()))) == whole;
          OntoEnds(items, Left());
          return Some(items);
        }
        RemainingTakes(filters, ts, closing);
        var e := ReadExpression(0);
        if e.None? {
          OntoNone(items);
          return None;
        }
        OntoGrows(items, e.value, Remaining(filters, Left(), closing));
        items := items + [e.value];
        next := PeekAt(0);
      }
      RemainingStops(filters, Left(), closing);
      if closing.Some? {
        var ok := TakeToken(closing.value);
        if !ok {
          OntoNone(items);
          return None;
        }
      }
      OntoEnds(items, Left());
      r := Some(items);
    }

    static lemma OntoEnds(items: seq<Expr>, rest: seq<Token>)
      ensures Onto(items, Some((NoExprs, rest))) == Some((Listed(items), rest))
    {
      OntoListed(items, [], rest);
      assert items + [] == items;
    }

    static lemma OntoGrows(items: seq<Expr>, e: Expr, more: Parsed<Exprs>)
      ensures Onto(items, if more.None? then None else Some((Cons(e, more.value.0), more.value.1))) == Onto(items + [e], more)
    {
      if more.None? {
        OntoNone(items);
        OntoNone(items + [e]);
      } else {
        OntoAppend(items, e, more);
      }
    }

    /** `infix`, `subscript` and `filter_call`, after `take_operation`. */
    method ReadInfix(left: Expr, op: Infix) returns (r: Option<Expr>)
      requires Valid()
      modifies this`index
      ensures Valid() && Agrees(r, Left(), ParseInfix(filters, left, op, old(Left())))
      ensures old(index) <= index && (r.Some? ==> old(index) < index)
      decreases |tokens| - index, 5
    {
      hide ParseExpression, ParseLinks, ParseFilter, Take;
      match op
      case InfixDot =>
        var name := TakeIdentifier();
        r := if name.None? then None else Some(Attribute(left, name.value));
      case InfixBracket =>
        var key := ReadExpression(0);
        if key.None? { return None; }
        var ok := TakeToken(TRightBracket);
        r := if ok then Some(Lookup(left, key.value)) else None;
      case InfixFilter => r := ReadFilter(left);
      case InfixIf => r := ReadConditional(left);
      case InfixCompare(c) =>
        var links := ReadLinks(c);
        r := if links.None? then None else Some(Compare(left, LinksOf(links.value.0, links.value.1)));
      case InfixBinary(b) =>
        var right := ReadExpression(if b == Pow then OperatorPrecedence(b) else OperatorPrecedence(b) + 1);
        r := if right.None? then None else Some(Binary(b, left, right.value));
      case NoInfix => r := None;
    }

    method ReadConditional(left: Expr) returns (r: Option<Expr>)
      requires Valid()
      modifies this`index
      ensures Valid() && Agrees(r, Left(), ParseInfix(filters, left, InfixIf, old(Left())))
      ensures old(index) <= index && (r.Some? ==> old(index) < index)
      decreases |tokens| - index, 3
    {
      hide ParseExpression, Take;
      var condition := ReadExpression(CONDITIONAL + 1);
      if condition.None? { return None; }
      var ok := TakeToken(TElse);
      if !ok { return None; }
      var negative := ReadExpression(CONDITIONAL);
      r := if negative.None? then None else Some(Conditional(condition.value, left, negative.value));
    }

    method ReadFilter(left: Expr) returns (r: Option<Expr>)
      requires Valid()
      modifies this`index
      ensures Valid() && Agrees(r, Left(), ParseFilter(filters, left, old(Left())))
      ensures old(index) <= index && (r.Some? ==> old(index) < index)
      decreases |tokens| - index, 3
    {
      hide ParseArguments;
      var name := TakeIdentifier();
      if name.None? || name.value !in filters { return None; }
      var next := PeekAt(0);
      if next != Some(TLeftParen) { return Some(Filter(name.value, left, NoArguments)); }
      ghost var after := Left();
      index := index + 1;
      assert Left() == after[1..];
      var arguments := ReadArguments();
      r := if arguments.None? then None else Some(Filter(name.value, left, ArgumentsOf(arguments.value)));
    }

    /** `argument`; `used` are the keys of `kwargs`. */
    method ReadArgument(used: set<string>) returns (r: Option<(Option<string>, Expr)>)
      requires Valid()
      modifies this`index
      ensures Valid() && Agrees(r, Left(), ParseArgument(filters, old(Left()), used))
      ensures old(index) <= index && (r.Some? ==> old(index) < index)
      decreases |tokens| - index, 2
    {
      hide ParseExpression;
      var next := PeekAt(1);
      if next == Some(TAssign) {
        var name := TakeIdentifier();
        if name.None? || name.value in used { return None; }
        var ok := TakeToken(TAssign);
        assert ok && Left() == old(Left())[2..];
        var e := ReadExpression(0);
        r := if e.None? then None else Some((Some(name.value), e.value));
      } else {
        if used != {} { return None; }
        var e := ReadExpression(0);
        r := if e.None? then None else Some((None, e.value));
      }
    }

    /** `sequence` of `argument` up to the closing parenthesis. */
    method ReadArguments() returns (r: Option<Items>)
      requires Valid()
      modifies this`index
      ensures Valid() && old(index) <= index && (r.Some? ==> old(index) < index)
      ensures Agrees(if r.None? then None else Some(ArgumentsOf(r.value)), Left(), ParseArguments(filters, old(Left())))
      decreases |tokens| - index, 3
    {
      hide ParseArgument, ParseMoreArguments, ParseNextArguments, Before, ArgumentsOf;
      NothingBefore(ParseNextArguments(filters, Left(), {}));
      var next := PeekAt(0);
      if next == Some(TRightParen) {
        index := index + 1;
        return Some([]);
      }
      NextArguments(filters, [], Left(), {});
      var first := ReadArgument({});
      if first.None? { return None; }
      assert [] + [first.value] == [first.value];
      r := ReadMoreArguments([first.value], {} + Named(first.value.0));
    }

    /** The comma loop of `sequence`, after the first argument. */
    method ReadMoreArguments(first: Items, keys: set<string>) returns (r: Option<Items>)
      requires Valid()
      modifies this`index
      ensures Valid() && old(index) <= index && (r.Some? ==> old(index) < index)
      ensures Agrees(if r.None? then None else Some(ArgumentsOf(r.value)), Left(), Before(first, ParseMoreArguments(filters, old(Left()), keys)))
      decreases |tokens| - index, 3
    {
      hide ParseArgument, ParseMoreArguments, ParseNextArguments, Before, ArgumentsOf;
      ghost var whole := Before(first, ParseMoreArguments(filters, Left(), keys));
      var items, used := first, keys;
      var next := PeekAt(0);
      while next == Some(TComma)
        invariant Valid() && old(index) <= index && next == Peek(Left(), 0)
        invariant whole == Before(items, ParseMoreArguments(filters, Left(), used))
        decreases |tokens| - index
      {
        ghost var ts := Left();
        MoreArguments(filters, ts, used);
        index := index + 1;
        assert Left() == ts[1..];
        next := PeekAt(0);
        assert next == Peek(ts, 1);
        if next == Some(TRightParen) {
          index := index + 1;
          BeforeEnds(items, Left());
          return Some(items);
        }
        NextArguments(filters, items, Left(), used);
        var a := ReadArgument(used);
        if a.None? { return None; }
        items, used := items + [a.value], used + Named(a.value.0);
        next := PeekAt(0);
      }
      MoreArguments(filters, Left(), used);
      var ok := TakeToken(TRightParen);
      if !ok {
        BeforeNone(items);
        return None;
      }
      BeforeEnds(items, Left());
      r := Some(items);
    }

    /** The comparison loop of `infix`: the operators and the operands after the first. */
    method ReadLinks(c: Comparison) returns (r: Option<(seq<Comparison>, seq<Expr>)>)
      requires Valid()
      modifies this`index
      ensures r.Some? ==> |r.value.0| == |r.value.1|
      ensures Valid() && old(index) <= index && (r.Some? ==> old(index) < index)
      ensures Agrees(if r.None? then None else Some(LinksOf(r.value.0, r.value.1)), Left(), ParseLinks(filters, c, old(Left())))
      decreases |tokens| - index, 3
    {
      hide ParseExpression, ParseLinks, Operation, Chain, LinksOf;
      ghost var whole := ParseLinks(filters, c, Left());
      var op := c;
      var operators: seq<Comparison>, operands: seq<Expr> := [], [];
      ChainEmpty(whole);
      while true
        invariant Valid() && |operators| == |operands| && old(index) <= index
        invariant whole == Chain(operators, operands, ParseLinks(filters, op, Left()))
        decreases |tokens| - index
      {
        LinksUnfold(filters, op, Left());
        var e := ReadExpression(COMPARISON + 1);
        if e.None? {
          ChainNone(operators, operands);
          return None;
        }
        var (next, width) := Operation(Left());
        if !next.InfixCompare? {
          ChainGrows(operators, operands, op, e.value, Some((NoLinks, Left())));
          operators, operands := operators + [op], operands + [e.value];
          ChainEnds(operators, operands, Left());
          return Some((operators, operands));
        }
        ghost var rest := Left();
        index := index + width;
        assert Left() == rest[width..];
        ChainGrows(operators, operands, op, e.value, ParseLinks(filters, next.c, Left()));
        operators, operands, op := operators + [op], operands + [e.value], next.c;
      }
    }

    static lemma LinksUnfold(fs: set<string>, c: Comparison, ts: seq<Token>)
      ensures var e := ParseExpression(fs, ts, COMPARISON + 1);
              ParseLinks(fs, c, ts) ==
              if e.None? then None
              else
                var (op, width) := Operation(e.value.1);
                var more := if op.InfixCompare? then ParseLinks(fs, op.c, e.value.1[width..]) else Some((NoLinks, e.value.1));
                if more.None? then None else Some((Link(c, e.value.0, more.value.0), more.value.1))
    {
      hide ParseExpression, Operation;
    }

    static lemma ChainEmpty(p: Parsed<Links>)
      ensures Chain([], [], p) == p
    {
    }

    static lemma ChainNone(operators: seq<Comparison>, operands: seq<Expr>)
      requires |operators| == |operands|
      ensures Chain(operators, operands, None) == None
    {
    }

    static lemma ChainGrows(operators: seq<Comparison>, operands: seq<Expr>, c: Comparison, e: Expr, more: Parsed<Links>)
      requires |operators| == |operands|
      ensures Chain(operators, operands, if more.None? then None else Some((Link(c, e, more.value.0), more.value.1)))
           == Chain(operators + [c], operands + [e], more)
    {
      if more.None? {
        ChainNone(operators, operands);
        ChainNone(operators + [c], operands + [e]);
      } else {
        ChainAppend(operators, operands, c, e, more);
      }
    }

    static lemma ChainEnds(operators: seq<Comparison>, operands: seq<Expr>, rest: seq<Token>)
      requires |operators| == |operands|
      ensures Chain(operators, operands, Some((NoLinks, rest))) == Some((LinksOf(operators, operands), rest))
    {
      ChainLinks(operators, operands, [], [], rest);
      assert operators + [] == operators && operands + [] == operands;
    }

    /** `parse`. */
    method ReadAll() returns (r: Option<Expr>)
      requires Valid()
      modifies this`index
      ensures Valid() && r == Parse(filters, old(Left()))
    {
      hide ParseExpression, ParseTop;
      r := ReadExpression(0);
      if r.None? { return; }
      var next := PeekAt(0);
      if next == Some(TComma) {
        ghost var after := Left();
        var items := Sequence(None, [r.value]);
        OntoOne(r.value, ParseTop(filters, after));
        r := if items.None? then None else Some(Tuple(Listed(items.value)));
      }
      if index != |tokens| { r := None; }
    }
  }
}
