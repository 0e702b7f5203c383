/**
 `TemplateParser` as the source writes it: an index into the tokens and the loop depth, both changed in
 place. Every method reads what the functions of `Templates` read, and the depth is back where it was
 whenever a method succeeds.
 */
module TemplateReader {
  import opened Prelude
  import opened Expressions
  import opened Templates

  /** The outcome `r` with the tokens `left` is what the function `p` gives. */
  ghost predicate Agrees<T>(r: Option<T>, left: seq<Block>, p: Read<T>) {
    if p.None? then r.None? else r == Some(p.value.0) && left == p.value.1
  }

  function Listed(nodes: seq<Node>): (r: Nodes) { Append(nodes, Empty) }

  function Append(nodes: seq<Node>, tail: Nodes): (r: Nodes) {
    if nodes == [] then tail else Then(nodes[0], Append(nodes[1..], tail))
  }

  /** `nodes` put before what is still to be read. */
  function Onto(nodes: seq<Node>, p: Read<Nodes>): (r: Read<Nodes>) {
    if p.None? then None else Some((Append(nodes, p.value.0), p.value.1))
  }

  lemma {:induction false} AppendLast(nodes: seq<Node>, n: Node, tail: Nodes)
    ensures Append(nodes + [n], tail) == Append(nodes, Then(n, tail))
    decreases |nodes|
  {
    if nodes == [] {
      assert [n][1..] == [];
      assert Append([], Then(n, tail)) == Then(n, tail);
      assert nodes + [n] == [n];
    } else {
      assert (nodes + [n])[1..] == nodes[1..] + [n];
      AppendLast(nodes[1..], n, tail);
    }
  }

  function AppendBranches(branches: seq<(Option<Expr>, Nodes)>, tail: Branches): (r: Branches) {
    if branches == [] then tail else Branch(branches[0].0, branches[0].1, AppendBranches(branches[1..], tail))
  }

  function OntoBranches(branches: seq<(Option<Expr>, Nodes)>, p: Read<Branches>): (r: Read<Branches>) {
    if p.None? then None else Some((AppendBranches(branches, p.value.0), p.value.1))
  }

  lemma {:induction false} AppendLastBranch(branches: seq<(Option<Expr>, Nodes)>, b: (Option<Expr>, Nodes), tail: Branches)
    ensures AppendBranches(branches + [b], tail) == AppendBranches(branches, Branch(b.0, b.1, tail))
    decreases |branches|
  {
    if branches == [] {
      assert [b][1..] == [];
      assert AppendBranches([], Branch(b.0, b.1, tail)) == Branch(b.0, b.1, tail);
      assert branches + [b] == [b];
    } else {
      assert (branches + [b])[1..] == branches[1..] + [b];
      AppendLastBranch(branches[1..], b, tail);
    }
  }

  class TemplateParser {
    const tokens: seq<Block>
    const filters: set<string>
    var index: nat
    var loopDepth: nat

    predicate Valid() reads this { index <= |tokens| }

    /** The tokens not read yet. */
    function Left(): (ts: seq<Block>)
      requires Valid()
      reads this
    {
      tokens[index..]
    }

    constructor (tokens: seq<Block>, filters: set<string>)
      ensures Valid() && this.tokens == tokens && this.filters == filters && index == 0 && loopDepth == 0
    {
      this.tokens, this.filters, index, loopDepth := tokens, filters, 0, 0;
    }

    /** `body(stops)`. */
    method ReadBody(stops: Stops) returns (r: Option<Nodes>)
      requires Valid()
      modifies this
      ensures Valid() && old(index) <= index && (r.Some? ==> loopDepth == old(loopDepth))
      ensures Agrees(r, Left(), ParseBody(filters, old(Left()), old(loopDepth), stops))
      decreases |tokens| - index, 1
    {
      hide ParseStatement, Append, StopsAt;
      ghost var whole := ParseBody(filters, Left(), loopDepth, stops);
      var nodes: seq<Node> := [];
      OntoNothing(whole);
      while index < |tokens| && !StopsAt(stops, tokens[index])
        invariant Valid() && old(index) <= index && loopDepth == old(loopDepth)
        invariant whole == Onto(nodes, ParseBody(filters, Left(), loopDepth, stops))
        decreases |tokens| - index
      {
        BodyUnfolds(filters, Left(), loopDepth, stops);
        var token := tokens[index];
        assert Left()[1..] == tokens[index + 1..];
        index := index + 1;
        var node := ReadStatement(token);
        if node.None? { return None; }
        if node.value.Some? {
          OntoGrows(nodes, node.value.value, ParseBody(filters, Left(), loopDepth, stops));
          nodes := nodes + [node.value.value];
        }
      }
      r := Some(Listed(nodes));
    }

    static lemma OntoNothing(p: Read<Nodes>)
      ensures Onto([], p) == p
    {
    }

    static lemma OntoGrows(nodes: seq<Node>, n: Node, more: Read<Nodes>)
      ensures Onto(nodes, if more.None? then None else Some((Then(n, more.value.0), more.value.1))) == Onto(nodes + [n], more)
    {
      if more.Some? { AppendLast(nodes, n, more.value.0); }
    }

    static lemma BodyUnfolds(fs: set<string>, ts: seq<Block>, depth: nat, stops: Stops)
      requires ts != [] && !StopsAt(stops, ts[0])
      ensures var s := ParseStatement(fs, ts[0], ts[1..], depth);
              ParseBody(fs, ts, depth, stops) ==
              if s.None? then None
              else
                var more := ParseBody(fs, s.value.1, depth, stops);
                if s.value.0.None? then more
                else if more.None? then None
                else Some((Then(s.value.0.value, more.value.0), more.value.1))
    {
      hide ParseStatement;
    }

    /** `statement(token)`. */
    method ReadStatement(token: Block) returns (r: Option<Option<Node>>)
      requires Valid()
      modifies this
      ensures Valid() && old(index) <= index && (r.Some? ==> loopDepth == old(loopDepth))
      ensures Agrees(r, Left(), ParseStatement(filters, token, old(Left()), old(loopDepth)))
      decreases |tokens| - index, 5
    {
      hide Parse, ParseHeader, ParseCondition, ParseLoopBlock;
      match token
      case TextToken(text) => r := Some(Some(TextNode(text)));
      case ExpressionToken(code) =>
        var e := Parse(filters, code);
        r := if e.None? then None else Some(Some(OutputNode(e.value)));
      case CommentToken => r := Some(None);
      case CommandToken(command, code) =>
        match command {
          case IfCommand =>
            var n := ReadCondition(code);
            r := if n.None? then None else Some(n);
          case ForCommand =>
            var n := ReadLoop(code);
            r := if n.None? then None else Some(n);
          case SetCommand =>
            var h := ParseHeader(filters, code, TAssign);
            r := if h.None? then None else Some(Some(SetNode(h.value.0, h.value.1)));
          case BreakCommand => r := if code == [] && loopDepth > 0 then Some(Some(BreakNode)) else None;
          case ContinueCommand => r := if code == [] && loopDepth > 0 then Some(Some(ContinueNode)) else None;
          case _ => r := None;
        }
    }

    /** `end(opening, expected)`: what stands here is a command, as the source asserts. */
    method ReadEnd(expected: Command) returns (ok: bool)
      requires Valid() && (Left() == [] || Left()[0].CommandToken?)
      modifies this`index
      ensures Valid() && (var rest := ParseEnd(old(Left()), expected); ok == rest.Some? && (ok ==> Left() == rest.value))
      ensures if ok then old(index) < index else index == old(index)
    {
      if index == |tokens| { return false; }
      var token := tokens[index];
      assert token == Left()[0] && token.CommandToken?;
      ok := (token.command == EndCommand || token.command == expected) && token.code == [];
      if ok { index := index + 1; }
    }

    /** `condition(opening)`. */
    method ReadCondition(code: seq<Token>) returns (r: Option<Node>)
      requires Valid()
      modifies this
      ensures Valid() && old(index) <= index && (r.Some? ==> loopDepth == old(loopDepth))
      ensures Agrees(r, Left(), ParseCondition(filters, code, old(Left()), old(loopDepth)))
      decreases |tokens| - index, 4
    {
      hide Parse, ParseBody, ParseBranches, ParseEnd, AppendBranches;
      var e := Parse(filters, code);
      if e.None? { return None; }
      var body := ReadBody(AtElifOrElse);
      if body.None? { return None; }
      ghost var after := Left();
      var branches := ReadBranches();
      if branches.None? { return None; }
      var ok := ReadEnd(EndIfCommand);
      r := if ok then Some(IfNode(Branch(e, body.value, AppendBranches(branches.value, NoBranches)))) else None;
    }

    /** The loop of `condition`: every token it looks at is a command, as the source asserts. */
    method ReadBranches() returns (r: Option<seq<(Option<Expr>, Nodes)>>)
      requires Valid() && (Left() == [] || StopsAt(AtElifOrElse, Left()[0]))
      modifies this
      ensures Valid() && old(index) <= index && (r.Some? ==> loopDepth == old(loopDepth))
      ensures Agrees(if r.None? then None else Some(AppendBranches(r.value, NoBranches)), Left(),
                     ParseBranches(filters, old(Left()), old(loopDepth), false))
      decreases |tokens| - index, 3
    {
      hide Parse, ParseBody, AppendBranches;
      ghost var whole := ParseBranches(filters, Left(), loopDepth, false);
      var branches: seq<(Option<Expr>, Nodes)> := [];
      var seenElse := false;
      BranchesNothing(whole);
      while index < |tokens| && (tokens[index].command == ElifCommand || tokens[index].command == ElseCommand)
        invariant Valid() && old(index) <= index && loopDepth == old(loopDepth)
        invariant Left() == [] || StopsAt(AtElifOrElse, Left()[0])
        invariant index < |tokens| ==> Left()[0] == tokens[index]
        invariant whole == OntoBranches(branches, ParseBranches(filters, Left(), loopDepth, seenElse))
        decreases |tokens| - index
      {
        if seenElse { return None; }
        var token := tokens[index];
        assert Left()[1..] == tokens[index + 1..];
        index := index + 1;
        var condition: Option<Expr> := None;
        if token.command == ElseCommand {
          if token.code != [] { return None; }
          seenElse := true;
        } else {
          condition := Parse(filters, token.code);
          if condition.None? { return None; }
        }
        var body := ReadBody(AtElifOrElse);
        if body.None? { return None; }
        BranchesGrow(branches, (condition, body.value), ParseBranches(filters, Left(), loopDepth, seenElse));
        branches := branches + [(condition, body.value)];
      }
      r := Some(branches);
    }

    static lemma BranchesNothing(p: Read<Branches>)
      ensures OntoBranches([], p) == p
    {
    }

    static lemma BranchesGrow(branches: seq<(Option<Expr>, Nodes)>, b: (Option<Expr>, Nodes), more: Read<Branches>)
      ensures OntoBranches(branches, if more.None? then None else Some((Branch(b.0, b.1, more.value.0), more.value.1)))
           == OntoBranches(branches + [b], more)
    {
      if more.Some? { AppendLastBranch(branches, b, more.value.0); }
    }

    /** `loop(opening)`: one loop deeper for the body only. */
    method ReadLoop(code: seq<Token>) returns (r: Option<Node>)
      requires Valid()
      modifies this
      ensures Valid() && old(index) <= index && (r.Some? ==> loopDepth == old(loopDepth))
      ensures Agrees(r, Left(), ParseLoopBlock(filters, code, old(Left()), old(loopDepth)))
      decreases |tokens| - index, 4
    {
      hide ParseHeader, ParseBody, ParseEnd;
      var h := ParseHeader(filters, code, TIn);
      if h.None? { return None; }
      loopDepth := loopDepth + 1;
      var body := ReadBody(AtElse);
      if body.None? { return None; }
      loopDepth := loopDepth - 1;
      var otherwise: Nodes := Empty;
      if index < |tokens| {
        var token := tokens[index];
        assert token == Left()[0] && token.CommandToken?;
        if token.command == ElseCommand {
          if token.code != [] { return None; }
          assert Left()[1..] == tokens[index + 1..];
          index := index + 1;
          var part := ReadBody(AtElse);
          if part.None? { return None; }
          otherwise := part.value;
        }
      }
      var ok := ReadEnd(EndForCommand);
      r := if ok then Some(ForNode(h.value.0, h.value.1, body.value, otherwise)) else None;
    }
  }

  /** `Template.compile` after the lexer. */
  method CompileTemplate(tokens: seq<Block>, filters: set<string>) returns (r: Option<Nodes>)
    ensures r == Compile(filters, tokens)
  {
    hide ParseBody;
    var parser := new TemplateParser(tokens, filters);
    assert parser.Left() == tokens;
    r := parser.ReadBody(Nowhere);
  }
}
