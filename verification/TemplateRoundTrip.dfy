/**
 What the block parser accepts: exactly the well-formed programs whose `break` and `continue` stand in
 a loop. Each of them, printed as tokens, is parsed back to itself, and the parser builds no other.
 */
module TemplateRoundTrip {
  import opened Prelude
  import opened Expressions
  import opened PrattRoundTrip
  import opened Templates

  // ---------------------------------------------------------------- well-formed programs

  predicate WellFormedTarget(t: Target) {
    t.names != [] && (forall i :: 0 <= i < |t.names| ==> Public(t.names[i])) && (t.unpack || |t.names| == 1)
  }

  predicate WellFormedNodes(fs: set<string>, nodes: Nodes) {
    nodes.Empty? || (WellFormedNode(fs, nodes.head) && WellFormedNodes(fs, nodes.tail))
  }

  predicate WellFormedNode(fs: set<string>, node: Node) {
    match node
    case OutputNode(e) => WellFormed(fs, e)
    case SetNode(t, e) => WellFormedTarget(t) && WellFormed(fs, e)
    case IfNode(branches) => branches.Branch? && branches.condition.Some? && WellFormedBranches(fs, branches)
    case ForNode(t, e, body, otherwise) =>
      WellFormedTarget(t) && WellFormed(fs, e) && WellFormedNodes(fs, body) && WellFormedNodes(fs, otherwise)
    case _ => true
  }

  /** Only the last branch may have no condition. */
  predicate WellFormedBranches(fs: set<string>, branches: Branches) {
    branches.NoBranches? || (
      && (if branches.condition.Some? then WellFormed(fs, branches.condition.value) else branches.more.NoBranches?)
      && WellFormedNodes(fs, branches.body) && WellFormedBranches(fs, branches.more))
  }

  // ---------------------------------------------------------------- printing

  function PrintNames(names: seq<string>, closing: Token): (ts: seq<Token>) {
    if names == [] then [closing] else [TComma, TName(names[0])] + PrintNames(names[1..], closing)
  }

  /** A target that unpacks into one name needs the comma after it. */
  function PrintTarget(t: Target, until: Token): (ts: seq<Token>)
    requires t.names != []
  {
    [TName(t.names[0])] + (if t.unpack && |t.names| == 1 then [TComma, until] else PrintNames(t.names[1..], until))
  }

  function PrintHeader(t: Target, e: Expr, until: Token): (ts: seq<Token>)
    requires t.names != []
  {
    PrintTarget(t, until) + Print(e, 0)
  }

  function PrintNodes(fs: set<string>, nodes: Nodes): (ts: seq<Block>)
    requires WellFormedNodes(fs, nodes)
    decreases nodes, 0
  {
    if nodes.Empty? then [] else PrintNode(fs, nodes.head) + PrintNodes(fs, nodes.tail)
  }

  function PrintNode(fs: set<string>, node: Node): (ts: seq<Block>)
    requires WellFormedNode(fs, node)
    ensures ts != []
    decreases node, 0
  {
    match node
    case TextNode(text) => [TextToken(text)]
    case OutputNode(e) => [ExpressionToken(Print(e, 0))]
    case SetNode(t, e) => [CommandToken(SetCommand, PrintHeader(t, e, TAssign))]
    case IfNode(branches) =>
      assert WellFormedBranches(fs, branches);
      [CommandToken(IfCommand, Print(branches.condition.value, 0))] + PrintNodes(fs, branches.body)
        + PrintBranches(fs, branches.more) + [CommandToken(EndIfCommand, [])]
    case ForNode(t, e, body, otherwise) =>
      [CommandToken(ForCommand, PrintHeader(t, e, TIn))] + PrintNodes(fs, body)
        + PrintOtherwise(fs, otherwise) + [CommandToken(EndForCommand, [])]
    case BreakNode => [CommandToken(BreakCommand, [])]
    case ContinueNode => [CommandToken(ContinueCommand, [])]
  }

  function PrintBranches(fs: set<string>, branches: Branches): (ts: seq<Block>)
    requires WellFormedBranches(fs, branches)
    decreases branches, 0
  {
    if branches.NoBranches? then []
    else
      [if branches.condition.Some? then CommandToken(ElifCommand, Print(branches.condition.value, 0)) else CommandToken(ElseCommand, [])]
        + PrintNodes(fs, branches.body) + PrintBranches(fs, branches.more)
  }

  function PrintOtherwise(fs: set<string>, otherwise: Nodes): (ts: seq<Block>)
    requires WellFormedNodes(fs, otherwise)
    decreases otherwise, 1
  {
    if otherwise.Empty? then [] else [CommandToken(ElseCommand, [])] + PrintNodes(fs, otherwise)
  }

  // ---------------------------------------------------------------- headers

  lemma {:induction false} PrintedNames(names: seq<string>, closing: Token, rest: seq<Token>)
    requires (forall i :: 0 <= i < |names| ==> Public(names[i])) && (closing == TIn || closing == TAssign)
    ensures ParseNames(PrintNames(names, closing) + rest, closing) == Some((names, rest))
    decreases |names|
  {
    var ts := PrintNames(names, closing) + rest;
    if names == [] {
      assert ts == [closing] + rest && ts[1..] == rest;
    } else {
      var after := PrintNames(names[1..], closing) + rest;
      PrintedNames(names[1..], closing, rest);
      assert ts == [TComma, TName(names[0])] + after;
      hide ParseNames, PrintNames;
      NamesTake(ts, closing, names[0], after, names[1..], rest);
      assert names == [names[0]] + names[1..];
    }
  }

  lemma NamesTake(ts: seq<Token>, closing: Token, name: string, after: seq<Token>, names: seq<string>, rest: seq<Token>)
    requires ts == [TComma, TName(name)] + after && Public(name) && !closing.TName? && ParseNames(after, closing) == Some((names, rest))
    ensures ParseNames(ts, closing) == Some(([name] + names, rest))
  {
    assert ts[1..] == [TName(name)] + after && ts[1..][1..] == after;
  }

  lemma PrintedTarget(t: Target, until: Token, rest: seq<Token>)
    requires WellFormedTarget(t) && (until == TIn || until == TAssign)
    ensures ParseTarget(PrintTarget(t, until) + rest, until) == Some((t, rest))
  {
    hide ParseNames, PrintNames;
    var ts := PrintTarget(t, until) + rest;
    var after := (if t.unpack && |t.names| == 1 then [TComma, until] else PrintNames(t.names[1..], until)) + rest;
    assert ts == [TName(t.names[0])] + after && ts[1..] == after;
    assert t.names == [t.names[0]] + t.names[1..];
    if t.unpack && |t.names| == 1 {
      TrailingName(after, until, rest);
    } else {
      PrintedNames(t.names[1..], until, rest);
      FirstOfNames(t.names[1..], until, rest);
    }
  }

  lemma TrailingName(ts: seq<Token>, until: Token, rest: seq<Token>)
    requires ts == [TComma, until] + rest
    ensures ParseNames(ts, until) == Some(([], rest)) && Peek(ts, 0) == Some(TComma)
  {
    assert ts[1..] == [until] + rest && ts[2..] == rest;
  }

  lemma FirstOfNames(names: seq<string>, until: Token, rest: seq<Token>)
    requires until != TComma
    ensures Peek(PrintNames(names, until) + rest, 0) == Some(TComma) <==> names != []
  {
    assert (PrintNames(names, until) + rest)[0] == PrintNames(names, until)[0];
  }

  lemma PrintedHeader(fs: set<string>, t: Target, e: Expr, until: Token)
    requires WellFormedTarget(t) && WellFormed(fs, e) && (until == TIn || until == TAssign)
    ensures ParseHeader(fs, PrintHeader(t, e, until), until) == Some((t, e))
  {
    hide ParseTarget, Parse, PrintTarget, Print;
    PrintedTarget(t, until, Print(e, 0));
    RoundTrip(fs, e);
  }

  lemma {:induction false} NamesWellFormed(ts: seq<Token>, closing: Token)
    ensures var r := ParseNames(ts, closing);
            r.Some? ==> (forall i :: 0 <= i < |r.value.0| ==> Public(r.value.0[i])) && (r.value.0 != [] ==> Peek(ts, 0) == Some(TComma))
    decreases |ts|
  {
    if Peek(ts, 0) == Some(TComma) && Take(ts[1..], closing).None? {
      var n := TakeName(ts[1..]);
      if n.Some? { NamesWellFormed(n.value.1, closing); }
    }
  }

  lemma HeaderWellFormed(fs: set<string>, ts: seq<Token>, until: Token)
    ensures var r := ParseHeader(fs, ts, until); r.Some? ==> WellFormedTarget(r.value.0) && WellFormed(fs, r.value.1)
  {
    hide Parse, ParseNames, WellFormed;
    BareTargetWellFormed(ts, until);
    if |ts| > 0 { BareTargetWellFormed(ts[1..], TRightParen); }
    var t := ParseTarget(ts, until);
    if t.Some? { PrintedFormIsCanonical(fs, t.value.1); }
  }

  lemma BareTargetWellFormed(ts: seq<Token>, closing: Token)
    ensures var r := ParseBareTarget(ts, closing); r.Some? ==> WellFormedTarget(r.value.0)
  {
    hide ParseNames;
    var n := TakeName(ts);
    if n.Some? { NamesWellFormed(n.value.1, closing); }
  }

  // ---------------------------------------------------------------- the parser builds only such programs

  ghost predicate Good(fs: set<string>, nodes: Nodes, depth: nat) { WellFormedNodes(fs, nodes) && Scoped(nodes, depth) }

  ghost predicate GoodNode(fs: set<string>, node: Node, depth: nat) { WellFormedNode(fs, node) && ScopedNode(node, depth) }

  lemma {:induction false} BodyIsGood(fs: set<string>, ts: seq<Block>, depth: nat, stops: Stops)
    ensures var r := ParseBody(fs, ts, depth, stops); r.Some? ==> Good(fs, r.value.0, depth)
    decreases |ts|, 1
  {
    hide ParseStatement, WellFormedNode, ScopedNode;
    if ts != [] && !StopsAt(stops, ts[0]) {
      StatementIsGood(fs, ts[0], ts[1..], depth);
      var s := ParseStatement(fs, ts[0], ts[1..], depth);
      if s.Some? { BodyIsGood(fs, s.value.1, depth, stops); }
    }
  }

  lemma {:induction false} StatementIsGood(fs: set<string>, token: Block, ts: seq<Block>, depth: nat)
    ensures var r := ParseStatement(fs, token, ts, depth); r.Some? && r.value.0.Some? ==> GoodNode(fs, r.value.0.value, depth)
    decreases |ts|, 5
  {
    hide ParseCondition, ParseLoopBlock, ParseHeader, Parse, WellFormed, WellFormedTarget;
    match token
    case ExpressionToken(code) => PrintedFormIsCanonical(fs, code);
    case CommandToken(IfCommand, code) => ConditionIsGood(fs, code, ts, depth);
    case CommandToken(ForCommand, code) => LoopIsGood(fs, code, ts, depth);
    case CommandToken(SetCommand, code) => HeaderWellFormed(fs, code, TAssign);
    case _ =>
  }

  lemma {:induction false} ConditionIsGood(fs: set<string>, code: seq<Token>, ts: seq<Block>, depth: nat)
    ensures var r := ParseCondition(fs, code, ts, depth); r.Some? ==> GoodNode(fs, r.value.0, depth)
    decreases |ts|, 4
  {
    hide ParseBody, ParseBranches, ParseEnd, Parse, WellFormed;
    PrintedFormIsCanonical(fs, code);
    BodyIsGood(fs, ts, depth, AtElifOrElse);
    var body := ParseBody(fs, ts, depth, AtElifOrElse);
    if body.Some? {
      BranchesAreGood(fs, body.value.1, depth, false);
      var r := ParseCondition(fs, code, ts, depth);
      assert r.Some? ==> WellFormedBranches(fs, r.value.0.branches) && ScopedBranches(r.value.0.branches, depth);
    }
  }

  lemma {:induction false} BranchesAreGood(fs: set<string>, ts: seq<Block>, depth: nat, seenElse: bool)
    requires ts == [] || StopsAt(AtElifOrElse, ts[0])
    ensures var r := ParseBranches(fs, ts, depth, seenElse);
            r.Some? ==> WellFormedBranches(fs, r.value.0) && ScopedBranches(r.value.0, depth) && (seenElse ==> r.value.0.NoBranches?)
    decreases |ts|, 3
  {
    hide ParseBody, Parse, WellFormed;
    if ts != [] && !seenElse {
      PrintedFormIsCanonical(fs, ts[0].code);
      BodyIsGood(fs, ts[1..], depth, AtElifOrElse);
      var body := ParseBody(fs, ts[1..], depth, AtElifOrElse);
      if body.Some? { BranchesAreGood(fs, body.value.1, depth, ts[0].command == ElseCommand); }
    }
  }

  lemma {:induction false} LoopIsGood(fs: set<string>, code: seq<Token>, ts: seq<Block>, depth: nat)
    ensures var r := ParseLoopBlock(fs, code, ts, depth); r.Some? ==> GoodNode(fs, r.value.0, depth)
    decreases |ts|, 4
  {
    hide ParseBody, ParseEnd, ParseHeader, ParseOtherwise, WellFormed, WellFormedTarget, WellFormedNodes, Scoped;
    HeaderWellFormed(fs, code, TIn);
    BodyIsGood(fs, ts, depth + 1, AtElse);
    var body := ParseBody(fs, ts, depth + 1, AtElse);
    if body.Some? { OtherwiseIsGood(fs, body.value.1, depth); }
  }

  lemma {:induction false} OtherwiseIsGood(fs: set<string>, ts: seq<Block>, depth: nat)
    requires ts == [] || ts[0].CommandToken?
    ensures var r := ParseOtherwise(fs, ts, depth); r.Some? ==> Good(fs, r.value.0, depth)
    decreases |ts|, 3
  {
    hide ParseBody;
    if ts != [] { BodyIsGood(fs, ts[1..], depth, AtElse); }
  }

  /** Every token sequence the parser accepts gives a well-formed program with every `break` in a loop. */
  lemma AcceptedIsScoped(fs: set<string>, ts: seq<Block>)
    ensures var r := Compile(fs, ts); r.Some? ==> WellFormedNodes(fs, r.value) && Scoped(r.value, 0)
  {
    BodyIsGood(fs, ts, 0, Nowhere);
  }

  // ---------------------------------------------------------------- the round trip

  /** What follows the nodes of a body. */
  predicate EndsBody(rest: seq<Block>, stops: Stops) { rest == [] || StopsAt(stops, rest[0]) }

  lemma BodyTakes(fs: set<string>, ts: seq<Block>, depth: nat, stops: Stops, node: Node, after: seq<Block>, nodes: Nodes, rest: seq<Block>)
    requires ts != [] && !StopsAt(stops, ts[0])
    requires ParseStatement(fs, ts[0], ts[1..], depth) == Some((Some(node), after))
    requires ParseBody(fs, after, depth, stops) == Some((nodes, rest))
    ensures ParseBody(fs, ts, depth, stops) == Some((Then(node, nodes), rest))
  {
    hide ParseStatement;
  }

  lemma {:induction false} PrintedNodes(fs: set<string>, nodes: Nodes, depth: nat, stops: Stops, rest: seq<Block>)
    requires WellFormedNodes(fs, nodes) && Scoped(nodes, depth) && EndsBody(rest, stops)
    ensures ParseBody(fs, PrintNodes(fs, nodes) + rest, depth, stops) == Some((nodes, rest))
    decreases nodes, 0
  {
    hide ParseStatement, PrintNode;
    if nodes.Empty? {
      assert PrintNodes(fs, nodes) + rest == rest;
    } else {
      var first := PrintNode(fs, nodes.head);
      var after := PrintNodes(fs, nodes.tail) + rest;
      var ts := PrintNodes(fs, nodes) + rest;
      assert ts == first + after && ts[0] == first[0] && ts[1..] == first[1..] + after;
      PrintedStatement(fs, nodes.head, depth, after);
      NeverStops(fs, nodes.head, stops);
      PrintedNodes(fs, nodes.tail, depth, stops, rest);
      hide ParseBody;
      BodyTakes(fs, ts, depth, stops, nodes.head, after, nodes.tail, rest);
    }
  }

  lemma NeverStops(fs: set<string>, node: Node, stops: Stops)
    requires WellFormedNode(fs, node)
    ensures !StopsAt(stops, PrintNode(fs, node)[0])
  {
  }

  lemma {:induction false} PrintedStatement(fs: set<string>, node: Node, depth: nat, after: seq<Block>)
    requires WellFormedNode(fs, node) && ScopedNode(node, depth)
    ensures var ts := PrintNode(fs, node); ParseStatement(fs, ts[0], ts[1..] + after, depth) == Some((Some(node), after))
    decreases node, 2
  {
    hide Parse, ParseHeader, ParseCondition, ParseLoopBlock, WellFormed, WellFormedTarget, PrintHeader, PrintNodes, PrintBranches, PrintOtherwise, Print;
    var ts := PrintNode(fs, node);
    assert |ts| == 1 ==> ts[1..] + after == after;
    match node
    case OutputNode(e) => RoundTrip(fs, e);
    case SetNode(t, e) => PrintedHeader(fs, t, e, TAssign);
    case IfNode(branches) => PrintedIf(fs, branches, depth, after);
    case ForNode(t, e, body, otherwise) => PrintedFor(fs, node, depth, after);
    case _ =>
  }

  lemma {:induction false} PrintedIf(fs: set<string>, branches: Branches, depth: nat, after: seq<Block>)
    requires branches.Branch? && branches.condition.Some? && WellFormedBranches(fs, branches) && ScopedBranches(branches, depth)
    ensures var ts := PrintNode(fs, IfNode(branches));
            ParseCondition(fs, Print(branches.condition.value, 0), ts[1..] + after, depth) == Some((IfNode(branches), after))
    decreases branches, 1
  {
    hide Parse, ParseBody, ParseBranches, WellFormed, PrintNodes, PrintBranches, Print;
    var e := branches.condition.value;
    var close := [CommandToken(EndIfCommand, [])] + after;
    var more := PrintBranches(fs, branches.more) + close;
    var ts := PrintNode(fs, IfNode(branches));
    assert ts[1..] + after == PrintNodes(fs, branches.body) + more;
    RoundTrip(fs, e);
    PrintedBranches(fs, branches.more, depth, false, close);
    PrintedNodes(fs, branches.body, depth, AtElifOrElse, more);
    assert close[1..] == after;
  }

  lemma {:induction false} PrintedBranches(fs: set<string>, branches: Branches, depth: nat, seenElse: bool, close: seq<Block>)
    requires WellFormedBranches(fs, branches) && ScopedBranches(branches, depth) && (seenElse ==> branches.NoBranches?)
    requires close != [] && close[0] == CommandToken(EndIfCommand, [])
    ensures var ts := PrintBranches(fs, branches) + close;
            && EndsBody(ts, AtElifOrElse)
            && ParseBranches(fs, ts, depth, seenElse) == Some((branches, close))
    decreases branches, 0
  {
    hide Parse, ParseBody, PrintNodes, Print, WellFormed;
    var ts := PrintBranches(fs, branches) + close;
    if branches.NoBranches? {
      assert ts == close;
    } else {
      var more := PrintBranches(fs, branches.more) + close;
      assert ts[1..] == PrintNodes(fs, branches.body) + more;
      PrintedBranches(fs, branches.more, depth, branches.condition.None?, close);
      PrintedNodes(fs, branches.body, depth, AtElifOrElse, more);
      if branches.condition.Some? { RoundTrip(fs, branches.condition.value); }
    }
  }

  lemma {:induction false} PrintedFor(fs: set<string>, node: Node, depth: nat, after: seq<Block>)
    requires node.ForNode? && WellFormedNode(fs, node) && ScopedNode(node, depth)
    ensures var ts := PrintNode(fs, node);
            ParseLoopBlock(fs, PrintHeader(node.target, node.iterable, TIn), ts[1..] + after, depth) == Some((node, after))
    decreases node, 1
  {
    hide ParseHeader, ParseBody, ParseOtherwise, WellFormed, WellFormedTarget, PrintHeader, PrintNodes, PrintOtherwise;
    var close := [CommandToken(EndForCommand, [])] + after;
    var otherwise := PrintOtherwise(fs, node.otherwise) + close;
    var ts := PrintNode(fs, node);
    assert ts[1..] + after == PrintNodes(fs, node.body) + otherwise;
    PrintedHeader(fs, node.target, node.iterable, TIn);
    PrintedOtherwise(fs, node.otherwise, depth, close);
    PrintedNodes(fs, node.body, depth + 1, AtElse, otherwise);
    assert close[1..] == after;
  }

  lemma {:induction false} PrintedOtherwise(fs: set<string>, otherwise: Nodes, depth: nat, close: seq<Block>)
    requires WellFormedNodes(fs, otherwise) && Scoped(otherwise, depth)
    requires close != [] && close[0] == CommandToken(EndForCommand, [])
    ensures var ts := PrintOtherwise(fs, otherwise) + close;
            && EndsBody(ts, AtElse)
            && ParseOtherwise(fs, ts, depth) == Some((otherwise, close))
    decreases otherwise, 1
  {
    hide ParseBody, PrintNodes;
    var ts := PrintOtherwise(fs, otherwise) + close;
    if otherwise.Empty? {
      assert ts == close;
    } else {
      assert ts[1..] == PrintNodes(fs, otherwise) + close;
      PrintedNodes(fs, otherwise, depth, AtElse, close);
    }
  }

  /** Every well-formed program whose `break`s stand in loops is accepted, from its printed tokens. */
  lemma BlocksRoundTrip(fs: set<string>, nodes: Nodes)
    requires WellFormedNodes(fs, nodes) && Scoped(nodes, 0)
    ensures Compile(fs, PrintNodes(fs, nodes)) == Some(nodes)
  {
    hide ParseBody, PrintNodes;
    PrintedNodes(fs, nodes, 0, Nowhere, []);
    assert PrintNodes(fs, nodes) + [] == PrintNodes(fs, nodes);
  }
}
