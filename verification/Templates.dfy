/**
 The block language of `rmote/templates/engine.py`: the tokens of a template, the nodes of a program,
 the block parser as functions on the tokens that are left, and which programs keep `break` and
 `continue` inside their loops.
 */
module Templates {
  import opened Prelude
  import opened Expressions

  // ---------------------------------------------------------------- tokens and nodes

  datatype Command =
    | IfCommand | ForCommand | SetCommand | BreakCommand | ContinueCommand
    | ElifCommand | ElseCommand | EndCommand | EndIfCommand | EndForCommand
    | OtherCommand(name: string)

  datatype Block =
    | TextToken(text: string)
    | ExpressionToken(code: seq<Token>)
    | CommentToken
    | CommandToken(command: Command, code: seq<Token>)

  datatype Target = Target(names: seq<string>, unpack: bool)

  datatype Node =
    | TextNode(text: string)
    | OutputNode(expression: Expr)
    | SetNode(target: Target, expression: Expr)
    | IfNode(branches: Branches)
    | ForNode(target: Target, iterable: Expr, body: Nodes, otherwise: Nodes)
    | BreakNode
    | ContinueNode

  datatype Nodes = Empty | Then(head: Node, tail: Nodes)

  datatype Branches = NoBranches | Branch(condition: Option<Expr>, body: Nodes, more: Branches)

  // ---------------------------------------------------------------- the headers of `for` and `set`

  /** The names of a target after the first, up to and including `closing`. */
  function ParseNames(ts: seq<Token>, closing: Token): (r: Parsed<seq<string>>)
    decreases |ts|
  {
    if Peek(ts, 0) != Some(TComma) then
      var rest := Take(ts, closing);
      if rest.None? then None else Some(([], rest.value))
    else if Take(ts[1..], closing).Some? then Some(([], ts[2..]))
    else
      var n := TakeName(ts[1..]);
      if n.None? then None
      else
        var more := ParseNames(n.value.1, closing);
        if more.None? then None else Some(([n.value.0] + more.value.0, more.value.1))
  }

  /** `target(until)`. */
  function ParseTarget(ts: seq<Token>, until: Token): (r: Parsed<Target>) {
    if Peek(ts, 0) == Some(TLeftParen) then
      var t := ParseBareTarget(ts[1..], TRightParen);
      if t.None? then None
      else
        var rest := Take(t.value.1, until);
        if rest.None? then None else Some((t.value.0, rest.value))
    else ParseBareTarget(ts, until)
  }

  function ParseBareTarget(ts: seq<Token>, closing: Token): (r: Parsed<Target>) {
    var n := TakeName(ts);
    if n.None? then None
    else
      var names := ParseNames(n.value.1, closing);
      if names.None? then None
      else Some((Target([n.value.0] + names.value.0, Peek(n.value.1, 0) == Some(TComma)), names.value.1))
  }

  /** `assignment` with `=`, `for_header` with `in`. */
  function ParseHeader(fs: set<string>, ts: seq<Token>, until: Token): (r: Option<(Target, Expr)>) {
    var t := ParseTarget(ts, until);
    if t.None? then None
    else
      var e := Parse(fs, t.value.1);
      if e.None? then None else Some((t.value.0, e.value))
  }

  // ---------------------------------------------------------------- the block parser

  /** The sets of commands at which `body` stops. */
  datatype Stops = Nowhere | AtElse | AtElifOrElse

  predicate Terminator(c: Command) { c == EndCommand || c == EndIfCommand || c == EndForCommand }

  predicate StopsAt(stops: Stops, token: Block) {
    && token.CommandToken?
    && match stops
       case Nowhere => false
       case AtElse => token.command == ElseCommand || Terminator(token.command)
       case AtElifOrElse => token.command == ElifCommand || token.command == ElseCommand || Terminator(token.command)
  }

  type Read<T> = Option<(T, seq<Block>)>

  /** `body(stops)`: what is left is empty or starts with a command it stops at. */
  function ParseBody(fs: set<string>, ts: seq<Block>, depth: nat, stops: Stops): (r: Read<Nodes>)
    ensures r.Some? ==> |r.value.1| <= |ts| && (r.value.1 == [] || StopsAt(stops, r.value.1[0]))
    decreases |ts|, 1
  {
    if ts == [] || StopsAt(stops, ts[0]) then Some((Empty, ts))
    else
      var s := ParseStatement(fs, ts[0], ts[1..], depth);
      if s.None? then None
      else
        var more := ParseBody(fs, s.value.1, depth, stops);
        if more.None? then None
        else if s.value.0.None? then more
        else Some((Then(s.value.0.value, more.value.0), more.value.1))
  }

  /** `statement`, with `ts` the tokens after `token`; a comment makes no node. */
  function ParseStatement(fs: set<string>, token: Block, ts: seq<Block>, depth: nat): (r: Read<Option<Node>>)
    ensures r.Some? ==> |r.value.1| <= |ts|
    decreases |ts|, 5
  {
    match token
    case TextToken(text) => Some((Some(TextNode(text)), ts))
    case ExpressionToken(code) =>
      var e := Parse(fs, code);
      if e.None? then None else Some((Some(OutputNode(e.value)), ts))
    case CommentToken => Some((None, ts))
    case CommandToken(command, code) =>
      match command
      case IfCommand =>
        var n := ParseCondition(fs, code, ts, depth);
        if n.None? then None else Some((Some(n.value.0), n.value.1))
      case ForCommand =>
        var n := ParseLoopBlock(fs, code, ts, depth);
        if n.None? then None else Some((Some(n.value.0), n.value.1))
      case SetCommand =>
        var h := ParseHeader(fs, code, TAssign);
        if h.None? then None else Some((Some(SetNode(h.value.0, h.value.1)), ts))
      case BreakCommand => if code == [] && depth > 0 then Some((Some(BreakNode), ts)) else None
      case ContinueCommand => if code == [] && depth > 0 then Some((Some(ContinueNode), ts)) else None
      case _ => None
  }

  /** `end(opening, expected)`. */
  function ParseEnd(ts: seq<Block>, expected: Command): (r: Option<seq<Block>>)
    requires ts == [] || ts[0].CommandToken?
    ensures r.Some? ==> |r.value| < |ts|
  {
    if ts == [] || (ts[0].command != EndCommand && ts[0].command != expected) || ts[0].code != [] then None
    else Some(ts[1..])
  }

  /** `condition(opening)`. */
  function ParseCondition(fs: set<string>, code: seq<Token>, ts: seq<Block>, depth: nat): (r: Read<Node>)
    ensures r.Some? ==> |r.value.1| < |ts|
    decreases |ts|, 4
  {
    var e := Parse(fs, code);
    if e.None? then None
    else
      var body := ParseBody(fs, ts, depth, AtElifOrElse);
      if body.None? then None
      else
        var more := ParseBranches(fs, body.value.1, depth, false);
        if more.None? then None
        else
          var rest := ParseEnd(more.value.1, EndIfCommand);
          if rest.None? then None
          else Some((IfNode(Branch(Some(e.value), body.value.0, more.value.0)), rest.value))
  }

  /** The loop of `condition` over the further branches. */
  function ParseBranches(fs: set<string>, ts: seq<Block>, depth: nat, seenElse: bool): (r: Read<Branches>)
    requires ts == [] || StopsAt(AtElifOrElse, ts[0])
    ensures r.Some? ==> |r.value.1| <= |ts| && (r.value.1 == [] || r.value.1[0].CommandToken?)
    decreases |ts|, 3
  {
    if ts == [] || (ts[0].command != ElifCommand && ts[0].command != ElseCommand) then Some((NoBranches, ts))
    else if seenElse then None
    else
      var last := ts[0].command == ElseCommand;
      var e := if last then None else Parse(fs, ts[0].code);
      if (last && ts[0].code != []) || (!last && e.None?) then None
      else
        var body := ParseBody(fs, ts[1..], depth, AtElifOrElse);
        if body.None? then None
        else
          var more := ParseBranches(fs, body.value.1, depth, last);
          if more.None? then None else Some((Branch(e, body.value.0, more.value.0), more.value.1))
  }

  /** `loop(opening)`: the body is one loop deeper, the part after `else` is not. */
  function ParseLoopBlock(fs: set<string>, code: seq<Token>, ts: seq<Block>, depth: nat): (r: Read<Node>)
    ensures r.Some? ==> |r.value.1| < |ts|
    decreases |ts|, 4
  {
    var h := ParseHeader(fs, code, TIn);
    if h.None? then None
    else
      var body := ParseBody(fs, ts, depth + 1, AtElse);
      if body.None? then None
      else
        var otherwise := ParseOtherwise(fs, body.value.1, depth);
        if otherwise.None? then None
        else
          var rest := ParseEnd(otherwise.value.1, EndForCommand);
          if rest.None? then None
          else Some((ForNode(h.value.0, h.value.1, body.value.0, otherwise.value.0), rest.value))
  }

  function ParseOtherwise(fs: set<string>, ts: seq<Block>, depth: nat): (r: Read<Nodes>)
    requires ts == [] || ts[0].CommandToken?
    ensures r.Some? ==> |r.value.1| <= |ts| && (r.value.1 == [] || r.value.1[0].CommandToken?)
    decreases |ts|, 3
  {
    if ts == [] || ts[0].command != ElseCommand then Some((Empty, ts))
    else if ts[0].code != [] then None
    else ParseBody(fs, ts[1..], depth, AtElse)
  }

  /** `Template.compile` after the lexer. */
  function Compile(fs: set<string>, ts: seq<Block>): (r: Option<Nodes>) {
    var body := ParseBody(fs, ts, 0, Nowhere);
    if body.None? then None else Some(body.value.0)
  }

  // ---------------------------------------------------------------- scoping

  /** Every `break` and `continue` stands in the body of a loop, `depth` of which are around the nodes. */
  predicate Scoped(nodes: Nodes, depth: nat) {
    nodes.Empty? || (ScopedNode(nodes.head, depth) && Scoped(nodes.tail, depth))
  }

  predicate ScopedNode(node: Node, depth: nat) {
    match node
    case BreakNode => depth > 0
    case ContinueNode => depth > 0
    case IfNode(branches) => ScopedBranches(branches, depth)
    case ForNode(_, _, body, otherwise) => Scoped(body, depth + 1) && Scoped(otherwise, depth)
    case _ => true
  }

  predicate ScopedBranches(branches: Branches, depth: nat) {
    branches.NoBranches? || (Scoped(branches.body, depth) && ScopedBranches(branches.more, depth))
  }
}
