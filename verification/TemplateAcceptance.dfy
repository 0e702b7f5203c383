/**
 Which templates compile, exactly: one scan over the tokens with a stack of open blocks, as a reader would
 check a template by hand, accepts a template if and only if the block parser does.
 */
module TemplateAcceptance {
  import opened Prelude
  import opened Expressions
  import opened Templates

  /** An open block, and whether its `else` was seen. */
  datatype Open = InIf(otherwise: bool) | InFor(otherwise: bool)

  /** The loops whose body, not `else` part, the scan is in. */
  function Loops(stack: seq<Open>): (n: nat) {
    if stack == [] then 0 else (if stack[0] == InFor(false) then 1 else 0) + Loops(stack[1..])
  }

  /** The stack after a token, with the innermost block first; `None` when the token may not stand here. */
  function After(fs: set<string>, token: Block, stack: seq<Open>): (r: Option<seq<Open>>) {
    match token
    case TextToken(_) => Some(stack)
    case CommentToken => Some(stack)
    case ExpressionToken(code) => if Parse(fs, code).Some? then Some(stack) else None
    case CommandToken(command, code) =>
      match command
      case IfCommand => if Parse(fs, code).Some? then Some([InIf(false)] + stack) else None
      case ForCommand => if ParseHeader(fs, code, TIn).Some? then Some([InFor(false)] + stack) else None
      case SetCommand => if ParseHeader(fs, code, TAssign).Some? then Some(stack) else None
      case BreakCommand => if code == [] && Loops(stack) > 0 then Some(stack) else None
      case ContinueCommand => if code == [] && Loops(stack) > 0 then Some(stack) else None
      case ElifCommand => if stack != [] && stack[0] == InIf(false) && Parse(fs, code).Some? then Some(stack) else None
      case ElseCommand =>
        if stack == [] || stack[0].otherwise || code != [] then None
        else Some([stack[0].(otherwise := true)] + stack[1..])
      case EndCommand => if stack != [] && code == [] then Some(stack[1..]) else None
      case EndIfCommand => if stack != [] && stack[0].InIf? && code == [] then Some(stack[1..]) else None
      case EndForCommand => if stack != [] && stack[0].InFor? && code == [] then Some(stack[1..]) else None
      case OtherCommand(_) => None
  }

  /** Every token may stand where it stands, and at the end no block is open. */
  predicate Scan(fs: set<string>, ts: seq<Block>, stack: seq<Open>) {
    if ts == [] then stack == []
    else
      var next := After(fs, ts[0], stack);
      next.Some? && Scan(fs, ts[1..], next.value)
  }

  /** The commands at which a body inside the innermost block stops. */
  function StopsIn(stack: seq<Open>): (stops: Stops) {
    if stack == [] then Nowhere else if stack[0].InIf? then AtElifOrElse else AtElse
  }

  lemma {:induction false} BodyScanned(fs: set<string>, ts: seq<Block>, stack: seq<Open>)
    ensures var r := ParseBody(fs, ts, Loops(stack), StopsIn(stack)); Scan(fs, ts, stack) <==> r.Some? && Scan(fs, r.value.1, stack)
    decreases |ts|, 1
  {
    hide ParseStatement, After, Loops;
    if ts != [] && !StopsAt(StopsIn(stack), ts[0]) {
      StatementScanned(fs, ts[0], ts[1..], stack);
      var s := ParseStatement(fs, ts[0], ts[1..], Loops(stack));
      if s.Some? { BodyScanned(fs, s.value.1, stack); }
    }
  }

  /** A statement reads its tokens, and the scan is then where it was. */
  lemma {:induction false} StatementScanned(fs: set<string>, token: Block, ts: seq<Block>, stack: seq<Open>)
    requires !StopsAt(StopsIn(stack), token)
    ensures var r := ParseStatement(fs, token, ts, Loops(stack));
            Scan(fs, [token] + ts, stack) <==> r.Some? && Scan(fs, r.value.1, stack)
    decreases |ts|, 5
  {
    hide ParseCondition, ParseLoopBlock, ParseHeader, Parse, Loops, Scan;
    ScanFirst(fs, token, ts, stack);
    if token.CommandToken? {
      if token.command.IfCommand? { ConditionScanned(fs, token.code, ts, stack); }
      if token.command.ForCommand? { LoopScanned(fs, token.code, ts, stack); }
    }
  }

  lemma ScanFirst(fs: set<string>, token: Block, ts: seq<Block>, stack: seq<Open>)
    ensures Scan(fs, [token] + ts, stack) <==> After(fs, token, stack).Some? && Scan(fs, ts, After(fs, token, stack).value)
  {
    hide After;
    assert ([token] + ts)[1..] == ts;
  }

  lemma {:induction false} ConditionScanned(fs: set<string>, code: seq<Token>, ts: seq<Block>, stack: seq<Open>)
    ensures var r := ParseCondition(fs, code, ts, Loops(stack));
            r.Some? && Scan(fs, r.value.1, stack) <==> Parse(fs, code).Some? && Scan(fs, ts, [InIf(false)] + stack)
    decreases |ts|, 4
  {
    hide ParseBody, ParseBranches, ParseEnd, Parse, Scan;
    var inner := [InIf(false)] + stack;
    LoopsInIf(stack, false);
    BodyScanned(fs, ts, inner);
    var body := ParseBody(fs, ts, Loops(stack), AtElifOrElse);
    if body.Some? {
      BranchesScanned(fs, body.value.1, stack, false);
    }
  }

  lemma LoopsInIf(stack: seq<Open>, otherwise: bool)
    ensures var inner := [InIf(otherwise)] + stack; Loops(inner) == Loops(stack) && StopsIn(inner) == AtElifOrElse
  {
    assert ([InIf(otherwise)] + stack)[1..] == stack;
  }

  lemma LoopsInFor(stack: seq<Open>, otherwise: bool)
    ensures var inner := [InFor(otherwise)] + stack;
            Loops(inner) == Loops(stack) + (if otherwise then 0 else 1) && StopsIn(inner) == AtElse
  {
    assert ([InFor(otherwise)] + stack)[1..] == stack;
  }

  /** The end of a conditional, after its last branch. */
  lemma IfEnds(fs: set<string>, ts: seq<Block>, stack: seq<Open>, otherwise: bool)
    requires ts == [] || (ts[0].CommandToken? && Terminator(ts[0].command))
    ensures var rest := ParseEnd(ts, EndIfCommand);
            Scan(fs, ts, [InIf(otherwise)] + stack) <==> rest.Some? && Scan(fs, rest.value, stack)
  {
    assert ([InIf(otherwise)] + stack)[1..] == stack;
  }

  lemma ForEnds(fs: set<string>, ts: seq<Block>, stack: seq<Open>, otherwise: bool)
    requires ts == [] || (ts[0].CommandToken? && (Terminator(ts[0].command) || (otherwise && ts[0].command == ElseCommand)))
    ensures var rest := ParseEnd(ts, EndForCommand);
            Scan(fs, ts, [InFor(otherwise)] + stack) <==> rest.Some? && Scan(fs, rest.value, stack)
  {
    assert ([InFor(otherwise)] + stack)[1..] == stack;
  }

  lemma {:induction false} BranchesScanned(fs: set<string>, ts: seq<Block>, stack: seq<Open>, seenElse: bool)
    requires ts == [] || StopsAt(AtElifOrElse, ts[0])
    ensures var r := ParseBranches(fs, ts, Loops(stack), seenElse);
            Scan(fs, ts, [InIf(seenElse)] + stack) <==>
            r.Some? && ParseEnd(r.value.1, EndIfCommand).Some? && Scan(fs, ParseEnd(r.value.1, EndIfCommand).value, stack)
    decreases |ts|, 3
  {
    hide ParseBody, ParseEnd, Parse, Scan, Loops;
    if ts == [] || (ts[0].command != ElifCommand && ts[0].command != ElseCommand) {
      IfEnds(fs, ts, stack, seenElse);
    } else {
      var last := ts[0].command == ElseCommand;
      BranchStarts(fs, ts, stack, seenElse);
      LoopsInIf(stack, last);
      BodyScanned(fs, ts[1..], [InIf(last)] + stack);
      var body := ParseBody(fs, ts[1..], Loops(stack), AtElifOrElse);
      if body.Some? { BranchesScanned(fs, body.value.1, stack, last); }
    }
  }

  lemma BranchStarts(fs: set<string>, ts: seq<Block>, stack: seq<Open>, seenElse: bool)
    requires ts != [] && ts[0].CommandToken? && (ts[0].command == ElifCommand || ts[0].command == ElseCommand)
    ensures var last := ts[0].command == ElseCommand;
            Scan(fs, ts, [InIf(seenElse)] + stack) <==>
            !seenElse && (if last then ts[0].code == [] else Parse(fs, ts[0].code).Some?) && Scan(fs, ts[1..], [InIf(last)] + stack)
  {
    hide Parse;
    assert ([InIf(seenElse)] + stack)[1..] == stack;
  }

  lemma {:induction false} LoopScanned(fs: set<string>, code: seq<Token>, ts: seq<Block>, stack: seq<Open>)
    ensures var r := ParseLoopBlock(fs, code, ts, Loops(stack));
            r.Some? && Scan(fs, r.value.1, stack) <==> ParseHeader(fs, code, TIn).Some? && Scan(fs, ts, [InFor(false)] + stack)
    decreases |ts|, 4
  {
    hide ParseBody, ParseOtherwise, ParseEnd, ParseHeader, Scan, Loops;
    LoopsInFor(stack, false);
    BodyScanned(fs, ts, [InFor(false)] + stack);
    var body := ParseBody(fs, ts, Loops(stack) + 1, AtElse);
    if body.Some? { OtherwiseScanned(fs, body.value.1, stack); }
  }

  lemma {:induction false} OtherwiseScanned(fs: set<string>, ts: seq<Block>, stack: seq<Open>)
    requires ts == [] || StopsAt(AtElse, ts[0])
    ensures var r := ParseOtherwise(fs, ts, Loops(stack));
            Scan(fs, ts, [InFor(false)] + stack) <==>
            r.Some? && ParseEnd(r.value.1, EndForCommand).Some? && Scan(fs, ParseEnd(r.value.1, EndForCommand).value, stack)
    decreases |ts|, 3
  {
    hide ParseBody, ParseEnd, Scan, Loops;
    if ts == [] || ts[0].command != ElseCommand {
      ForEnds(fs, ts, stack, false);
    } else {
      OtherwiseStarts(fs, ts, stack);
      LoopsInFor(stack, true);
      BodyScanned(fs, ts[1..], [InFor(true)] + stack);
      var body := ParseBody(fs, ts[1..], Loops(stack), AtElse);
      if body.Some? { ForEnds(fs, body.value.1, stack, true); }
    }
  }

  lemma OtherwiseStarts(fs: set<string>, ts: seq<Block>, stack: seq<Open>)
    requires ts != [] && ts[0].CommandToken? && ts[0].command == ElseCommand
    ensures Scan(fs, ts, [InFor(false)] + stack) <==> ts[0].code == [] && Scan(fs, ts[1..], [InFor(true)] + stack)
  {
    assert ([InFor(false)] + stack)[1..] == stack;
  }

  /**
   A template compiles if and only if the scan accepts it: every expression and header parses, blocks are
   closed in order by an end of their kind, `elif` and `else` stand in a block that may still have them,
   `break` and `continue` stand in the body of a loop, and every command is known.
   */
  lemma CompilesExactlyWhen(fs: set<string>, ts: seq<Block>)
    ensures Compile(fs, ts).Some? <==> Scan(fs, ts, [])
  {
    hide ParseBody, After;
    BodyScanned(fs, ts, []);
    assert Loops([]) == 0;
    var body := ParseBody(fs, ts, 0, Nowhere);
    if body.Some? { assert body.value.1 == []; }
  }
}
