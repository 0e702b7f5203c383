/** Comments in a template: wherever they stand, the program is the one without them. */
module TemplateComments {
  import opened Prelude
  import opened Expressions
  import opened Templates

  function WithoutComments(ts: seq<Block>): (r: seq<Block>)
    ensures |r| <= |ts|
  {
    if ts == [] then []
    else (if ts[0].CommentToken? then [] else [ts[0]]) + WithoutComments(ts[1..])
  }

  /** What was read, with the comments left out of what is still to be read. */
  function Cleared<T>(r: Read<T>): (c: Read<T>) {
    if r.None? then None else Some((r.value.0, WithoutComments(r.value.1)))
  }

  lemma ClearStep(ts: seq<Block>)
    requires ts != []
    ensures if ts[0].CommentToken? then WithoutComments(ts) == WithoutComments(ts[1..])
            else WithoutComments(ts) != [] && WithoutComments(ts)[0] == ts[0] && WithoutComments(ts)[1..] == WithoutComments(ts[1..])
  {
  }

  lemma {:induction false} BodyCleared(fs: set<string>, ts: seq<Block>, depth: nat, stops: Stops)
    ensures ParseBody(fs, WithoutComments(ts), depth, stops) == Cleared(ParseBody(fs, ts, depth, stops))
    decreases |ts|, 1
  {
    hide ParseStatement, WithoutComments;
    if ts == [] {
      NothingToClear();
    } else {
      ClearStep(ts);
      StatementCleared(fs, ts[0], ts[1..], depth);
      var s := ParseStatement(fs, ts[0], ts[1..], depth);
      if ts[0].CommentToken? {
        CommentRead(fs, ts[1..], depth);
        BodyCleared(fs, ts[1..], depth, stops);
      } else if !StopsAt(stops, ts[0]) && s.Some? {
        BodyCleared(fs, s.value.1, depth, stops);
      }
    }
  }

  lemma NothingToClear()
    ensures WithoutComments([]) == []
  {
  }

  lemma CommentRead(fs: set<string>, ts: seq<Block>, depth: nat)
    ensures ParseStatement(fs, CommentToken, ts, depth) == Some((None, ts))
  {
  }

  lemma {:induction false} StatementCleared(fs: set<string>, token: Block, ts: seq<Block>, depth: nat)
    ensures ParseStatement(fs, token, WithoutComments(ts), depth) == Cleared(ParseStatement(fs, token, ts, depth))
    decreases |ts|, 5
  {
    hide ParseCondition, ParseLoopBlock, ParseHeader, Parse, WithoutComments;
    if token.CommandToken? {
      if token.command.IfCommand? { ConditionCleared(fs, token.code, ts, depth); }
      if token.command.ForCommand? { LoopCleared(fs, token.code, ts, depth); }
    }
  }

  /** The end of a block is a command, so no comment stands before it. */
  lemma EndCleared(ts: seq<Block>, expected: Command)
    requires ts == [] || ts[0].CommandToken?
    ensures var c := WithoutComments(ts);
            && (c == [] <==> ts == []) && (ts != [] ==> c[0] == ts[0])
            && ParseEnd(c, expected) == if ParseEnd(ts, expected).None? then None else Some(WithoutComments(ParseEnd(ts, expected).value))
  {
    hide WithoutComments;
    if ts == [] { NothingToClear(); } else { ClearStep(ts); }
  }

  lemma {:induction false} ConditionCleared(fs: set<string>, code: seq<Token>, ts: seq<Block>, depth: nat)
    ensures ParseCondition(fs, code, WithoutComments(ts), depth) == Cleared(ParseCondition(fs, code, ts, depth))
    decreases |ts|, 4
  {
    hide ParseBody, ParseBranches, Parse, WithoutComments, ParseEnd;
    BodyCleared(fs, ts, depth, AtElifOrElse);
    var body := ParseBody(fs, ts, depth, AtElifOrElse);
    if body.Some? {
      EndCleared(body.value.1, EndIfCommand);
      BranchesCleared(fs, body.value.1, depth, false);
      var more := ParseBranches(fs, body.value.1, depth, false);
      if more.Some? { EndCleared(more.value.1, EndIfCommand); }
    }
  }

  lemma {:induction false} BranchesCleared(fs: set<string>, ts: seq<Block>, depth: nat, seenElse: bool)
    requires ts == [] || StopsAt(AtElifOrElse, ts[0])
    ensures var c := WithoutComments(ts);
            && (c == [] || StopsAt(AtElifOrElse, c[0]))
            && ParseBranches(fs, c, depth, seenElse) == Cleared(ParseBranches(fs, ts, depth, seenElse))
    decreases |ts|, 3
  {
    hide ParseBody, Parse, WithoutComments;
    if ts == [] {
      NothingToClear();
    } else {
      ClearStep(ts);
      BodyCleared(fs, ts[1..], depth, AtElifOrElse);
      var body := ParseBody(fs, ts[1..], depth, AtElifOrElse);
      if body.Some? {
        EndCleared(body.value.1, EndIfCommand);
        BranchesCleared(fs, body.value.1, depth, ts[0].command == ElseCommand);
      }
    }
  }

  lemma {:induction false} LoopCleared(fs: set<string>, code: seq<Token>, ts: seq<Block>, depth: nat)
    ensures ParseLoopBlock(fs, code, WithoutComments(ts), depth) == Cleared(ParseLoopBlock(fs, code, ts, depth))
    decreases |ts|, 4
  {
    hide ParseBody, ParseOtherwise, ParseHeader, WithoutComments, ParseEnd;
    BodyCleared(fs, ts, depth + 1, AtElse);
    var body := ParseBody(fs, ts, depth + 1, AtElse);
    if body.Some? {
      EndCleared(body.value.1, EndForCommand);
      OtherwiseCleared(fs, body.value.1, depth);
      var otherwise := ParseOtherwise(fs, body.value.1, depth);
      if otherwise.Some? { EndCleared(otherwise.value.1, EndForCommand); }
    }
  }

  lemma {:induction false} OtherwiseCleared(fs: set<string>, ts: seq<Block>, depth: nat)
    requires ts == [] || ts[0].CommandToken?
    ensures var c := WithoutComments(ts);
            && (c == [] || c[0].CommandToken?)
            && ParseOtherwise(fs, c, depth) == Cleared(ParseOtherwise(fs, ts, depth))
    decreases |ts|, 3
  {
    hide ParseBody, WithoutComments;
    if ts == [] {
      NothingToClear();
    } else {
      ClearStep(ts);
      BodyCleared(fs, ts[1..], depth, AtElse);
    }
  }

  /** A template compiles to the program that it has without its comments, and fails exactly when that one fails. */
  lemma CommentsChangeNothing(fs: set<string>, ts: seq<Block>)
    ensures Compile(fs, ts) == Compile(fs, WithoutComments(ts))
  {
    hide ParseBody, WithoutComments;
    BodyCleared(fs, ts, 0, Nowhere);
  }
}
