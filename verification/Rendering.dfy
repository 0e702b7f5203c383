/**
 Rendering in `rmote/templates/engine.py`: the nodes run in order against the values and the output,
 `break` and `continue` travel as exceptions until a loop catches them.
 */
module Rendering {
  import opened Prelude
  import opened Expressions
  import opened Templates
  import opened TemplateRoundTrip

  // ---------------------------------------------------------------- meaning

  /**
   What the rest of the engine does with values. `evaluate` reads the values and may take names from
   the set of unchecked ones; `None` is an exception, and so it is of `items`, which iterates a value.
   */
  datatype Semantics<!V> = Semantics(
    evaluate: (Expr, map<string, V>, set<string>) -> (Option<V>, set<string>),
    truth: V -> bool,
    items: V -> Option<seq<V>>,
    text: V -> string)

  datatype Context<V> = Context(values: map<string, V>, unchecked: set<string>, output: seq<string>)

  /** How a node ends: `Break` and `Continue` are the internal signals, `Error` any other exception. */
  datatype Outcome = Normal | Break | Continue | Error

  function Updated<V>(values: map<string, V>, names: seq<string>, items: seq<V>): (r: map<string, V>)
    requires |names| == |items|
    decreases |names|
  {
    if names == [] then values else Updated(values[names[0] := items[0]], names[1..], items[1..])
  }

  /** `AssignmentTarget.assign`. */
  function Assign<V>(sem: Semantics<V>, target: Target, value: V, values: map<string, V>): (r: Option<map<string, V>>) {
    if !target.unpack then if target.names == [] then None else Some(values[target.names[0] := value])
    else
      var items := sem.items(value);
      if items.None? || |items.value| != |target.names| then None else Some(Updated(values, target.names, items.value))
  }

  function Evaluate<V>(sem: Semantics<V>, e: Expr, c: Context<V>): (r: (Option<V>, Context<V>))
    ensures r.1.output == c.output
  {
    var (v, unchecked) := sem.evaluate(e, c.values, c.unchecked);
    (v, c.(unchecked := unchecked))
  }

  /** `RenderContext.invoke`. */
  function Run<V>(sem: Semantics<V>, nodes: Nodes, c: Context<V>): (r: (Outcome, Context<V>))
    decreases nodes, 0, 0
  {
    if nodes.Empty? then (Normal, c)
    else
      var (o, d) := RunNode(sem, nodes.head, c);
      if o != Normal then (o, d) else Run(sem, nodes.tail, d)
  }

  function RunNode<V>(sem: Semantics<V>, node: Node, c: Context<V>): (r: (Outcome, Context<V>))
    decreases node, 1, 0
  {
    match node
    case TextNode(text) => (Normal, c.(output := c.output + [text]))
    case OutputNode(e) =>
      var (v, d) := Evaluate(sem, e, c);
      if v.None? then (Error, d) else (Normal, d.(output := d.output + [sem.text(v.value)]))
    case SetNode(target, e) =>
      var (v, d) := Evaluate(sem, e, c);
      if v.None? then (Error, d) else RunAssign(sem, target, v.value, d)
    case IfNode(branches) => RunBranches(sem, branches, c)
    case ForNode(_, e, _, _) =>
      var (v, d) := Evaluate(sem, e, c);
      var items := if v.None? then None else sem.items(v.value);
      if items.None? then (Error, d) else RunLoop(sem, node, items.value, d)
    case BreakNode => (Break, c)
    case ContinueNode => (Continue, c)
  }

  function RunAssign<V>(sem: Semantics<V>, target: Target, value: V, c: Context<V>): (r: (Outcome, Context<V>))
    ensures r.0 == Normal || (r.0 == Error && r.1 == c)
    ensures r.1.output == c.output
  {
    var values := Assign(sem, target, value, c.values);
    if values.None? then (Error, c) else (Normal, c.(values := values.value))
  }

  function RunBranches<V>(sem: Semantics<V>, branches: Branches, c: Context<V>): (r: (Outcome, Context<V>))
    decreases branches, 0, 0
  {
    if branches.NoBranches? then (Normal, c)
    else if branches.condition.None? then Run(sem, branches.body, c)
    else
      var (v, d) := Evaluate(sem, branches.condition.value, c);
      if v.None? then (Error, d)
      else if sem.truth(v.value) then Run(sem, branches.body, d)
      else RunBranches(sem, branches.more, d)
  }

  /** One iteration: the assignment and the body. */
  function RunIteration<V>(sem: Semantics<V>, node: Node, item: V, c: Context<V>): (r: (Outcome, Context<V>))
    requires node.ForNode?
    decreases node, 0, 0
  {
    var (o, d) := RunAssign(sem, node.target, item, c);
    if o != Normal then (o, d) else Run(sem, node.body, d)
  }

  /** The `for` statement of `ForNode.invoke` over the remaining items. */
  function RunLoop<V>(sem: Semantics<V>, node: Node, items: seq<V>, c: Context<V>): (r: (Outcome, Context<V>))
    requires node.ForNode?
    decreases node, 0, |items| + 1
  {
    if items == [] then Run(sem, node.otherwise, c)
    else
      var (o, d) := RunIteration(sem, node, items[0], c);
      match o
      case Break => (Normal, d)
      case Error => (Error, d)
      case _ => RunLoop(sem, node, items[1..], d)
  }

  // ---------------------------------------------------------------- no signal escapes

  predicate Escapes(o: Outcome) { o == Break || o == Continue }

  lemma {:induction false} RunKeepsScope<V>(sem: Semantics<V>, nodes: Nodes, depth: nat, c: Context<V>)
    requires Scoped(nodes, depth)
    ensures Escapes(Run(sem, nodes, c).0) ==> depth > 0
    decreases nodes, 0, 0
  {
    if nodes.Then? {
      NodeKeepsScope(sem, nodes.head, depth, c);
      var (o, d) := RunNode(sem, nodes.head, c);
      if o == Normal { RunKeepsScope(sem, nodes.tail, depth, d); }
    }
  }

  lemma {:induction false} NodeKeepsScope<V>(sem: Semantics<V>, node: Node, depth: nat, c: Context<V>)
    requires ScopedNode(node, depth)
    ensures Escapes(RunNode(sem, node, c).0) ==> depth > 0
    decreases node, 1, 0
  {
    hide RunLoop, RunBranches, RunAssign;
    match node
    case IfNode(branches) => BranchesKeepScope(sem, branches, depth, c);
    case ForNode(_, e, _, _) =>
      var (v, d) := Evaluate(sem, e, c);
      if v.Some? && sem.items(v.value).Some? { LoopKeepsScope(sem, node, depth, sem.items(v.value).value, d); }
    case _ =>
  }

  lemma {:induction false} BranchesKeepScope<V>(sem: Semantics<V>, branches: Branches, depth: nat, c: Context<V>)
    requires ScopedBranches(branches, depth)
    ensures Escapes(RunBranches(sem, branches, c).0) ==> depth > 0
    decreases branches, 0, 0
  {
    if branches.Branch? {
      if branches.condition.None? {
        RunKeepsScope(sem, branches.body, depth, c);
      } else {
        var d := Evaluate(sem, branches.condition.value, c).1;
        RunKeepsScope(sem, branches.body, depth, d);
        BranchesKeepScope(sem, branches.more, depth, d);
      }
    }
  }

  /** The loop catches the signals of its body; those of its `else` part are for the loop around it. */
  lemma {:induction false} LoopKeepsScope<V>(sem: Semantics<V>, node: Node, depth: nat, items: seq<V>, c: Context<V>)
    requires node.ForNode? && ScopedNode(node, depth)
    ensures Escapes(RunLoop(sem, node, items, c).0) ==> depth > 0
    decreases node, 0, |items| + 1
  {
    hide RunIteration;
    if items == [] {
      RunKeepsScope(sem, node.otherwise, depth, c);
    } else {
      var d := RunIteration(sem, node, items[0], c).1;
      LoopKeepsScope(sem, node, depth, items[1..], d);
    }
  }

  /** Whatever tokens compile, rendering ends normally or with an ordinary error, for all values. */
  lemma CompiledNeverEscapes<V>(fs: set<string>, tokens: seq<Block>, sem: Semantics<V>, c: Context<V>)
    ensures var program := Compile(fs, tokens); program.Some? ==> !Escapes(Run(sem, program.value, c).0)
  {
    AcceptedIsScoped(fs, tokens);
    var program := Compile(fs, tokens);
    if program.Some? { RunKeepsScope(sem, program.value, 0, c); }
  }

  // ---------------------------------------------------------------- the `else` of a loop

  /** The context after `k` iterations, if none of them broke out or failed. */
  function Iterated<V>(sem: Semantics<V>, node: Node, items: seq<V>, c: Context<V>, k: nat): (r: Option<Context<V>>)
    requires node.ForNode? && k <= |items|
    decreases k
  {
    if k == 0 then Some(c)
    else
      var before := Iterated(sem, node, items, c, k - 1);
      if before.None? then None
      else
        var (o, d) := RunIteration(sem, node, items[k - 1], before.value);
        if o == Break || o == Error then None else Some(d)
  }

  lemma {:induction false} IteratedShift<V>(sem: Semantics<V>, node: Node, items: seq<V>, c: Context<V>, k: nat)
    requires node.ForNode? && k < |items|
    ensures var (o, d) := RunIteration(sem, node, items[0], c);
            Iterated(sem, node, items, c, k + 1) == if o == Break || o == Error then None else Iterated(sem, node, items[1..], d, k)
    decreases k
  {
    hide RunIteration;
    if k > 0 { IteratedShift(sem, node, items, c, k - 1); }
    else { assert Iterated(sem, node, items, c, 0) == Some(c); }
  }

  /**
   A loop runs its `else` part exactly when every item was iterated without a `break`; otherwise it
   stops at the first item whose iteration breaks (and ends normally) or fails.
   */
  lemma {:induction false} LoopMeaning<V>(sem: Semantics<V>, node: Node, items: seq<V>, c: Context<V>) returns (k: nat)
    requires node.ForNode?
    ensures k <= |items| && Iterated(sem, node, items, c, k).Some?
    ensures k < |items| ==> Iterated(sem, node, items, c, k + 1).None?
    ensures var d := Iterated(sem, node, items, c, k).value;
            RunLoop(sem, node, items, c) ==
            if k == |items| then Run(sem, node.otherwise, d)
            else
              var (o, e) := RunIteration(sem, node, items[k], d);
              (if o == Break then Normal else Error, e)
    decreases |items|
  {
    hide RunIteration;
    k := 0;
    if items != [] {
      var (o, d) := RunIteration(sem, node, items[0], c);
      assert Iterated(sem, node, items, c, 0) == Some(c);
      if o == Break || o == Error {
        assert Iterated(sem, node, items, c, 1).None?;
      } else {
        var j := LoopMeaning(sem, node, items[1..], d);
        k := j + 1;
        IteratedShift(sem, node, items, c, j);
        if j < |items[1..]| { IteratedShift(sem, node, items, c, j + 1); }
      }
    }
  }

  // ---------------------------------------------------------------- which branch runs

  function Count(branches: Branches): (n: nat) { if branches.NoBranches? then 0 else 1 + Count(branches.more) }

  function ConditionAt(branches: Branches, k: nat): (e: Option<Expr>)
    requires k < Count(branches)
  {
    if k == 0 then branches.condition else ConditionAt(branches.more, k - 1)
  }

  function BodyAt(branches: Branches, k: nat): (body: Nodes)
    requires k < Count(branches)
  {
    if k == 0 then branches.body else BodyAt(branches.more, k - 1)
  }

  /** The context after the first `k` conditions, if each of them was there and gave a value that is not true. */
  function Passed<V>(sem: Semantics<V>, branches: Branches, c: Context<V>, k: nat): (r: Option<Context<V>>)
    requires k <= Count(branches)
    decreases k
  {
    if k == 0 then Some(c)
    else
      var before := Passed(sem, branches, c, k - 1);
      if before.None? || ConditionAt(branches, k - 1).None? then None
      else
        var (v, d) := Evaluate(sem, ConditionAt(branches, k - 1).value, before.value);
        if v.None? || sem.truth(v.value) then None else Some(d)
  }

  /** How branch `k` ends a conditional, when those before it were passed over: its condition decides, or is absent. */
  ghost predicate Chosen<V>(sem: Semantics<V>, branches: Branches, k: nat, d: Context<V>, r: (Outcome, Context<V>))
    requires k < Count(branches)
  {
    var condition := ConditionAt(branches, k);
    if condition.None? then r == Run(sem, BodyAt(branches, k), d)
    else
      var (v, e) := Evaluate(sem, condition.value, d);
      if v.None? then r == (Error, e) else sem.truth(v.value) && r == Run(sem, BodyAt(branches, k), e)
  }

  lemma {:induction false} PassedShift<V>(sem: Semantics<V>, branches: Branches, c: Context<V>, k: nat)
    requires k < Count(branches) && branches.condition.Some?
    ensures var (v, d) := Evaluate(sem, branches.condition.value, c);
            Passed(sem, branches, c, k + 1) == if v.None? || sem.truth(v.value) then None else Passed(sem, branches.more, d, k)
    decreases k
  {
    hide Evaluate;
    if k > 0 {
      PassedShift(sem, branches, c, k - 1);
    } else {
      assert Passed(sem, branches, c, 0) == Some(c);
    }
  }

  /**
   A conditional runs the first branch whose condition is absent or true, after the conditions before it
   were evaluated in order and none of them was true; it fails at the first condition that fails; without
   such a branch nothing is written.
   */
  lemma {:induction false} BranchesMeaning<V>(sem: Semantics<V>, branches: Branches, c: Context<V>) returns (k: nat)
    ensures k <= Count(branches) && Passed(sem, branches, c, k).Some?
    ensures var d := Passed(sem, branches, c, k).value;
            d.output == c.output && d.values == c.values &&
            if k < Count(branches) then Chosen(sem, branches, k, d, RunBranches(sem, branches, c))
            else RunBranches(sem, branches, c) == (Normal, d)
    ensures RunNode(sem, IfNode(branches), c) == RunBranches(sem, branches, c)
    decreases branches
  {
    hide Run;
    k := 0;
    if branches.Branch? && branches.condition.Some? {
      var (v, d) := Evaluate(sem, branches.condition.value, c);
      if v.Some? && !sem.truth(v.value) {
        var j := BranchesMeaning(sem, branches.more, d);
        k := j + 1;
        PassedShift(sem, branches, c, j);
      }
    }
  }

  // ---------------------------------------------------------------- what the simple nodes do

  /** `values` with some names set: each holds its last item, and every other name is as it was. */
  lemma {:induction false} UpdatedMeans<V>(values: map<string, V>, names: seq<string>, items: seq<V>)
    requires |names| == |items|
    ensures var r := Updated(values, names, items);
            && (forall i | 0 <= i < |names| && names[i] !in names[i + 1..] :: names[i] in r && r[names[i]] == items[i])
            && (forall name | name !in names :: (name in r <==> name in values) && (name in values ==> r[name] == values[name]))
    decreases |names|
  {
    if names != [] {
      var first := values[names[0] := items[0]];
      UpdatedMeans(first, names[1..], items[1..]);
      var r := Updated(values, names, items);
      forall i | 0 <= i < |names| && names[i] !in names[i + 1..] ensures names[i] in r && r[names[i]] == items[i] {
        if i > 0 { assert names[1..][i - 1] == names[i] && names[1..][i..] == names[i + 1..]; }
      }
      assert forall name | name in names[1..] :: name in names;
    }
  }

  /**
   An assignment sets one name to the value, or each of several names to its item when there are as many
   items as names, and changes no other name; otherwise it fails and changes nothing.
   */
  lemma AssignMeans<V>(sem: Semantics<V>, target: Target, value: V, c: Context<V>)
    ensures var (o, d) := RunAssign(sem, target, value, c);
            var fits := if target.unpack then sem.items(value).Some? && |sem.items(value).value| == |target.names| else target.names != [];
            && d == c.(values := d.values) && (o == Normal <==> fits) && (o != Normal ==> o == Error && d == c)
            && (fits && !target.unpack ==> target.names[0] in d.values && d.values[target.names[0]] == value)
            && (fits && target.unpack ==>
                  forall i | 0 <= i < |target.names| && target.names[i] !in target.names[i + 1..] ::
                    target.names[i] in d.values && d.values[target.names[i]] == sem.items(value).value[i])
            && (forall name | name !in target.names :: (name in d.values <==> name in c.values) && (name in c.values ==> d.values[name] == c.values[name]))
  {
    hide Updated;
    if target.unpack && sem.items(value).Some? && |sem.items(value).value| == |target.names| {
      UpdatedMeans(c.values, target.names, sem.items(value).value);
    }
  }

  /** The names a loop or a `set` may assign are all that a node without branches changes; text and output are appended once. */
  lemma SimpleNodeMeans<V>(sem: Semantics<V>, node: Node, c: Context<V>)
    requires node.TextNode? || node.OutputNode? || node.SetNode?
    ensures var (o, d) := RunNode(sem, node, c);
            match node
            case TextNode(text) => o == Normal && d.output == c.output + [text] && d.values == c.values && d.unchecked == c.unchecked
            case OutputNode(e) =>
              var v := sem.evaluate(e, c.values, c.unchecked).0;
              && (o == Normal <==> v.Some?) && d.values == c.values && (o != Normal ==> o == Error)
              && d.output == c.output + (if v.Some? then [sem.text(v.value)] else [])
              && d.unchecked == sem.evaluate(e, c.values, c.unchecked).1
            case SetNode(target, e) =>
              var v := sem.evaluate(e, c.values, c.unchecked).0;
              && d.output == c.output && (o == Normal || o == Error)
              && d.unchecked == sem.evaluate(e, c.values, c.unchecked).1
              && (o == Normal && !target.unpack ==> v.Some? && d.values == c.values[target.names[0] := v.value])
              && (o == Error ==> d.values == c.values)
            case _ => true
  {
  }

  // ---------------------------------------------------------------- whole programs

  function Append(a: Nodes, b: Nodes): (r: Nodes) { if a.Empty? then b else Then(a.head, Append(a.tail, b)) }

  /** A program in two parts runs the second exactly when the first ends normally, in the context that it left. */
  lemma {:induction false} RunAppend<V>(sem: Semantics<V>, a: Nodes, b: Nodes, c: Context<V>)
    ensures var (o, d) := Run(sem, a, c); Run(sem, Append(a, b), c) == if o == Normal then Run(sem, b, d) else (o, d)
    decreases a
  {
    hide RunNode;
    if a.Then? {
      var (o, d) := RunNode(sem, a.head, c);
      if o == Normal { RunAppend(sem, a.tail, b, d); }
    }
  }

  /**
   `break` and `continue` after nodes that ended normally: neither runs what follows them in the body;
   `break` ends the loop without its `else` part, `continue` goes on with the next item.
   */
  lemma SignalsInLoop<V>(sem: Semantics<V>, node: Node, a: Nodes, signal: Node, b: Nodes, items: seq<V>, c: Context<V>)
    requires node.ForNode? && items != [] && (signal.BreakNode? || signal.ContinueNode?)
    requires node.body == Append(a, Then(signal, b)) && RunAssign(sem, node.target, items[0], c).0 == Normal
    requires Run(sem, a, RunAssign(sem, node.target, items[0], c).1).0 == Normal
    ensures var d := Run(sem, a, RunAssign(sem, node.target, items[0], c).1).1;
            RunLoop(sem, node, items, c) == if signal.BreakNode? then (Normal, d) else RunLoop(sem, node, items[1..], d)
  {
    hide RunAssign, Run, RunIteration;
    var first := RunAssign(sem, node.target, items[0], c).1;
    RunAppend(sem, a, Then(signal, b), first);
    SignalEnds(sem, signal, b, Run(sem, a, first).1);
    OneIteration(sem, node, items[0], c);
  }

  lemma SignalEnds<V>(sem: Semantics<V>, signal: Node, b: Nodes, d: Context<V>)
    requires signal.BreakNode? || signal.ContinueNode?
    ensures Run(sem, Then(signal, b), d) == (if signal.BreakNode? then Break else Continue, d)
  {
    assert RunNode(sem, signal, d) == (if signal.BreakNode? then Break else Continue, d);
  }

  lemma OneIteration<V>(sem: Semantics<V>, node: Node, item: V, c: Context<V>)
    requires node.ForNode? && RunAssign(sem, node.target, item, c).0 == Normal
    ensures RunIteration(sem, node, item, c) == Run(sem, node.body, RunAssign(sem, node.target, item, c).1)
  {
    hide RunAssign, Run;
  }

  /** Evaluating a variable gives its value. */
  ghost predicate ReadsVariables<V(!new)>(sem: Semantics<V>) {
    forall name, values: map<string, V>, unchecked :: name in values ==> sem.evaluate(Variable(name), values, unchecked).0 == Some(values[name])
  }

  function Texts<V>(sem: Semantics<V>, items: seq<V>): (r: seq<string>) {
    if items == [] then [] else [sem.text(items[0])] + Texts(sem, items[1..])
  }

  /** A loop that writes its variable writes every item once, in order, and then runs its `else` part. */
  lemma {:induction false} LoopWritesItems<V(!new)>(sem: Semantics<V>, node: Node, name: string, items: seq<V>, c: Context<V>) returns (d: Context<V>)
    requires ReadsVariables(sem) && node.ForNode? && node.target == Target([name], false)
    requires node.body == Then(OutputNode(Variable(name)), Empty)
    ensures d.output == c.output + Texts(sem, items) && RunLoop(sem, node, items, c) == Run(sem, node.otherwise, d)
    ensures if items == [] then d == c else name in d.values && d.values[name] == items[|items| - 1]
    decreases |items|
  {
    hide Run;
    if items == [] {
      d := c;
      assert c.output + [] == c.output;
    } else {
      var (o, next) := RunIteration(sem, node, items[0], c);
      WritesOne(sem, node, name, items[0], c);
      d := LoopWritesItems(sem, node, name, items[1..], next);
      assert c.output + Texts(sem, items) == c.output + [sem.text(items[0])] + Texts(sem, items[1..]);
    }
  }

  /** The same for the whole statement: its expression is evaluated once, and fails without output or gives the items. */
  lemma ForWritesItems<V(!new)>(sem: Semantics<V>, name: string, e: Expr, otherwise: Nodes, c: Context<V>) returns (d: Context<V>)
    requires ReadsVariables(sem)
    ensures var node := ForNode(Target([name], false), e, Then(OutputNode(Variable(name)), Empty), otherwise);
            var (v, unchecked) := sem.evaluate(e, c.values, c.unchecked);
            if v.Some? && sem.items(v.value).Some?
            then d.output == c.output + Texts(sem, sem.items(v.value).value) && RunNode(sem, node, c) == Run(sem, otherwise, d)
            else RunNode(sem, node, c) == (Error, d) && d == c.(unchecked := unchecked)
  {
    hide Run, RunLoop;
    var node := ForNode(Target([name], false), e, Then(OutputNode(Variable(name)), Empty), otherwise);
    var (v, unchecked) := sem.evaluate(e, c.values, c.unchecked);
    d := c.(unchecked := unchecked);
    if v.Some? && sem.items(v.value).Some? { d := LoopWritesItems(sem, node, name, sem.items(v.value).value, d); }
  }

  lemma WritesOne<V(!new)>(sem: Semantics<V>, node: Node, name: string, item: V, c: Context<V>)
    requires ReadsVariables(sem) && node.ForNode? && node.target == Target([name], false)
    requires node.body == Then(OutputNode(Variable(name)), Empty)
    ensures var (o, d) := RunIteration(sem, node, item, c);
            o == Normal && d.output == c.output + [sem.text(item)] && name in d.values && d.values[name] == item
  {
    var d := c.(values := c.values[name := item]);
    assert RunAssign(sem, node.target, item, c) == (Normal, d);
    assert sem.evaluate(Variable(name), d.values, d.unchecked).0 == Some(item);
    var (o, e) := RunNode(sem, OutputNode(Variable(name)), d);
    assert Run(sem, Empty, e) == (Normal, e);
  }

  // ---------------------------------------------------------------- output is only added

  lemma {:induction false} RunAdds<V>(sem: Semantics<V>, nodes: Nodes, c: Context<V>)
    ensures c.output <= Run(sem, nodes, c).1.output
    decreases nodes, 0, 0
  {
    if nodes.Then? {
      NodeAdds(sem, nodes.head, c);
      var (o, d) := RunNode(sem, nodes.head, c);
      if o == Normal { RunAdds(sem, nodes.tail, d); }
    }
  }

  lemma {:induction false} NodeAdds<V>(sem: Semantics<V>, node: Node, c: Context<V>)
    ensures c.output <= RunNode(sem, node, c).1.output
    decreases node, 1, 0
  {
    hide RunLoop, RunBranches, RunAssign;
    match node
    case IfNode(branches) => BranchesAdd(sem, branches, c);
    case ForNode(_, e, _, _) =>
      var (v, d) := Evaluate(sem, e, c);
      if v.Some? && sem.items(v.value).Some? { LoopAdds(sem, node, sem.items(v.value).value, d); }
    case _ =>
  }

  lemma {:induction false} BranchesAdd<V>(sem: Semantics<V>, branches: Branches, c: Context<V>)
    ensures c.output <= RunBranches(sem, branches, c).1.output
    decreases branches, 0, 0
  {
    if branches.Branch? {
      if branches.condition.None? {
        RunAdds(sem, branches.body, c);
      } else {
        var d := Evaluate(sem, branches.condition.value, c).1;
        RunAdds(sem, branches.body, d);
        BranchesAdd(sem, branches.more, d);
      }
    }
  }

  lemma {:induction false} LoopAdds<V>(sem: Semantics<V>, node: Node, items: seq<V>, c: Context<V>)
    requires node.ForNode?
    ensures c.output <= RunLoop(sem, node, items, c).1.output
    decreases node, 0, |items| + 1
  {
    if items == [] {
      RunAdds(sem, node.otherwise, c);
    } else {
      RunAdds(sem, node.body, RunAssign(sem, node.target, items[0], c).1);
      var d := RunIteration(sem, node, items[0], c).1;
      LoopAdds(sem, node, items[1..], d);
    }
  }

  // ---------------------------------------------------------------- the mutable context

  /** `RenderContext`: the fields are changed as the nodes run. */
  class RenderContext<V(!new)> {
    const sem: Semantics<V>
    var values: map<string, V>
    var unchecked: set<string>
    var output: seq<string>

    function Snapshot(): (c: Context<V>) reads this { Context(values, unchecked, output) }

    constructor (sem: Semantics<V>, values: map<string, V>, frozen: bool)
      ensures this.sem == sem && Snapshot() == Context(values, if frozen then {} else values.Keys, [])
    {
      this.sem, this.values, output := sem, values, [];
      unchecked := if frozen then {} else values.Keys;
    }

    method EvaluateExpression(e: Expr) returns (v: Option<V>)
      modifies this
      ensures (v, Snapshot()) == Evaluate(sem, e, old(Snapshot()))
    {
      var r := sem.evaluate(e, values, unchecked);
      v, unchecked := r.0, r.1;
    }

    method AssignTarget(target: Target, value: V) returns (o: Outcome)
      modifies this
      ensures (o, Snapshot()) == RunAssign(sem, target, value, old(Snapshot()))
    {
      if !target.unpack {
        if target.names == [] { return Error; }
        values := values[target.names[0] := value];
        return Normal;
      }
      var items := sem.items(value);
      if items.None? || |items.value| != |target.names| { return Error; }
      ghost var whole := Updated(values, target.names, items.value);
      var i := 0;
      while i < |target.names|
        invariant i <= |target.names| && whole == Updated(values, target.names[i..], items.value[i..])
        invariant unchecked == old(unchecked) && output == old(output)
      {
        values := values[target.names[i] := items.value[i]];
        i := i + 1;
      }
      o := Normal;
    }

    /** `invoke(nodes)`. */
    method Invoke(nodes: Nodes) returns (o: Outcome)
      modifies this
      ensures (o, Snapshot()) == Run(sem, nodes, old(Snapshot()))
      decreases nodes, 0, 0
    {
      hide RunNode;
      var rest := nodes;
      while rest.Then?
        invariant rest == nodes || rest < nodes
        invariant Run(sem, rest, Snapshot()) == Run(sem, nodes, old(Snapshot()))
        decreases rest
      {
        ghost var before := Snapshot();
        o := InvokeNode(rest.head);
        assert (o, Snapshot()) == RunNode(sem, rest.head, before);
        if o != Normal { return; }
        rest := rest.tail;
      }
      o := Normal;
    }

    method InvokeNode(node: Node) returns (o: Outcome)
      modifies this
      ensures (o, Snapshot()) == RunNode(sem, node, old(Snapshot()))
      decreases node, 1, 0
    {
      hide RunLoop, RunBranches, RunAssign;
      match node
      case TextNode(text) =>
        output := output + [text];
        o := Normal;
      case OutputNode(e) =>
        var v := EvaluateExpression(e);
        if v.None? { return Error; }
        output := output + [sem.text(v.value)];
        o := Normal;
      case SetNode(target, e) =>
        var v := EvaluateExpression(e);
        if v.None? { return Error; }
        o := AssignTarget(target, v.value);
      case IfNode(branches) => o := InvokeBranches(branches);
      case ForNode(_, e, _, _) =>
        var v := EvaluateExpression(e);
        var items := if v.None? then None else sem.items(v.value);
        if items.None? { return Error; }
        o := InvokeLoop(node, items.value);
      case BreakNode => o := Break;
      case ContinueNode => o := Continue;
    }

    method InvokeBranches(branches: Branches) returns (o: Outcome)
      modifies this
      ensures (o, Snapshot()) == RunBranches(sem, branches, old(Snapshot()))
      decreases branches, 0, 0
    {
      hide Run, Evaluate;
      var rest := branches;
      while rest.Branch?
        invariant rest == branches || rest < branches
        invariant RunBranches(sem, rest, Snapshot()) == RunBranches(sem, branches, old(Snapshot()))
        decreases rest
      {
        var chosen := rest.condition.None?;
        if !chosen {
          ghost var before := Snapshot();
          var v := EvaluateExpression(rest.condition.value);
          assert (v, Snapshot()) == Evaluate(sem, rest.condition.value, before);
          if v.None? { return Error; }
          chosen := sem.truth(v.value);
        }
        if chosen {
          o := Invoke(rest.body);
          return;
        }
        rest := rest.more;
      }
      o := Normal;
    }

    method InvokeLoop(node: Node, items: seq<V>) returns (o: Outcome)
      requires node.ForNode?
      modifies this
      ensures (o, Snapshot()) == RunLoop(sem, node, items, old(Snapshot()))
      decreases node, 0, 1
    {
      hide Run, RunAssign;
      var i := 0;
      while i < |items|
        invariant i <= |items|
        invariant RunLoop(sem, node, items[i..], Snapshot()) == RunLoop(sem, node, items, old(Snapshot()))
      {
        assert items[i..][1..] == items[i + 1..];
        ghost var before := Snapshot();
        o := AssignTarget(node.target, items[i]);
        assert (o, Snapshot()) == RunAssign(sem, node.target, items[i], before);
        if o == Normal {
          o := Invoke(node.body);
        }
        assert (o, Snapshot()) == RunIteration(sem, node, items[i], before);
        if o == Break { return Normal; }
        if o == Error { return; }
        i := i + 1;
      }
      o := Invoke(node.otherwise);
    }
  }
}
