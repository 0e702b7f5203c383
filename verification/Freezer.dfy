/**
 The walk of `freeze`: `visit` recurses while it changes the memo, the active identities and the nodes.
 */
module Freezer {
  import opened Prelude
  import opened Freezing
  import opened FreezeTheorems

  // ---------------------------------------------------------------- growing the memo

  lemma {:induction false} UnfoldStays(nodes: seq<Node>, longer: seq<Node>, f: Frozen)
    requires Grounded(nodes) && Grounded(longer) && nodes <= longer && Below(f, |nodes|)
    ensures Unfold(longer, f) == Unfold(nodes, f)
    decreases if f.FrozenNode? then f.index + 1 else 0, 0
  {
    hide Hashable;
    if f.FrozenNode? {
      var n := f.index;
      assert NodeBelow(nodes[n], n);
      assert longer[n] == nodes[n];
      match nodes[n]
      case MapNode(m) =>
        forall k | k in m ensures Unfold(longer, m[k]) == Unfold(nodes, m[k]) {
          assert Below(m[k], n);
          UnfoldStays(nodes, longer, m[k]);
        }
        assert UnfoldEntries(longer, m, n) == UnfoldEntries(nodes, m, n);
      case TupleNode(fs) => AllStay(nodes, longer, fs, n);
      case SetNode(fs) => AllStay(nodes, longer, fs, n);
    }
  }

  lemma {:induction false} AllStay(nodes: seq<Node>, longer: seq<Node>, fs: seq<Frozen>, n: int)
    requires Grounded(nodes) && Grounded(longer) && nodes <= longer && 0 <= n <= |nodes|
    requires forall i | 0 <= i < |fs| :: Below(fs[i], n)
    ensures UnfoldAll(longer, fs, n) == UnfoldAll(nodes, fs, n)
    decreases n, 1
  {
    hide Unfold;
    forall i | 0 <= i < |fs| ensures UnfoldAll(longer, fs, n)[i] == UnfoldAll(nodes, fs, n)[i] {
      assert Below(fs[i], n);
      UnfoldStays(nodes, longer, fs[i]);
    }
  }

  /** One finished object more. */
  lemma ClosedGrows(heap: Heap, memo: map<int, int>, nodes: seq<Node>, id: int, fs: seq<Frozen>)
    requires Closed(heap, memo, nodes) && id !in memo && Finishes(heap, memo, nodes, id, fs)
    ensures Closed(heap, memo[id := |nodes|], nodes + [Build(Look(heap, id), fs)])
  {
    hide Build, Hashable, Unfold, Look, Children, Supported;
    var node := Build(Look(heap, id), fs);
    var longer := nodes + [node];
    var wider := memo[id := |nodes|];
    BuildBelow(Look(heap, id), fs, |nodes|);
    assert Grounded(longer);
    forall x | x in wider ensures Entry(heap, wider, longer, x) {
      if x == id {
        NewEntry(heap, memo, nodes, wider, longer, id, fs);
      } else {
        EntryStays(heap, memo, nodes, wider, longer, x);
      }
    }
  }

  lemma NewEntry(heap: Heap, memo: map<int, int>, nodes: seq<Node>, wider: map<int, int>, longer: seq<Node>, id: int, fs: seq<Frozen>)
    requires Grounded(nodes) && Grounded(longer) && Finishes(heap, memo, nodes, id, fs) && id !in memo
    requires wider == memo[id := |nodes|] && longer == nodes + [Build(Look(heap, id), fs)]
    ensures Entry(heap, wider, longer, id)
  {
    hide Build, Hashable, Unfold, Look, Children, Supported;
    var vs := Children(Look(heap, id));
    EntryWidens(heap, memo, nodes, wider, longer, vs);
    assert fs == ResolveAll(memo, vs);
  }

  lemma EntryStays(heap: Heap, memo: map<int, int>, nodes: seq<Node>, wider: map<int, int>, longer: seq<Node>, x: int)
    requires Grounded(nodes) && Grounded(longer) && nodes <= longer && x in memo && Entry(heap, memo, nodes, x)
    requires forall y | y in memo :: y in wider && wider[y] == memo[y]
    ensures Entry(heap, wider, longer, x)
  {
    hide Build, Hashable, Unfold, Look, Children, Supported;
    var vs := Children(Look(heap, x));
    forall i | 0 <= i < |vs| ensures Below(Resolve(memo, vs[i]), |nodes|) { assert Below(Resolve(memo, vs[i]), memo[x]); }
    EntryWidens(heap, memo, nodes, wider, longer, vs);
  }

  /** All children of the object are finished, and it can be frozen. */
  ghost predicate Finishes(heap: Heap, memo: map<int, int>, nodes: seq<Node>, id: int, fs: seq<Frozen>)
    requires Grounded(nodes)
  {
    var o := Look(heap, id);
    var vs := Children(o);
    && Supported(o) && |fs| == |vs|
    && (forall i | 0 <= i < |vs| :: Known(memo, vs[i]) && fs[i] == Resolve(memo, vs[i]) && Below(fs[i], |nodes|))
    && (o.Collection? ==> forall i | 0 <= i < |vs| :: Hashable(Unfold(nodes, fs[i])))
  }

  lemma EntryWidens(heap: Heap, memo: map<int, int>, nodes: seq<Node>, wider: map<int, int>, longer: seq<Node>, vs: seq<Value>)
    requires Grounded(nodes) && Grounded(longer) && nodes <= longer
    requires forall x | x in memo :: x in wider && wider[x] == memo[x]
    requires forall i | 0 <= i < |vs| :: Known(memo, vs[i]) && Below(Resolve(memo, vs[i]), |nodes|)
    ensures forall i | 0 <= i < |vs| :: Known(wider, vs[i]) && Resolve(wider, vs[i]) == Resolve(memo, vs[i]) && Below(Resolve(wider, vs[i]), |longer|)
    ensures ResolveAll(wider, vs) == ResolveAll(memo, vs)
    ensures forall i | 0 <= i < |vs| :: Unfold(longer, Resolve(wider, vs[i])) == Unfold(nodes, Resolve(memo, vs[i]))
  {
    hide Unfold;
    forall i | 0 <= i < |vs|
      ensures Known(wider, vs[i]) && Resolve(wider, vs[i]) == Resolve(memo, vs[i])
      ensures Unfold(longer, Resolve(memo, vs[i])) == Unfold(nodes, Resolve(memo, vs[i]))
    {
      UnfoldStays(nodes, longer, Resolve(memo, vs[i]));
    }
    assert ResolveAll(wider, vs) == ResolveAll(memo, vs);
  }

  lemma BuildBelow(o: Object, fs: seq<Frozen>, n: int)
    requires |fs| == |Children(o)| && forall i | 0 <= i < |fs| :: Below(fs[i], n)
    ensures NodeBelow(Build(o, fs), n)
  {
    if o.Mapping? || o.Record? {
      var m := MapOf(Keys(o), fs);
      forall k | k in m ensures Below(m[k], n) { MapOfIndex(Keys(o), fs, k); }
    }
  }

  // ---------------------------------------------------------------- the walk

  datatype Outcome = Done(value: Frozen) | Cyclic | Unsupported

  ghost predicate Elements(active: set<int>, stack: seq<int>) { forall x :: x in active <==> x in stack }

  /** One node for each finished object. */
  ghost predicate OneEach(memo: map<int, int>, nodes: seq<Node>) {
    |memo| == |nodes| && forall a, b :: a in memo && b in memo && memo[a] == memo[b] ==> a == b
  }

  ghost predicate AllReached(heap: Heap, root: int, memo: map<int, int>) { forall id | id in memo :: Reaches(heap, root, id) }

  /** The stack is the path from the root to the object at work. */
  ghost predicate Trail(heap: Heap, root: int, stack: seq<int>) {
    Path(heap, stack) && (stack != [] ==> stack[0] == root)
  }

  predicate Extends(memo: map<int, int>, nodes: seq<Node>, wider: map<int, int>, longer: seq<Node>) {
    (forall x | x in memo :: x in wider && wider[x] == memo[x]) && nodes <= longer
  }

  ghost predicate Leads(heap: Heap, root: int, stack: seq<int>, v: Value) {
    v.Ref? ==> if stack == [] then v.id == root else Child(heap, stack[|stack| - 1], v.id)
  }

  /** Why the walk failed: a path from the root. */
  ghost predicate Explains(heap: Heap, root: int, r: Outcome, bad: seq<int>) {
    match r
    case Done(_) => true
    case Cyclic => Trail(heap, root, bad) && Repeats(bad)
    case Unsupported => Trail(heap, root, bad) && bad != [] && Refused(heap, bad[|bad| - 1])
  }

  lemma TrailGrows(heap: Heap, root: int, stack: seq<int>, id: int)
    requires Trail(heap, root, stack) && Leads(heap, root, stack, Ref(id))
    ensures Trail(heap, root, stack + [id])
  {
  }

  lemma Smaller(heap: Heap, active: set<int>, id: int)
    requires id in heap && id !in active
    ensures |heap.Keys - (active + {id})| < |heap.Keys - active|
  {
    assert heap.Keys - (active + {id}) == (heap.Keys - active) - {id};
    assert id in heap.Keys - active;
  }

  lemma OneEachGrows(memo: map<int, int>, nodes: seq<Node>, id: int, node: Node)
    requires OneEach(memo, nodes) && id !in memo && forall x | x in memo :: memo[x] < |nodes|
    ensures OneEach(memo[id := |nodes|], nodes + [node])
  {
    var wider := memo[id := |nodes|];
    assert wider.Keys == memo.Keys + {id};
    assert |memo.Keys + {id}| == |memo.Keys| + 1;
    assert |wider| == |wider.Keys| && |memo| == |memo.Keys|;
  }

  /** A set with an element that cannot be hashed is refused. */
  lemma UnhashableRefused(heap: Heap, memo: map<int, int>, nodes: seq<Node>, id: int, v: Value)
    requires Closed(heap, memo, nodes) && Look(heap, id).Collection? && v in Children(Look(heap, id))
    requires Known(memo, v) && Below(Resolve(memo, v), |nodes|) && !Hashable(Unfold(nodes, Resolve(memo, v)))
    ensures Refused(heap, id)
  {
    hide Unfold, Unfolding, Entry, Children, Look;
    EntryUnfolds(heap, memo, nodes, v, |nodes| + 1);
    assert Unhashable(heap, v, |nodes| + 1);
  }

  /** The children frozen so far. */
  ghost predicate Progress(heap: Heap, memo: map<int, int>, nodes: seq<Node>, id: int, fs: seq<Frozen>)
    requires Grounded(nodes)
  {
    var o := Look(heap, id);
    var vs := Children(o);
    && |fs| <= |vs| && !o.Opaque?
    && (o.Mapping? ==> forall i | 0 <= i < |fs| :: ImmutableKey(Keys(o)[i]))
    && (forall i | 0 <= i < |fs| :: Known(memo, vs[i]) && fs[i] == Resolve(memo, vs[i]) && Below(fs[i], |nodes|))
    && (o.Collection? ==> forall i | 0 <= i < |fs| :: Hashable(Unfold(nodes, fs[i])))
  }

  lemma ProgressStays(heap: Heap, memo: map<int, int>, nodes: seq<Node>, wider: map<int, int>, longer: seq<Node>, id: int, fs: seq<Frozen>)
    requires Grounded(nodes) && Grounded(longer) && Extends(memo, nodes, wider, longer) && Progress(heap, memo, nodes, id, fs)
    ensures Progress(heap, wider, longer, id, fs)
  {
    hide Hashable, Unfold, Look, Children, Keys;
    var vs := Children(Look(heap, id))[..|fs|];
    assert forall i | 0 <= i < |fs| :: vs[i] == Children(Look(heap, id))[i];
    EntryWidens(heap, memo, nodes, wider, longer, vs);
  }

  lemma ProgressGrows(heap: Heap, memo: map<int, int>, nodes: seq<Node>, id: int, fs: seq<Frozen>, f: Frozen)
    requires Grounded(nodes) && Progress(heap, memo, nodes, id, fs) && |fs| < |Children(Look(heap, id))|
    requires var v := Children(Look(heap, id))[|fs|]; Known(memo, v) && f == Resolve(memo, v) && Below(f, |nodes|)
    requires Look(heap, id).Mapping? ==> ImmutableKey(Keys(Look(heap, id))[|fs|])
    requires Look(heap, id).Collection? ==> Hashable(Unfold(nodes, f))
    ensures Progress(heap, memo, nodes, id, fs + [f])
  {
    hide Hashable, Unfold, Look, Children, Keys, Resolve, Below, Known, ImmutableKey;
  }

  lemma ResolvedBelow(heap: Heap, memo: map<int, int>, nodes: seq<Node>, v: Value)
    requires Closed(heap, memo, nodes) && Known(memo, v)
    ensures Below(Resolve(memo, v), |nodes|)
  {
    if v.Ref? { assert Entry(heap, memo, nodes, v.id); }
  }

  class Walk {
    const heap: Heap
    var memo: map<int, int>
    var active: set<int>
    var nodes: seq<Node>

    ghost predicate Valid(root: int, stack: seq<int>)
      reads this
    {
      && Closed(heap, memo, nodes) && OneEach(memo, nodes) && AllReached(heap, root, memo)
      && Elements(active, stack) && active !! memo.Keys
      && Trail(heap, root, stack)
    }

    constructor (heap: Heap)
      ensures this.heap == heap && memo == map[] && active == {} && nodes == []
    {
      this.heap, memo, active, nodes := heap, map[], {}, [];
    }

    /** `visit(item)`; it ends because every level makes one more object active. */
    method Visit(v: Value, ghost root: int, ghost stack: seq<int>) returns (r: Outcome, ghost bad: seq<int>)
      requires Valid(root, stack) && Leads(heap, root, stack, v)
      modifies this
      ensures active == old(active) && Explains(heap, root, r, bad)
      ensures r.Done? ==> Valid(root, stack) && Known(memo, v) && r.value == Resolve(memo, v)
      ensures r.Done? ==> Extends(old(memo), old(nodes), memo, nodes)
      ensures !v.Ref? ==> r.Done? && memo == old(memo)
      decreases |heap.Keys - active|, 1
    {
      hide Closed, OneEach, AllReached;
      bad := [];
      match v
      case Scalar(x) => r := Done(FrozenScalar(x));
      case Proxy(id) => r := Done(FrozenProxy(id));
      case Ref(id) =>
        if id in active {
          r, bad := Cyclic, stack + [id];
          TrailGrows(heap, root, stack, id);
          assert bad[..|bad| - 1] == stack;
        } else if id in memo {
          r := Done(FrozenNode(memo[id]));
        } else {
          r, bad := VisitObject(id, root, stack);
        }
    }

    /** The object itself, with `active` cleared again however it ends. */
    method VisitObject(id: int, ghost root: int, ghost stack: seq<int>) returns (r: Outcome, ghost bad: seq<int>)
      requires Valid(root, stack) && Leads(heap, root, stack, Ref(id)) && id !in active && id !in memo
      modifies this
      ensures active == old(active) && Explains(heap, root, r, bad)
      ensures r.Done? ==> Valid(root, stack) && Known(memo, Ref(id)) && r.value == Resolve(memo, Ref(id))
      ensures r.Done? ==> Extends(old(memo), old(nodes), memo, nodes)
      decreases |heap.Keys - active|, 0
    {
      hide Closed, OneEach, AllReached;
      ghost var path := stack + [id];
      TrailGrows(heap, root, stack, id);
      active := active + {id};
      bad := path;
      r := Unsupported;
      var o := Look(heap, id);
      if !o.Opaque? {
        var fs, why;
        assert old(active) + {id} == active;
        Smaller(heap, old(active), id);
        fs, why, bad := VisitChildren(id, root, path);
        r := why;
        if why.Done? {
          Finish(id, root, path, fs);
          r := Done(FrozenNode(memo[id]));
        }
      }
      active := active - {id};
    }

    /** The children in order, with the tests that come before and after each of them. */
    method VisitChildren(id: int, ghost root: int, ghost path: seq<int>) returns (fs: seq<Frozen>, r: Outcome, ghost bad: seq<int>)
      requires Valid(root, path) && path != [] && path[|path| - 1] == id && !Look(heap, id).Opaque?
      modifies this
      ensures active == old(active) && Explains(heap, root, r, bad)
      ensures r.Done? ==> Valid(root, path) && Extends(old(memo), old(nodes), memo, nodes)
      ensures r.Done? ==> Finishes(heap, memo, nodes, id, fs)
      decreases |heap.Keys - active|, 2
    {
      hide Entry, OneEach, AllReached, Unfold, Hashable, ImmutableKey, Trail;
      var o := Look(heap, id);
      var vs := Children(o);
      fs, bad := [], path;
      while |fs| < |vs|
        invariant Valid(root, path) && active == old(active)
        invariant Extends(old(memo), old(nodes), memo, nodes)
        invariant Progress(heap, memo, nodes, id, fs)
        decreases |vs| - |fs|
      {
        var v := vs[|fs|];
        if o.Mapping? && !ImmutableKey(Keys(o)[|fs|]) {
          return fs, Unsupported, path;
        }
        ghost var memo0, nodes0 := memo, nodes;
        r, bad := Visit(v, root, path);
        if !r.Done? { return; }
        ProgressStays(heap, memo0, nodes0, memo, nodes, id, fs);
        ResolvedBelow(heap, memo, nodes, v);
        if o.Collection? && !Hashable(Unfold(nodes, r.value)) {
          UnhashableRefused(heap, memo, nodes, id, v);
          return fs, Unsupported, path;
        }
        ProgressGrows(heap, memo, nodes, id, fs, r.value);
        fs := fs + [r.value];
      }
      r := Done(FrozenScalar(0));
    }

    /** The object is finished: it moves from the path to the memo. */
    method Finish(id: int, ghost root: int, ghost path: seq<int>, fs: seq<Frozen>)
      requires Valid(root, path) && path != [] && path[|path| - 1] == id && Finishes(heap, memo, nodes, id, fs)
      modifies this`memo, this`nodes
      ensures Closed(heap, memo, nodes) && OneEach(memo, nodes) && AllReached(heap, root, memo)
      ensures memo == old(memo)[id := |old(nodes)|] && nodes == old(nodes) + [Build(Look(heap, id), fs)]
    {
      hide Entry, Build;
      ClosedGrows(heap, memo, nodes, id, fs);
      IndicesBelow(heap, memo, nodes);
      OneEachGrows(memo, nodes, id, Build(Look(heap, id), fs));
      assert Reaches(heap, root, id);
      memo, nodes := memo[id := |nodes|], nodes + [Build(Look(heap, id), fs)];
    }
  }

  lemma IndicesBelow(heap: Heap, memo: map<int, int>, nodes: seq<Node>)
    requires Closed(heap, memo, nodes)
    ensures forall x | x in memo :: memo[x] < |nodes|
  {
    forall x | x in memo ensures memo[x] < |nodes| { assert Entry(heap, memo, nodes, x); }
  }

  // ---------------------------------------------------------------- freeze

  /** Everything reachable from the value is supported and on no cycle. */
  ghost predicate Clean(heap: Heap, v: Value) {
    v.Ref? ==> forall p :: p != [] && p[0] == v.id ==> !Bad(heap, p)
  }

  /** The result with the nodes it shares, and which object each of them stands for. */
  ghost predicate Snapshot(heap: Heap, v: Value, f: Frozen, nodes: seq<Node>, shared: map<int, int>) {
    && Grounded(nodes) && Below(f, |nodes|)
    && (forall n: nat :: n > |nodes| ==> Unfolding(heap, v, n) == Some(Unfold(nodes, f)))
    && OneEach(shared, nodes) && Known(shared, v) && f == Resolve(shared, v)
    && (forall id :: id in shared <==> v.Ref? && Reaches(heap, v.id, id))
  }

  /**
   `freeze(value)`: it succeeds exactly when everything reachable is supported and acyclic, which is when
   the value has an unfolding; the result means that unfolding, and every reachable object has one node.
   */
  method Freeze(heap: Heap, v: Value) returns (r: Outcome, nodes: seq<Node>, shared: map<int, int>)
    ensures r.Done? <==> Clean(heap, v)
    ensures r.Done? <==> exists n: nat :: Unfolding(heap, v, n).Some?
    ensures r.Done? ==> Snapshot(heap, v, r.value, nodes, shared)
    ensures r.Cyclic? ==> v.Ref? && exists p :: Trail(heap, v.id, p) && Repeats(p)
    ensures r.Unsupported? ==> v.Ref? && exists id :: Reaches(heap, v.id, id) && Refused(heap, id)
  {
    hide Unfolding, Unfold, Entry, Refused, Path;
    var walk := new Walk(heap);
    ghost var bad;
    ghost var root := if v.Ref? then v.id else 0;
    EmptyTrail(heap, root);
    r, bad := walk.Visit(v, root, []);
    nodes, shared := walk.nodes, walk.memo;
    if r.Done? {
      Succeeded(heap, v, root, nodes, shared);
    } else {
      Failed(heap, v, root, r, bad);
    }
  }

  lemma Succeeded(heap: Heap, v: Value, root: int, nodes: seq<Node>, memo: map<int, int>)
    requires Closed(heap, memo, nodes) && OneEach(memo, nodes) && AllReached(heap, root, memo) && Known(memo, v)
    requires if v.Ref? then root == v.id else memo == map[]
    ensures Clean(heap, v) && Snapshot(heap, v, Resolve(memo, v), nodes, memo)
    ensures Unfolding(heap, v, |nodes| + 1).Some?
  {
    hide Unfolding, Unfold, Entry, Refused, Path;
    ResolvedBelow(heap, memo, nodes, v);
    forall n: nat | n > |nodes| ensures Unfolding(heap, v, n) == Some(Unfold(nodes, Resolve(memo, v))) {
      EntryUnfolds(heap, memo, nodes, v, n);
    }
    if v.Ref? {
      forall p | p != [] && p[0] == v.id ensures !Bad(heap, p) && (Path(heap, p) ==> p[|p| - 1] in memo) {
        if Path(heap, p) { NoBadPath(heap, memo, nodes, p); }
      }
      assert forall id :: Reaches(heap, root, id) ==> id in memo;
    }
  }

  lemma Failed(heap: Heap, v: Value, root: int, r: Outcome, bad: seq<int>)
    requires v.Ref? && root == v.id && !r.Done? && Explains(heap, root, r, bad)
    ensures !Clean(heap, v) && forall n: nat :: Unfolding(heap, v, n).None?
    ensures r.Cyclic? ==> Trail(heap, root, bad) && Repeats(bad)
    ensures r.Unsupported? ==> bad != [] && Reaches(heap, root, bad[|bad| - 1]) && Refused(heap, bad[|bad| - 1])
  {
    hide Unfolding, Refused, Path;
    assert bad != [] && bad[0] == v.id && Bad(heap, bad);
    forall n: nat ensures Unfolding(heap, v, n).None? { BadPathNeverUnfolds(heap, bad, n); }
  }

  lemma EmptyTrail(heap: Heap, root: int)
    ensures Trail(heap, root, []) && Closed(heap, map[], []) && OneEach(map[], []) && AllReached(heap, root, map[])
  {
  }
}
