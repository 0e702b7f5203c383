/**
 `freeze` of `rmote/immutable.py`: the object graph, the frozen nodes that are built from it, and what
 both mean as trees.
 */
module Freezing {
  import opened Prelude

  // ---------------------------------------------------------------- the graph

  /** A mapping key: only scalars, and tuples or frozensets of such keys, are immutable. */
  datatype Key = ScalarKey(id: int) | GroupKey(keys: seq<Key>) | OtherKey(id: int)

  /** `_immutable_key`. */
  predicate ImmutableKey(k: Key) {
    match k
    case ScalarKey(_) => true
    case GroupKey(keys) => forall i | 0 <= i < |keys| :: ImmutableKey(keys[i])
    case OtherKey(_) => false
  }

  /** A scalar, a mapping that is frozen already, or an object by its identity. */
  datatype Value = Scalar(value: int) | Proxy(id: int) | Ref(id: int)

  datatype Object =
    | Mapping(entries: seq<(Key, Value)>)
    | Sequence(values: seq<Value>)         // a list or a tuple
    | Collection(values: seq<Value>)       // a set or a frozenset
    | Record(fields: seq<(Key, Value)>)    // a dataclass instance
    | Opaque                               // anything else

  /** The objects of the graph; an identity without one belongs to something unsupported. */
  type Heap = map<int, Object>

  function Look(heap: Heap, id: int): (o: Object) { if id in heap then heap[id] else Opaque }

  function Firsts(es: seq<(Key, Value)>): (ks: seq<Key>)
    ensures |ks| == |es|
  {
    seq(|es|, i requires 0 <= i < |es| => es[i].0)
  }

  function Seconds(es: seq<(Key, Value)>): (vs: seq<Value>)
    ensures |vs| == |es|
  {
    seq(|es|, i requires 0 <= i < |es| => es[i].1)
  }

  /** The values that `visit` walks into. */
  function Children(o: Object): (vs: seq<Value>) {
    match o
    case Mapping(es) => Seconds(es)
    case Record(es) => Seconds(es)
    case Sequence(values) => values
    case Collection(values) => values
    case Opaque => []
  }

  function Keys(o: Object): (ks: seq<Key>)
    ensures o.Mapping? || o.Record? ==> |ks| == |Children(o)|
  {
    match o
    case Mapping(es) => Firsts(es)
    case Record(es) => Firsts(es)
    case _ => []
  }

  /** An object that can be frozen as far as itself goes. */
  predicate Supported(o: Object) {
    !o.Opaque? && (o.Mapping? ==> forall i | 0 <= i < |Keys(o)| :: ImmutableKey(Keys(o)[i]))
  }

  // ---------------------------------------------------------------- frozen nodes

  /** A frozen value: nodes are shared by their index. */
  datatype Frozen = FrozenScalar(value: int) | FrozenProxy(id: int) | FrozenNode(index: int)

  datatype Node = MapNode(entries: map<Key, Frozen>) | TupleNode(items: seq<Frozen>) | SetNode(items: seq<Frozen>)

  /** What a value means: a set drops repetitions, a mapping keeps the last value of a key. */
  datatype Tree =
    | ScalarTree(value: int) | ProxyTree(id: int)
    | MapTree(entries: map<Key, Tree>) | TupleTree(items: seq<Tree>) | SetTree(elements: set<Tree>)

  function MapOf<T>(keys: seq<Key>, values: seq<T>): (m: map<Key, T>)
    requires |keys| == |values|
  {
    if keys == [] then map[]
    else MapOf(keys[..|keys| - 1], values[..|values| - 1])[keys[|keys| - 1] := values[|values| - 1]]
  }

  /** The node for an object whose children are frozen. */
  function Build(o: Object, fs: seq<Frozen>): (n: Node)
    requires |fs| == |Children(o)|
  {
    match o
    case Mapping(_) => MapNode(MapOf(Keys(o), fs))
    case Record(_) => MapNode(MapOf(Keys(o), fs))
    case Collection(_) => SetNode(fs)
    case _ => TupleNode(fs)
  }

  /** Python can hash scalars, tuples of hashable values and frozensets, but no mapping. */
  predicate Hashable(t: Tree) {
    match t
    case ScalarTree(_) => true
    case ProxyTree(_) => false
    case MapTree(_) => false
    case TupleTree(items) => forall i | 0 <= i < |items| :: Hashable(items[i])
    case SetTree(_) => true
  }

  /** The tree an object means, from the trees of its children; a set needs hashable elements. */
  function Plant(o: Object, ts: seq<Tree>): (t: Option<Tree>)
    requires |ts| == |Children(o)|
  {
    if !Supported(o) then None
    else
      match o
      case Mapping(_) => Some(MapTree(MapOf(Keys(o), ts)))
      case Record(_) => Some(MapTree(MapOf(Keys(o), ts)))
      case Collection(_) => if forall i | 0 <= i < |ts| :: Hashable(ts[i]) then Some(SetTree(set t | t in ts)) else None
      case _ => Some(TupleTree(ts))
  }

  /** The unfolding of a value to a depth, `None` if it does not end there or something is unsupported. */
  function Unfolding(heap: Heap, v: Value, depth: nat): (t: Option<Tree>)
    decreases depth, 0
  {
    match v
    case Scalar(x) => Some(ScalarTree(x))
    case Proxy(id) => Some(ProxyTree(id))
    case Ref(id) =>
      if depth == 0 then None
      else
        var ts := Unfoldings(heap, Children(Look(heap, id)), depth - 1);
        if ts.None? then None else Plant(Look(heap, id), ts.value)
  }

  function Unfoldings(heap: Heap, vs: seq<Value>, depth: nat): (ts: Option<seq<Tree>>)
    ensures ts.Some? ==> |ts.value| == |vs|
    ensures ts.Some? ==> forall i | 0 <= i < |vs| :: Unfolding(heap, vs[i], depth) == Some(ts.value[i])
    ensures (forall i | 0 <= i < |vs| :: Unfolding(heap, vs[i], depth).Some?) ==> ts.Some?
    decreases depth, 1, |vs|
  {
    if vs == [] then Some([])
    else
      var first := Unfoldings(heap, vs[..|vs| - 1], depth);
      var last := Unfolding(heap, vs[|vs| - 1], depth);
      if first.None? || last.None? then None else Some(first.value + [last.value])
  }

  // ---------------------------------------------------------------- what the frozen nodes mean

  predicate Below(f: Frozen, n: int) { f.FrozenNode? ==> 0 <= f.index < n }

  predicate NodeBelow(node: Node, n: int) {
    match node
    case MapNode(m) => forall k | k in m :: Below(m[k], n)
    case TupleNode(fs) => forall i | 0 <= i < |fs| :: Below(fs[i], n)
    case SetNode(fs) => forall i | 0 <= i < |fs| :: Below(fs[i], n)
  }

  /** Every node refers to earlier ones only. */
  predicate Grounded(nodes: seq<Node>) { forall i | 0 <= i < |nodes| :: NodeBelow(nodes[i], i) }

  function Unfold(nodes: seq<Node>, f: Frozen): (t: Tree)
    requires Grounded(nodes) && Below(f, |nodes|)
    decreases if f.FrozenNode? then f.index + 1 else 0, 0
  {
    match f
    case FrozenScalar(x) => ScalarTree(x)
    case FrozenProxy(id) => ProxyTree(id)
    case FrozenNode(n) =>
      assert NodeBelow(nodes[n], n);
      match nodes[n]
      case MapNode(m) => MapTree(UnfoldEntries(nodes, m, n))
      case TupleNode(fs) => TupleTree(UnfoldAll(nodes, fs, n))
      case SetNode(fs) => var ts := UnfoldAll(nodes, fs, n); SetTree(set t | t in ts)
  }

  function UnfoldEntries(nodes: seq<Node>, m: map<Key, Frozen>, n: int): (r: map<Key, Tree>)
    requires Grounded(nodes) && 0 <= n <= |nodes| && forall k | k in m :: Below(m[k], n)
    ensures r.Keys == m.Keys
    ensures forall k | k in m :: Below(m[k], n) && Below(m[k], |nodes|) && r[k] == Unfold(nodes, m[k])
    decreases n, 1
  {
    map k | k in m :: assert Below(m[k], n); Unfold(nodes, m[k])
  }

  function UnfoldAll(nodes: seq<Node>, fs: seq<Frozen>, n: int): (ts: seq<Tree>)
    requires Grounded(nodes) && 0 <= n <= |nodes| && forall i | 0 <= i < |fs| :: Below(fs[i], n)
    ensures |ts| == |fs|
    ensures forall i | 0 <= i < |fs| :: Below(fs[i], n) && Below(fs[i], |nodes|) && ts[i] == Unfold(nodes, fs[i])
    decreases n, |fs| + 1
  {
    if fs == [] then []
    else
      assert Below(fs[|fs| - 1], n);
      UnfoldAll(nodes, fs[..|fs| - 1], n) + [Unfold(nodes, fs[|fs| - 1])]
  }
}
