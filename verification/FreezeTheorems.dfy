/**
 `freeze` as a depth-first walk with a memo and a set of active identities: it ends on every graph,
 succeeds exactly when nothing reachable is unsupported or on a cycle, gives the frozen unfolding, and
 builds one node for each object it reaches.
 */
module FreezeTheorems {
  import opened Prelude
  import opened Freezing

  // ---------------------------------------------------------------- paths

  predicate Child(heap: Heap, a: int, b: int) { Ref(b) in Children(Look(heap, a)) }

  predicate Path(heap: Heap, p: seq<int>) { forall i | 0 <= i < |p| - 1 :: Child(heap, p[i], p[i + 1]) }

  /** The path comes back to where it was. */
  predicate Repeats(p: seq<int>) { p != [] && p[|p| - 1] in p[..|p| - 1] }

  /** The object cannot be frozen, whatever stands around it. */
  ghost predicate Refused(heap: Heap, id: int) {
    || !Supported(Look(heap, id))
    || (Look(heap, id).Collection? && exists v, n: nat :: v in Children(Look(heap, id)) && Unhashable(heap, v, n))
  }

  predicate Unhashable(heap: Heap, v: Value, n: nat) {
    var t := Unfolding(heap, v, n);
    t.Some? && !Hashable(t.value)
  }

  /** A path to a refused object, or around a cycle. */
  ghost predicate Bad(heap: Heap, p: seq<int>) { p != [] && Path(heap, p) && (Repeats(p) || Refused(heap, p[|p| - 1])) }

  ghost predicate Reaches(heap: Heap, root: int, id: int) {
    exists p :: Path(heap, p) && p != [] && p[0] == root && p[|p| - 1] == id
  }

  // ---------------------------------------------------------------- the memo

  predicate Known(memo: map<int, int>, v: Value) { v.Ref? ==> v.id in memo }

  function Resolve(memo: map<int, int>, v: Value): (f: Frozen)
    requires Known(memo, v)
  {
    match v
    case Scalar(x) => FrozenScalar(x)
    case Proxy(id) => FrozenProxy(id)
    case Ref(id) => FrozenNode(memo[id])
  }

  function ResolveAll(memo: map<int, int>, vs: seq<Value>): (fs: seq<Frozen>)
    requires forall i | 0 <= i < |vs| :: Known(memo, vs[i])
    ensures |fs| == |vs|
  {
    seq(|vs|, i requires 0 <= i < |vs| => Resolve(memo, vs[i]))
  }

  /** A finished object: its children were finished before it, and its node is made of theirs. */
  predicate Entry(heap: Heap, memo: map<int, int>, nodes: seq<Node>, id: int)
    requires Grounded(nodes) && id in memo
  {
    var o := Look(heap, id);
    var vs := Children(o);
    && 0 <= memo[id] < |nodes| && Supported(o)
    && (forall i | 0 <= i < |vs| :: Known(memo, vs[i]) && Below(Resolve(memo, vs[i]), memo[id]))
    && nodes[memo[id]] == Build(o, ResolveAll(memo, vs))
    && (o.Collection? ==> forall i | 0 <= i < |vs| :: Hashable(Unfold(nodes, Resolve(memo, vs[i]))))
  }

  predicate Closed(heap: Heap, memo: map<int, int>, nodes: seq<Node>) {
    Grounded(nodes) && forall id | id in memo :: Entry(heap, memo, nodes, id)
  }

  // ---------------------------------------------------------------- a finished object is its unfolding

  lemma {:induction false} MapOfIndex<T>(keys: seq<Key>, values: seq<T>, k: Key)
    requires |keys| == |values|
    ensures k in MapOf(keys, values) <==> k in keys
    ensures k in keys ==> exists i :: 0 <= i < |keys| && keys[i] == k && MapOf(keys, values)[k] == values[i]
    decreases |keys|
  {
    if keys != [] {
      var n := |keys| - 1;
      assert keys == keys[..n] + [keys[n]];
      MapOfIndex(keys[..n], values[..n], k);
      if k != keys[n] && k in keys {
        var i :| 0 <= i < n && keys[..n][i] == k && MapOf(keys[..n], values[..n])[k] == values[..n][i];
        assert keys[i] == k && MapOf(keys, values)[k] == values[i];
      }
    }
  }

  /** Unfolding the values of a mapping gives the mapping of the unfolded values. */
  lemma {:induction false} MapOfUnfold(nodes: seq<Node>, n: int, keys: seq<Key>, fs: seq<Frozen>, ts: seq<Tree>)
    requires Grounded(nodes) && 0 <= n <= |nodes| && |keys| == |fs| == |ts|
    requires forall i | 0 <= i < |fs| :: Below(fs[i], n) && ts[i] == Unfold(nodes, fs[i])
    ensures forall k | k in MapOf(keys, fs) :: Below(MapOf(keys, fs)[k], n)
    ensures UnfoldEntries(nodes, MapOf(keys, fs), n) == MapOf(keys, ts)
    decreases |keys|
  {
    hide Unfold;
    if keys != [] {
      var last := |keys| - 1;
      MapOfUnfold(nodes, n, keys[..last], fs[..last], ts[..last]);
      var m := MapOf(keys[..last], fs[..last]);
      assert MapOf(keys, fs) == m[keys[last] := fs[last]];
      assert UnfoldEntries(nodes, MapOf(keys, fs), n) == UnfoldEntries(nodes, m, n)[keys[last] := ts[last]];
    }
  }

  lemma {:induction false} EntryUnfolds(heap: Heap, memo: map<int, int>, nodes: seq<Node>, v: Value, depth: nat)
    requires Closed(heap, memo, nodes) && Known(memo, v) && (v.Ref? ==> memo[v.id] < depth)
    ensures Below(Resolve(memo, v), |nodes|) && Unfolding(heap, v, depth) == Some(Unfold(nodes, Resolve(memo, v)))
    decreases depth
  {
    hide Plant, Children, Look, Build, Unfold, Hashable;
    if v.Ref? {
      assert Entry(heap, memo, nodes, v.id);
      var o := Look(heap, v.id);
      var vs := Children(o);
      var fs := ResolveAll(memo, vs);
      forall i | 0 <= i < |vs|
        ensures Below(fs[i], |nodes|) && Unfolding(heap, vs[i], depth - 1) == Some(Unfold(nodes, fs[i]))
      {
        assert Below(Resolve(memo, vs[i]), memo[v.id]);
        EntryUnfolds(heap, memo, nodes, vs[i], depth - 1);
      }
      Planted(heap, memo, nodes, v.id, depth - 1, fs);
    } else {
      LeafUnfolds(heap, memo, nodes, v, depth);
    }
  }

  lemma LeafUnfolds(heap: Heap, memo: map<int, int>, nodes: seq<Node>, v: Value, depth: nat)
    requires Grounded(nodes) && !v.Ref?
    ensures Unfolding(heap, v, depth) == Some(Unfold(nodes, Resolve(memo, v)))
  {
  }

  lemma Planted(heap: Heap, memo: map<int, int>, nodes: seq<Node>, id: int, depth: nat, fs: seq<Frozen>)
    requires Closed(heap, memo, nodes) && id in memo && Entry(heap, memo, nodes, id)
    requires fs == ResolveAll(memo, Children(Look(heap, id)))
    requires forall i | 0 <= i < |fs| ::
               Below(fs[i], |nodes|) && Unfolding(heap, Children(Look(heap, id))[i], depth) == Some(Unfold(nodes, fs[i]))
    ensures Unfolding(heap, Ref(id), depth + 1) == Some(Unfold(nodes, FrozenNode(memo[id])))
  {
    hide Hashable, ImmutableKey, Look, Children;
    var o := Look(heap, id);
    var vs := Children(o);
    var ts := Unfoldings(heap, vs, depth).value;
    assert forall i | 0 <= i < |vs| :: ts[i] == Unfold(nodes, fs[i]);
    assert NodeBelow(nodes[memo[id]], memo[id]);
    if o.Mapping? || o.Record? {
      MapOfUnfold(nodes, memo[id], Keys(o), fs, ts);
    } else {
      assert UnfoldAll(nodes, fs, memo[id]) == ts;
    }
  }

  // ---------------------------------------------------------------- a finished object starts no bad path

  lemma {:induction false} PathStaysKnown(heap: Heap, memo: map<int, int>, nodes: seq<Node>, p: seq<int>, i: nat)
    requires Closed(heap, memo, nodes) && Path(heap, p) && i < |p| && p[0] in memo
    ensures p[i] in memo && memo[p[i]] <= memo[p[0]] - i
    decreases i
  {
    if i > 0 {
      PathStaysKnown(heap, memo, nodes, p, i - 1);
      assert Child(heap, p[i - 1], p[i]);
      assert Entry(heap, memo, nodes, p[i - 1]);
      var vs := Children(Look(heap, p[i - 1]));
      var j :| 0 <= j < |vs| && vs[j] == Ref(p[i]);
      assert Below(Resolve(memo, vs[j]), memo[p[i - 1]]);
    }
  }

  lemma NoBadPath(heap: Heap, memo: map<int, int>, nodes: seq<Node>, p: seq<int>)
    requires Closed(heap, memo, nodes) && p != [] && p[0] in memo && Path(heap, p)
    ensures !Bad(heap, p) && p[|p| - 1] in memo
  {
    var last := |p| - 1;
    PathStaysKnown(heap, memo, nodes, p, last);
    assert Entry(heap, memo, nodes, p[last]);
    if Repeats(p) {
      var i: nat :| i < last && p[i] == p[last];
      var q := p[i..];
      PathStaysKnown(heap, memo, nodes, p, i);
      PathSlice(heap, p, i);
      PathStaysKnown(heap, memo, nodes, q, last - i);
      assert false;
    }
    if Refused(heap, p[last]) { NotRefused(heap, memo, nodes, p[last]); }
  }

  lemma NotRefused(heap: Heap, memo: map<int, int>, nodes: seq<Node>, id: int)
    requires Closed(heap, memo, nodes) && id in memo
    ensures !Refused(heap, id)
  {
    hide Unfolding, Unfold, Hashable, Build, Children, Look;
    assert Entry(heap, memo, nodes, id);
    var vs := Children(Look(heap, id));
    forall v, n: nat | Look(heap, id).Collection? && v in vs ensures !Unhashable(heap, v, n) {
      var i :| 0 <= i < |vs| && vs[i] == v;
      assert Known(memo, vs[i]) && Below(Resolve(memo, vs[i]), memo[id]);
      UnfoldingIsUnique(heap, memo, nodes, v, n);
    }
  }

  lemma UnfoldingIsUnique(heap: Heap, memo: map<int, int>, nodes: seq<Node>, v: Value, n: nat)
    requires Closed(heap, memo, nodes) && Known(memo, v) && Below(Resolve(memo, v), |nodes|)
    ensures Unfolding(heap, v, n).Some? ==> Unfolding(heap, v, n).value == Unfold(nodes, Resolve(memo, v))
  {
    hide Unfolding, Unfold, Entry;
    if Unfolding(heap, v, n).Some? {
      var m: nat := Max(n, |nodes| + 1);
      EntryUnfolds(heap, memo, nodes, v, |nodes| + 1);
      UnfoldingStable(heap, v, |nodes| + 1, m);
      UnfoldingStable(heap, v, n, m);
    }
  }

  /** A deeper look does not change an unfolding that ended. */
  lemma {:induction false} UnfoldingStable(heap: Heap, v: Value, n: nat, m: nat)
    requires n <= m && Unfolding(heap, v, n).Some?
    ensures Unfolding(heap, v, m) == Unfolding(heap, v, n)
    decreases n
  {
    hide Plant, Children, Look;
    if v.Ref? {
      var vs := Children(Look(heap, v.id));
      var ts := Unfoldings(heap, vs, n - 1).value;
      forall i | 0 <= i < |vs| ensures Unfolding(heap, vs[i], m - 1) == Some(ts[i]) { UnfoldingStable(heap, vs[i], n - 1, m - 1); }
      assert Unfoldings(heap, vs, m - 1).value == ts;
    }
  }

  // ---------------------------------------------------------------- a bad path has no unfolding

  lemma UnfoldsDown(heap: Heap, a: int, b: int, n: nat)
    requires Child(heap, a, b) && Unfolding(heap, Ref(a), n).Some?
    ensures n > 0 && Unfolding(heap, Ref(b), n - 1).Some?
  {
    var vs := Children(Look(heap, a));
    var i :| 0 <= i < |vs| && vs[i] == Ref(b);
    assert Unfolding(heap, vs[i], n - 1).Some?;
  }

  lemma NeedsDepth(heap: Heap, a: int, n: nat)
    ensures Unfolding(heap, Ref(a), n) ==
            if n == 0 || Unfoldings(heap, Children(Look(heap, a)), n - 1).None? then None
            else Plant(Look(heap, a), Unfoldings(heap, Children(Look(heap, a)), n - 1).value)
  {
    hide Plant, Look, Children;
  }

  lemma FirstChild(heap: Heap, p: seq<int>)
    requires Path(heap, p) && |p| > 1
    ensures Child(heap, p[0], p[1])
  {
    assert Child(heap, p[0], p[0 + 1]);
  }

  lemma {:induction false} UnfoldsAlong(heap: Heap, p: seq<int>, n: nat)
    requires Path(heap, p) && p != [] && Unfolding(heap, Ref(p[0]), n).Some?
    ensures |p| <= n && Unfolding(heap, Ref(p[|p| - 1]), n - |p| + 1).Some?
    decreases |p|
  {
    hide Unfolding, Path, Unfoldings, Plant, Look, Children;
    NeedsDepth(heap, p[0], n);
    if |p| > 1 {
      PathSlice(heap, p, 1);
      FirstChild(heap, p);
      UnfoldsDown(heap, p[0], p[1], n);
      var q := p[1..];
      assert q[0] == p[1] && q[|q| - 1] == p[|p| - 1] && |q| == |p| - 1;
      UnfoldsAlong(heap, q, n - 1);
    }
  }

  lemma {:induction false} NoUnfoldingOnCycle(heap: Heap, p: seq<int>, n: nat)
    requires Path(heap, p) && |p| > 1 && p[0] == p[|p| - 1]
    ensures Unfolding(heap, Ref(p[0]), n).None?
    decreases n
  {
    hide Unfolding;
    if Unfolding(heap, Ref(p[0]), n).Some? {
      UnfoldsAlong(heap, p, n);
      NoUnfoldingOnCycle(heap, p, n - |p| + 1);
      assert false;
    }
  }

  lemma NoUnfoldingWhenRefused(heap: Heap, id: int, n: nat)
    requires Refused(heap, id)
    ensures Unfolding(heap, Ref(id), n).None?
  {
    NeedsDepth(heap, id, n);
    hide Hashable, Unfolding, Look, Children, Unfoldings, Supported;
    var o := Look(heap, id);
    var vs := Children(o);
    if Supported(o) && n > 0 && Unfoldings(heap, vs, n - 1).Some? {
      var v, m: nat :| v in vs && Unhashable(heap, v, m);
      var i :| 0 <= i < |vs| && vs[i] == v;
      UnfoldingStable(heap, v, n - 1, Max(n - 1, m));
      UnfoldingStable(heap, v, m, Max(n - 1, m));
      assert !Hashable(Unfoldings(heap, vs, n - 1).value[i]);
    }
  }

  /** The graph unfolds from the root only if no bad path starts there. */
  lemma BadPathNeverUnfolds(heap: Heap, p: seq<int>, n: nat)
    requires Bad(heap, p)
    ensures Unfolding(heap, Ref(p[0]), n).None?
  {
    hide Unfolding, Refused;
    var last := |p| - 1;
    if Unfolding(heap, Ref(p[0]), n).Some? {
      UnfoldsAlong(heap, p, n);
      if Repeats(p) {
        var i: nat :| i < last && p[i] == p[last];
        PathSlice(heap, p, i);
        NoUnfoldingOnCycle(heap, p[i..], n - last);
      } else {
        NoUnfoldingWhenRefused(heap, p[last], n - last);
      }
      assert false;
    }
  }

  lemma PathSlice(heap: Heap, p: seq<int>, i: nat)
    requires Path(heap, p) && i < |p|
    ensures Path(heap, p[i..])
  {
    var q := p[i..];
    forall j | 0 <= j < |q| - 1 ensures Child(heap, q[j], q[j + 1]) { assert Child(heap, p[i + j], p[i + j + 1]); }
  }
}
