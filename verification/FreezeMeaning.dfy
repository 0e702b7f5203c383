/**
 What a frozen value means, object by object: the tree of a list, a set, a mapping or a record in terms of
 what it holds, and which keys and elements are accepted, by the members at every depth.
 */
module FreezeMeaning {
  import opened Prelude
  import opened Freezing

  // ---------------------------------------------------------------- members at every depth

  /** The key at the end of a path through tuples and frozensets. */
  function KeyAt(k: Key, path: seq<nat>): (r: Option<Key>)
    decreases |path|
  {
    if path == [] then Some(k)
    else if k.GroupKey? && path[0] < |k.keys| then KeyAt(k.keys[path[0]], path[1..])
    else None
  }

  /** The value at the end of a path through tuples. */
  function TreeAt(t: Tree, path: seq<nat>): (r: Option<Tree>)
    decreases |path|
  {
    if path == [] then Some(t)
    else if t.TupleTree? && path[0] < |t.items| then TreeAt(t.items[path[0]], path[1..])
    else None
  }

  predicate Foreign(k: Option<Key>) { k.Some? && k.value.OtherKey? }

  predicate Mutable(t: Option<Tree>) { t.Some? && (t.value.MapTree? || t.value.ProxyTree?) }

  /** A key is accepted if and only if no member of it, at any depth, is anything but a scalar, a tuple or a frozenset. */
  lemma {:induction false} KeyIsImmutableExactlyWhen(k: Key)
    ensures ImmutableKey(k) <==> forall path :: !Foreign(KeyAt(k, path))
    decreases k
  {
    hide KeyAt, ImmutableKey;
    if ImmutableKey(k) {
      forall path ensures !Foreign(KeyAt(k, path)) { NoForeignMember(k, path); }
    } else {
      var path := ForeignMember(k);
      assert Foreign(KeyAt(k, path));
    }
  }

  lemma {:induction false} NoForeignMember(k: Key, path: seq<nat>)
    requires ImmutableKey(k)
    ensures !Foreign(KeyAt(k, path))
    decreases |path|
  {
    if path != [] && k.GroupKey? && path[0] < |k.keys| { NoForeignMember(k.keys[path[0]], path[1..]); }
  }

  lemma {:induction false} ForeignMember(k: Key) returns (path: seq<nat>)
    requires !ImmutableKey(k)
    ensures Foreign(KeyAt(k, path))
    decreases k
  {
    path := [];
    if k.GroupKey? {
      var i :| 0 <= i < |k.keys| && !ImmutableKey(k.keys[i]);
      var rest := ForeignMember(k.keys[i]);
      path := [i] + rest;
      assert path[1..] == rest;
    }
  }

  /** A value can be an element of a set if and only if no tuple in it, at any depth, holds a mapping. */
  lemma {:induction false} HashableExactlyWhen(t: Tree)
    ensures Hashable(t) <==> forall path :: !Mutable(TreeAt(t, path))
    decreases t
  {
    hide TreeAt, Hashable;
    if Hashable(t) {
      forall path ensures !Mutable(TreeAt(t, path)) { NoMutableMember(t, path); }
    } else {
      var path := MutableMember(t);
      assert Mutable(TreeAt(t, path));
    }
  }

  lemma {:induction false} NoMutableMember(t: Tree, path: seq<nat>)
    requires Hashable(t)
    ensures !Mutable(TreeAt(t, path))
    decreases |path|
  {
    if path != [] && t.TupleTree? && path[0] < |t.items| { NoMutableMember(t.items[path[0]], path[1..]); }
  }

  lemma {:induction false} MutableMember(t: Tree) returns (path: seq<nat>)
    requires !Hashable(t)
    ensures Mutable(TreeAt(t, path))
    decreases t
  {
    path := [];
    if t.TupleTree? {
      var i :| 0 <= i < |t.items| && !Hashable(t.items[i]);
      var rest := MutableMember(t.items[i]);
      path := [i] + rest;
      assert path[1..] == rest;
    }
  }

  // ---------------------------------------------------------------- mappings

  /** A mapping built from keys and values has exactly these keys, and under each the last value given for it. */
  lemma {:induction false} MapOfMeans<T>(keys: seq<Key>, values: seq<T>)
    requires |keys| == |values|
    ensures var m := MapOf(keys, values);
            && (forall k :: k in m <==> k in keys)
            && (forall i | 0 <= i < |keys| && keys[i] !in keys[i + 1..] :: m[keys[i]] == values[i])
    decreases |keys|
  {
    if keys != [] {
      var n := |keys| - 1;
      MapOfMeans(keys[..n], values[..n]);
      assert keys == keys[..n] + [keys[n]];
      var m := MapOf(keys, values);
      forall i | 0 <= i < |keys| && keys[i] !in keys[i + 1..] ensures m[keys[i]] == values[i] {
        if i < n {
          assert keys[i + 1..] == keys[..n][i + 1..] + [keys[n]];
          assert keys[..n][i] !in keys[..n][i + 1..];
        }
      }
    }
  }

  // ---------------------------------------------------------------- objects

  /** The trees of some values at a depth. */
  predicate Trees(heap: Heap, values: seq<Value>, depth: nat, ts: seq<Tree>) {
    |ts| == |values| && forall i | 0 <= i < |values| :: Unfolding(heap, values[i], depth) == Some(ts[i])
  }

  /** The tree of the last entry under each key, and nothing else. */
  ghost predicate TreesByKey(heap: Heap, entries: seq<(Key, Value)>, depth: nat, m: map<Key, Tree>) {
    && (forall k :: k in m <==> exists i :: 0 <= i < |entries| && entries[i].0 == k)
    && (forall i | 0 <= i < |entries| && (forall j | i < j < |entries| :: entries[j].0 != entries[i].0) ::
          Unfolding(heap, entries[i].1, depth) == Some(m[entries[i].0]))
  }

  lemma {:induction false} UnfoldingsAre(heap: Heap, values: seq<Value>, depth: nat, ts: seq<Tree>)
    ensures Unfoldings(heap, values, depth) == Some(ts) <==> Trees(heap, values, depth, ts)
  {
    hide Unfolding, Unfoldings;
    if Trees(heap, values, depth, ts) {
      var us := Unfoldings(heap, values, depth).value;
      forall i | 0 <= i < |ts| ensures us[i] == ts[i] { assert Unfolding(heap, values[i], depth) == Some(us[i]); }
      assert us == ts;
    }
  }

  /** A list or tuple means the tuple of its items, in order; it has a meaning exactly when all of them have one. */
  lemma ListMeans(heap: Heap, id: int, values: seq<Value>, depth: nat, t: Tree)
    requires id in heap && heap[id] == Sequence(values)
    ensures Unfolding(heap, Ref(id), depth + 1) == Some(t) <==> t.TupleTree? && Trees(heap, values, depth, t.items)
  {
    hide Unfoldings, Trees;
    if t.TupleTree? { UnfoldingsAre(heap, values, depth, t.items); }
    var us := Unfoldings(heap, values, depth);
    if us.Some? { UnfoldingsAre(heap, values, depth, us.value); }
  }

  /** A set means the set of its elements, all of which must be hashable. */
  lemma SetMeans(heap: Heap, id: int, values: seq<Value>, depth: nat, t: Tree)
    requires id in heap && heap[id] == Collection(values)
    ensures Unfolding(heap, Ref(id), depth + 1) == Some(t) <==>
            exists ts :: Trees(heap, values, depth, ts) && (forall i | 0 <= i < |ts| :: Hashable(ts[i])) && t == SetTree(set x | x in ts)
  {
    hide Unfoldings, Trees, Hashable;
    var us := Unfoldings(heap, values, depth);
    if us.Some? { UnfoldingsAre(heap, values, depth, us.value); }
    if ts :| Trees(heap, values, depth, ts) && (forall i | 0 <= i < |ts| :: Hashable(ts[i])) && t == SetTree(set x | x in ts) {
      UnfoldingsAre(heap, values, depth, ts);
    }
  }

  lemma SecondsTrees(heap: Heap, entries: seq<(Key, Value)>, depth: nat, ts: seq<Tree>)
    requires Trees(heap, Seconds(entries), depth, ts)
    ensures TreesByKey(heap, entries, depth, MapOf(Firsts(entries), ts))
    ensures forall i | 0 <= i < |entries| :: Unfolding(heap, entries[i].1, depth).Some?
  {
    hide Unfolding, MapOf;
    var m := MapOf(Firsts(entries), ts);
    forall k ensures k in m <==> exists i :: 0 <= i < |entries| && entries[i].0 == k { KeyThere(entries, ts, k); }
    forall i | 0 <= i < |entries| ensures Unfolding(heap, entries[i].1, depth) == Some(ts[i]) { assert Seconds(entries)[i] == entries[i].1; }
    forall i | 0 <= i < |entries| && (forall j | i < j < |entries| :: entries[j].0 != entries[i].0) ensures m[entries[i].0] == ts[i] {
      ValueThere(entries, ts, i);
    }
  }

  lemma KeyThere<T>(entries: seq<(Key, Value)>, ts: seq<T>, k: Key)
    requires |ts| == |entries|
    ensures k in MapOf(Firsts(entries), ts) <==> exists i :: 0 <= i < |entries| && entries[i].0 == k
  {
    hide MapOf;
    var keys := Firsts(entries);
    MapOfMeans(keys, ts);
    if k in keys {
      var i :| 0 <= i < |keys| && keys[i] == k;
      assert entries[i].0 == k;
    }
    if i :| 0 <= i < |entries| && entries[i].0 == k { assert keys[i] == k; }
  }

  lemma ValueThere<T>(entries: seq<(Key, Value)>, ts: seq<T>, i: nat)
    requires |ts| == |entries| && i < |entries| && forall j | i < j < |entries| :: entries[j].0 != entries[i].0
    ensures var m := MapOf(Firsts(entries), ts); entries[i].0 in m && m[entries[i].0] == ts[i]
  {
    hide MapOf;
    var keys := Firsts(entries);
    MapOfMeans(keys, ts);
    var later := keys[i + 1..];
    assert forall j | 0 <= j < |later| :: later[j] == entries[i + 1 + j].0;
    assert keys[i] == entries[i].0 && keys[i] !in later;
  }

  lemma SameByKey(heap: Heap, entries: seq<(Key, Value)>, depth: nat, m: map<Key, Tree>, n: map<Key, Tree>)
    requires TreesByKey(heap, entries, depth, m) && TreesByKey(heap, entries, depth, n)
    ensures m == n
  {
    hide Unfolding;
    forall k | k in m ensures k in n && m[k] == n[k] {
      var i :| 0 <= i < |entries| && entries[i].0 == k;
      var j := LastEntry(entries, i);
    }
    forall k | k in n ensures k in m { var i :| 0 <= i < |entries| && entries[i].0 == k; }
  }

  lemma {:induction false} LastEntry(entries: seq<(Key, Value)>, i: nat) returns (j: nat)
    requires i < |entries|
    ensures j < |entries| && entries[j].0 == entries[i].0 && forall k | j < k < |entries| :: entries[k].0 != entries[j].0
    decreases |entries| - i
  {
    j := i;
    if k :| i < k < |entries| && entries[k].0 == entries[i].0 { j := LastEntry(entries, k); }
  }

  /** A mapping means the mapping of its keys, all of which must be immutable, to its values; a record means that of its fields. */
  lemma MappingMeans(heap: Heap, id: int, entries: seq<(Key, Value)>, depth: nat, t: Tree)
    requires id in heap && (heap[id] == Mapping(entries) || heap[id] == Record(entries))
    ensures Unfolding(heap, Ref(id), depth + 1) == Some(t) <==>
            && t.MapTree? && TreesByKey(heap, entries, depth, t.entries)
            && (forall i | 0 <= i < |entries| :: Unfolding(heap, entries[i].1, depth).Some?)
            && (heap[id].Mapping? ==> forall i | 0 <= i < |entries| :: ImmutableKey(entries[i].0))
  {
    hide Unfoldings, ImmutableKey, TreesByKey, MapOf;
    var values := Seconds(entries);
    var us := Unfoldings(heap, values, depth);
    var keysFine := heap[id].Mapping? ==> forall i | 0 <= i < |entries| :: ImmutableKey(entries[i].0);
    assert keysFine == Supported(heap[id]) by { KeysFine(heap[id], entries); }
    if us.Some? {
      UnfoldingsAre(heap, values, depth, us.value);
      SecondsTrees(heap, entries, depth, us.value);
      if t.MapTree? && TreesByKey(heap, entries, depth, t.entries) { SameByKey(heap, entries, depth, t.entries, MapOf(Firsts(entries), us.value)); }
    } else {
      assert forall i | 0 <= i < |entries| :: values[i] == entries[i].1;
    }
  }

  lemma KeysFine(o: Object, entries: seq<(Key, Value)>)
    requires o == Mapping(entries) || o == Record(entries)
    ensures Supported(o) <==> (o.Mapping? ==> forall i | 0 <= i < |entries| :: ImmutableKey(entries[i].0))
  {
    hide ImmutableKey;
    assert forall i | 0 <= i < |entries| :: Keys(o)[i] == entries[i].0;
    if Supported(o) && o.Mapping? {
      forall i | 0 <= i < |entries| ensures ImmutableKey(entries[i].0) { assert ImmutableKey(Keys(o)[i]); }
    }
  }

  /** Anything else has no meaning. */
  lemma OtherMeans(heap: Heap, id: int, depth: nat)
    requires id !in heap || heap[id].Opaque?
    ensures Unfolding(heap, Ref(id), depth) == None
  {
  }
}
