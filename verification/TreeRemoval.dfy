/**
 `Rsync.remove` as the source writes it: a loop over the names of a directory, in any order, that counts
 what it removes.
 */
module TreeRemoval {
  import opened Prelude
  import opened Trees
  import opened TreeTheorems

  ghost function Paths(t: Tree): (ps: set<Path>)
    decreases t
  {
    {[]} + if t.Dir? then set n, p | n in t.entries && p in Paths(t.entries[n]) :: [n] + p else {}
  }

  lemma {:induction false} PathsAt(t: Tree, p: Path)
    ensures p in Paths(t) <==> At(t, p).Some?
    decreases t
  {
    if p != [] {
      assert [p[0]] + p[1..] == p;
      if t.Dir? && p[0] in t.entries { PathsAt(t.entries[p[0]], p[1..]); }
      if p in Paths(t) {
        var n, q :| t.Dir? && n in t.entries && q in Paths(t.entries[n]) && p == [n] + q;
        assert p[0] == n && p[1..] == q;
      }
    }
  }

  /** The entries that `remove` removes. */
  ghost function Gone(ex: Exclusion, t: Tree, at: Path): (ps: set<Path>) {
    set p | p in Paths(t) && AtOption(Pruned(ex, t, at), p).None?
  }

  /** Those below some of the names of a directory. */
  ghost function GoneIn(ex: Exclusion, t: Tree, at: Path, names: set<string>): (ps: set<Path>)
    requires t.Dir? && names <= t.entries.Keys
  {
    set n, p | n in names && p in Gone(ex, t.entries[n], at + [n]) :: [n] + p
  }

  ghost function Under(n: string, ps: set<Path>): (r: set<Path>) { set p | p in ps :: [n] + p }

  lemma {:induction false} UnderSize(n: string, ps: set<Path>)
    ensures |Under(n, ps)| == |ps|
    decreases |ps|
  {
    if ps != {} {
      var p :| p in ps;
      var rest := ps - {p};
      UnderSize(n, rest);
      assert ([n] + p)[1..] == p;
      forall q | q in rest ensures [n] + q != [n] + p { assert ([n] + q)[1..] == q; }
      assert Under(n, ps) == Under(n, rest) + {[n] + p};
    }
  }

  lemma GoneGrows(ex: Exclusion, t: Tree, at: Path, names: set<string>, n: string)
    requires t.Dir? && names <= t.entries.Keys && n in t.entries && n !in names
    ensures |GoneIn(ex, t, at, names + {n})| == |GoneIn(ex, t, at, names)| + |Gone(ex, t.entries[n], at + [n])|
  {
    hide Gone;
    var below := Under(n, Gone(ex, t.entries[n], at + [n]));
    UnderSize(n, Gone(ex, t.entries[n], at + [n]));
    assert GoneIn(ex, t, at, names + {n}) == GoneIn(ex, t, at, names) + below;
    forall p | p in below ensures p !in GoneIn(ex, t, at, names) {
      assert p[0] == n;
    }
    assert GoneIn(ex, t, at, names) !! below;
  }

  /** A directory that is not excluded goes itself when nothing in it stays. */
  lemma GoneTotal(ex: Exclusion, t: Tree, at: Path)
    requires t.Dir? && !ex(at, KindOf(t))
    ensures |Gone(ex, t, at)| == |GoneIn(ex, t, at, t.entries.Keys)| + if Pruned(ex, t, at).None? then 1 else 0
  {
    var below := GoneIn(ex, t, at, t.entries.Keys);
    var itself: set<Path> := if Pruned(ex, t, at).None? then {[]} else {};
    PrunedShape(ex, t, at);
    forall p ensures p in Gone(ex, t, at) <==> p in below + itself { GonePoint(ex, t, at, p); }
    assert Gone(ex, t, at) == below + itself;
    assert below !! itself;
  }

  lemma GonePoint(ex: Exclusion, t: Tree, at: Path, p: Path)
    requires t.Dir? && !ex(at, KindOf(t))
    ensures p in Gone(ex, t, at) <==> p in GoneIn(ex, t, at, t.entries.Keys) || (p == [] && Pruned(ex, t, at).None?)
  {
    PathsAt(t, p);
    PrunedShape(ex, t, at);
    if p == [] {
      assert [] !in GoneIn(ex, t, at, t.entries.Keys);
    } else {
      var n := p[0];
      assert [n] + p[1..] == p;
      AtBelow(Pruned(ex, t, at), p);
      if n in t.entries {
        PathsAt(t.entries[n], p[1..]);
        assert Lookup(EntriesOf(Pruned(ex, t, at)), n) == Pruned(ex, t.entries[n], at + [n]);
      }
      if p in GoneIn(ex, t, at, t.entries.Keys) {
        var m, q :| m in t.entries && q in Gone(ex, t.entries[m], at + [m]) && p == [m] + q;
        assert m == n && q == p[1..];
      }
    }
  }

  /** `remove(path, relative, patterns)`: what is left, and the number of entries removed. */
  method Remove(ex: Exclusion, t: Tree, at: Path) returns (rest: Option<Tree>, count: nat)
    ensures rest == Pruned(ex, t, at)
    ensures count == |Gone(ex, t, at)|
    decreases t
  {
    hide Gone, GoneIn;
    if ex(at, KindOf(t)) {
      NoneGone(ex, t, at);
      return Some(t), 0;
    }
    if !t.Dir? {
      LeafGone(ex, t, at);
      return None, 1;
    }
    var names := t.entries.Keys;
    ghost var done: set<string> := {};
    var kept: map<string, Tree> := map[];
    count := 0;
    NothingYet(ex, t, at);
    while names != {}
      invariant names <= t.entries.Keys && done == t.entries.Keys - names
      invariant forall n :: n in kept <==> n in done && Pruned(ex, t.entries[n], at + [n]).Some?
      invariant forall n | n in kept :: Some(kept[n]) == Pruned(ex, t.entries[n], at + [n])
      invariant count == |GoneIn(ex, t, at, done)|
      decreases |names|
    {
      var n :| n in names;
      var child, removed := Remove(ex, t.entries[n], at + [n]);
      GoneGrows(ex, t, at, done, n);
      names, done := names - {n}, done + {n};
      count := count + removed;
      if child.Some? { kept := kept[n := child.value]; }
    }
    assert done == t.entries.Keys;
    GoneTotal(ex, t, at);
    PrunedShape(ex, t, at);
    if kept != map[] {
      KeptIsAll(ex, t, at, kept);
      return Some(Dir(kept, t.mode)), count;
    }
    return None, count + 1;
  }

  lemma KeptIsAll(ex: Exclusion, t: Tree, at: Path, kept: map<string, Tree>)
    requires t.Dir? && !ex(at, KindOf(t)) && kept != map[]
    requires forall n :: n in kept <==> n in t.entries && Pruned(ex, t.entries[n], at + [n]).Some?
    requires forall n | n in kept :: Some(kept[n]) == Pruned(ex, t.entries[n], at + [n])
    ensures Pruned(ex, t, at) == Some(Dir(kept, t.mode))
  {
    hide Pruned;
    PrunedShape(ex, t, at);
    var n := SomeName(kept);
    assert Pruned(ex, t, at).value.entries == kept;
  }

  lemma NothingYet(ex: Exclusion, t: Tree, at: Path)
    requires t.Dir?
    ensures |GoneIn(ex, t, at, {})| == 0
  {
    assert GoneIn(ex, t, at, {}) == {};
  }

  lemma NoneGone(ex: Exclusion, t: Tree, at: Path)
    requires ex(at, KindOf(t))
    ensures |Gone(ex, t, at)| == 0
  {
    forall p | p in Paths(t) ensures AtOption(Pruned(ex, t, at), p).Some? { PathsAt(t, p); }
    assert Gone(ex, t, at) == {};
  }

  lemma LeafGone(ex: Exclusion, t: Tree, at: Path)
    requires !ex(at, KindOf(t)) && !t.Dir?
    ensures |Gone(ex, t, at)| == 1
  {
    assert Gone(ex, t, at) == {[]};
  }
}
