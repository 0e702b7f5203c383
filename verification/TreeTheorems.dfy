/**
 What a completed transfer leaves at each path, what deletion spares, and when a second transfer finds
 nothing to do.
 */
module TreeTheorems {
  import opened Prelude
  import opened Trees
  import opened TreeSync

  // ---------------------------------------------------------------- paths

  function AtOption(t: Option<Tree>, p: Path): (r: Option<Tree>) { if t.None? then None else At(t.value, p) }

  predicate Comparable(p: Path, q: Path) { p <= q || q <= p }

  /** The same entry as far as itself goes: for a directory, not what is in it. */
  predicate SameEntry(a: Tree, b: Tree) {
    match a
    case Dir(_, mode) => b.Dir? && b.mode == mode
    case _ => a == b
  }

  lemma Cut(p: Path, q: Path)
    requires p != [] && q != []
    ensures p[0] == q[0] ==> (p <= q <==> p[1..] <= q[1..]) && (Comparable(p, q) <==> Comparable(p[1..], q[1..]))
    ensures p[0] != q[0] ==> !Comparable(p, q)
  {
    if p <= q { assert p[1..] <= q[1..]; }
    if q <= p { assert q[1..] <= p[1..]; }
    if p[0] == q[0] {
      assert p == [p[0]] + p[1..] && q == [q[0]] + q[1..];
    }
  }

  lemma Longer(at: Path, p: Path)
    requires p != []
    ensures at + p == (at + [p[0]]) + p[1..]
  {
  }

  // ---------------------------------------------------------------- remove

  /** An excluded entry of the tree. */
  predicate Spared(ex: Exclusion, t: Tree, at: Path, e: Path) {
    At(t, e).Some? && ex(at + e, KindOf(At(t, e).value))
  }

  /** The path leads to an entry at, below or above an excluded one. */
  ghost predicate Kept(ex: Exclusion, t: Tree, at: Path, q: Path) {
    At(t, q).Some? && exists e :: Spared(ex, t, at, e) && Comparable(e, q)
  }

  lemma SparedBelow(ex: Exclusion, t: Tree, at: Path, n: string, e: Path)
    requires t.Dir? && n in t.entries
    ensures Spared(ex, t, at, [n] + e) <==> Spared(ex, t.entries[n], at + [n], e)
  {
    assert ([n] + e)[1..] == e;
    Longer(at, [n] + e);
  }

  /** `remove` keeps exactly the excluded entries, what is below them and the directories above them. */
  lemma {:induction false} PrunedKeeps(ex: Exclusion, t: Tree, at: Path, q: Path)
    ensures AtOption(Pruned(ex, t, at), q).Some? <==> Kept(ex, t, at, q)
    decreases t
  {
    if ex(at, KindOf(t)) {
      assert at + [] == at;
      assert Spared(ex, t, at, []);
      assert Comparable([], q);
    } else if !t.Dir? {
      NothingSpared(ex, t, at);
    } else if q == [] {
      PrunedDirectory(ex, t, at);
    } else {
      PrunedBelow(ex, t, at, q);
    }
  }

  lemma NothingSpared(ex: Exclusion, t: Tree, at: Path)
    requires !t.Dir? && !ex(at, KindOf(t))
    ensures forall e :: !Spared(ex, t, at, e)
  {
    forall e ensures !Spared(ex, t, at, e) {
      if e == [] { assert at + e == at; }
    }
  }

  lemma {:induction false} PrunedDirectory(ex: Exclusion, t: Tree, at: Path)
    requires t.Dir? && !ex(at, KindOf(t))
    ensures Pruned(ex, t, at).Some? <==> Kept(ex, t, at, [])
    decreases t, 0
  {
    forall n | n in t.entries ensures Pruned(ex, t.entries[n], at + [n]).Some? <==> Kept(ex, t.entries[n], at + [n], []) {
      PrunedKeeps(ex, t.entries[n], at + [n], []);
    }
    if Pruned(ex, t, at).Some? {
      PrunedShape(ex, t, at);
      var kept := Pruned(ex, t, at).value.entries;
      var n := SomeName(kept);
      var e :| Spared(ex, t.entries[n], at + [n], e);
      SparedBelow(ex, t, at, n, e);
      assert Comparable([n] + e, []);
    }
    if Kept(ex, t, at, []) {
      var e :| Spared(ex, t, at, e);
      assert at + [] == at;
      var n := e[0];
      assert [n] + e[1..] == e;
      SparedBelow(ex, t, at, n, e[1..]);
      assert Comparable(e[1..], []);
      assert Kept(ex, t.entries[n], at + [n], []);
      PrunedShape(ex, t, at);
    }
  }

  lemma SomeName(m: map<string, Tree>) returns (n: string)
    requires m != map[]
    ensures n in m
  {
    assert m.Keys != {};
    n :| n in m;
  }

  /** What `remove` leaves of a directory that is not excluded itself. */
  lemma PrunedShape(ex: Exclusion, t: Tree, at: Path)
    requires t.Dir? && !ex(at, KindOf(t))
    ensures var r := Pruned(ex, t, at);
            && (r.Some? <==> exists n :: n in t.entries && Pruned(ex, t.entries[n], at + [n]).Some?)
            && (r.Some? ==>
                  && r.value.Dir? && r.value.mode == t.mode && r.value.entries != map[]
                  && (forall n :: n in r.value.entries <==> n in t.entries && Pruned(ex, t.entries[n], at + [n]).Some?)
                  && (forall n | n in r.value.entries :: Some(r.value.entries[n]) == Pruned(ex, t.entries[n], at + [n])))
  {
    var kept := map n | n in t.entries && Pruned(ex, t.entries[n], at + [n]).Some? :: Pruned(ex, t.entries[n], at + [n]).value;
    if n :| n in t.entries && Pruned(ex, t.entries[n], at + [n]).Some? {
      assert n in kept;
      assert kept != map[];
    } else {
      assert kept == map[];
    }
    if kept != map[] {
      var n := SomeName(kept);
    }
  }

  lemma {:induction false} PrunedBelow(ex: Exclusion, t: Tree, at: Path, q: Path)
    requires t.Dir? && !ex(at, KindOf(t)) && q != []
    ensures AtOption(Pruned(ex, t, at), q).Some? <==> Kept(ex, t, at, q)
    decreases t, 0
  {
    var n := q[0];
    PrunedShape(ex, t, at);
    if n in t.entries {
      PrunedKeeps(ex, t.entries[n], at + [n], q[1..]);
      if Kept(ex, t.entries[n], at + [n], q[1..]) {
        var e :| Spared(ex, t.entries[n], at + [n], e) && Comparable(e, q[1..]);
        SparedBelow(ex, t, at, n, e);
        Cut([n] + e, q);
        assert ([n] + e)[1..] == e;
        assert Comparable([n] + e, q);
      }
      if Kept(ex, t, at, q) {
        var e :| Spared(ex, t, at, e) && Comparable(e, q);
        assert at + [] == at;
        Cut(e, q);
        assert [n] + e[1..] == e;
        SparedBelow(ex, t, at, n, e[1..]);
      }
    }
  }

  /** What is kept is unchanged; at and below an excluded entry, all of it. */
  lemma {:induction false} PrunedSame(ex: Exclusion, t: Tree, at: Path, q: Path)
    requires AtOption(Pruned(ex, t, at), q).Some?
    ensures At(t, q).Some? && SameEntry(AtOption(Pruned(ex, t, at), q).value, At(t, q).value)
    ensures forall e :: Spared(ex, t, at, e) && e <= q ==> AtOption(Pruned(ex, t, at), q) == At(t, q)
    decreases t
  {
    if !ex(at, KindOf(t)) {
      PrunedShape(ex, t, at);
      assert at + [] == at;
      if q != [] {
        var n := q[0];
        PrunedSame(ex, t.entries[n], at + [n], q[1..]);
        forall e | Spared(ex, t, at, e) && e <= q ensures AtOption(Pruned(ex, t, at), q) == At(t, q) {
          Cut(e, q);
          assert [n] + e[1..] == e;
          SparedBelow(ex, t, at, n, e[1..]);
        }
      }
    }
  }

  lemma {:induction false} PrunedTwice(ex: Exclusion, t: Tree, at: Path)
    ensures var r := Pruned(ex, t, at);
            r.Some? ==> KindOf(r.value) == KindOf(t) && Pruned(ex, r.value, at) == r
    decreases t
  {
    if !ex(at, KindOf(t)) && t.Dir? {
      PrunedShape(ex, t, at);
      var r := Pruned(ex, t, at);
      if r.Some? {
        forall n | n in r.value.entries ensures Pruned(ex, r.value.entries[n], at + [n]) == Some(r.value.entries[n]) {
          PrunedTwice(ex, t.entries[n], at + [n]);
        }
        PrunedShape(ex, r.value, at);
        var n := SomeName(r.value.entries);
        assert Pruned(ex, r.value, at).value.entries == r.value.entries;
      }
    }
  }

  /** Without exclusions `remove` leaves nothing. */
  lemma {:induction false} PrunedToNothing(t: Tree, at: Path)
    ensures Pruned(Nothing, t, at).None?
    decreases t
  {
    if t.Dir? {
      forall n | n in t.entries ensures Pruned(Nothing, t.entries[n], at + [n]).None? { PrunedToNothing(t.entries[n], at + [n]); }
      PrunedShape(Nothing, t, at);
    }
  }

  // ---------------------------------------------------------------- which paths are transferred

  predicate Excludes(o: Options, at: Path, t: Option<Tree>, p: Path) {
    AtOption(t, p).Some? && o.excluded(at + p, KindOf(AtOption(t, p).value))
  }

  /** A path that leads to an entry of the destination excluded by its kind on either side. */
  predicate Guarded(o: Options, at: Path, src: Tree, dst: Option<Tree>, e: Path) {
    e != [] && AtOption(dst, e).Some? && (Excludes(o, at, dst, e) || Excludes(o, at, Some(src), e))
  }

  /** A source path of which no part is excluded on either side. */
  predicate Free(o: Options, at: Path, src: Tree, dst: Option<Tree>, p: Path) {
    At(src, p).Some? && forall i | 1 <= i <= |p| :: !Excludes(o, at, Some(src), p[..i]) && !Excludes(o, at, dst, p[..i])
  }

  lemma ExcludesBelow(o: Options, at: Path, t: Option<Tree>, n: string, p: Path)
    ensures Excludes(o, at, t, [n] + p) <==> Excludes(o, at + [n], Lookup(EntriesOf(t), n), p)
  {
    assert ([n] + p)[1..] == p;
    Longer(at, [n] + p);
  }

  lemma ProtectedIs(o: Options, at: Path, src: Tree, dst: Option<Tree>, n: string)
    requires src.Dir?
    ensures Protected(o, at, src.entries, EntriesOf(dst), n) <==> Excludes(o, at, Some(src), [n]) || Excludes(o, at, dst, [n])
  {
    AtOne(Some(src), n);
    AtOne(dst, n);
  }

  lemma AtOne(t: Option<Tree>, n: string)
    ensures AtOption(t, [n]) == Lookup(EntriesOf(t), n)
  {
    assert [n][1..] == [];
    if t.Some? && t.value.Dir? && n in t.value.entries {
      assert At(t.value, [n]) == At(t.value.entries[n], []);
    }
  }

  lemma AtBelow(t: Option<Tree>, p: Path)
    requires p != []
    ensures AtOption(t, p) == AtOption(Lookup(EntriesOf(t), p[0]), p[1..])
  {
  }

  lemma FreeBelow(o: Options, at: Path, src: Tree, dst: Option<Tree>, n: string, p: Path)
    requires src.Dir?
    ensures Free(o, at, src, dst, [n] + p) <==>
            Wanted(o, at, src.entries, EntriesOf(dst), n) && Free(o, at + [n], src.entries[n], Lookup(EntriesOf(dst), n), p)
  {
    hide Excludes;
    var es := EntriesOf(dst);
    var q := [n] + p;
    assert q[1..] == p;
    ProtectedIs(o, at, src, dst, n);
    if n in src.entries {
      forall i | 0 <= i <= |p|
        ensures Excludes(o, at, Some(src), q[..i + 1]) <==> Excludes(o, at + [n], Some(src.entries[n]), p[..i])
        ensures Excludes(o, at, dst, q[..i + 1]) <==> Excludes(o, at + [n], Lookup(es, n), p[..i])
      {
        assert q[..i + 1] == [n] + p[..i];
        ExcludesBelow(o, at, Some(src), n, p[..i]);
        ExcludesBelow(o, at, dst, n, p[..i]);
      }
      assert q[..1] == [n];
      if Free(o, at, src, dst, q) {
        forall i | 1 <= i <= |p|
          ensures !Excludes(o, at + [n], Some(src.entries[n]), p[..i]) && !Excludes(o, at + [n], Lookup(es, n), p[..i])
        {
          assert !Excludes(o, at, Some(src), q[..i + 1]) && !Excludes(o, at, dst, q[..i + 1]);
        }
      }
      if Wanted(o, at, src.entries, es, n) && Free(o, at + [n], src.entries[n], Lookup(es, n), p) {
        forall i | 1 <= i <= |q| ensures !Excludes(o, at, Some(src), q[..i]) && !Excludes(o, at, dst, q[..i]) {
          if i > 1 { assert q[..i] == q[..i - 1 + 1] && p[..i - 1] == p[..i - 1]; }
        }
      }
    }
  }

  // ---------------------------------------------------------------- when a transfer raises

  /** A source entry that can be transferred over what is at the destination. */
  predicate Transferable(src: Tree, dst: Option<Tree>, p: Path) {
    At(src, p).Some? && !At(src, p).value.Special? && (AtOption(dst, p).Some? ==> KindOf(AtOption(dst, p).value) == KindOf(At(src, p).value))
  }

  lemma {:induction false} FreeIsTransferable(o: Options, at: Path, src: Tree, dst: Option<Tree>, p: Path)
    requires src.Dir? && NoConflict(o, at, src, dst) && p != [] && Free(o, at, src, dst, p)
    ensures Transferable(src, dst, p)
    decreases |p|
  {
    hide Free;
    var n, es := p[0], EntriesOf(dst);
    assert [n] + p[1..] == p;
    FreeBelow(o, at, src, dst, n, p[1..]);
    AtBelow(dst, p);
    AtBelow(Some(src), p);
    var child := src.entries[n];
    if p[1..] != [] {
      if child.Dir? {
        FreeIsTransferable(o, at + [n], child, Lookup(es, n), p[1..]);
      } else {
        NothingBelow(o, at + [n], child, Lookup(es, n), p[1..]);
      }
    }
  }

  lemma {:induction false} ConflictAt(o: Options, at: Path, src: Tree, dst: Option<Tree>) returns (p: Path)
    requires src.Dir? && !NoConflict(o, at, src, dst) && (dst.Some? ==> dst.value.Dir?)
    ensures p != [] && Free(o, at, src, dst, p) && !Transferable(src, dst, p)
    decreases src
  {
    hide Free;
    var es := EntriesOf(dst);
    var n :| n in src.entries && Wanted(o, at, src.entries, es, n) &&
      (Conflicts(src.entries[n], Lookup(es, n)) || (src.entries[n].Dir? && !NoConflict(o, at + [n], src.entries[n], Lookup(es, n))));
    var rest: Path := [];
    if Conflicts(src.entries[n], Lookup(es, n)) {
      FreeLeaf(o, at + [n], src.entries[n], Lookup(es, n));
    } else {
      rest := ConflictAt(o, at + [n], src.entries[n], Lookup(es, n));
    }
    p := [n] + rest;
    assert p[1..] == rest;
    FreeBelow(o, at, src, dst, n, rest);
    AtBelow(dst, p);
    AtBelow(Some(src), p);
  }

  /**
   A transfer raises if and only if the destination is no directory, or some source path of which no part is
   excluded leads to a special entry or to another kind at the destination.
   */
  lemma RaisesExactlyWhen(o: Options, src: Tree, dst: Option<Tree>)
    requires src.Dir?
    ensures Transfer(o, src, dst).Raised? <==>
            || (dst.Some? && !dst.value.Dir?)
            || exists p :: p != [] && Free(o, [], src, dst, p) && !Transferable(src, dst, p)
  {
    hide Transfer, NoConflict, Free, Transferable, Merged;
    TransferIsMerge(o, src, dst);
    if NoConflict(o, [], src, dst) {
      forall p: Path | p != [] && Free(o, [], src, dst, p) ensures Transferable(src, dst, p) { FreeIsTransferable(o, [], src, dst, p); }
      RootFits(o, src, dst);
    } else if dst.Some? ==> dst.value.Dir? {
      var p := ConflictAt(o, [], src, dst);
    }
  }

  lemma RootFits(o: Options, src: Tree, dst: Option<Tree>)
    requires src.Dir? && NoConflict(o, [], src, dst)
    ensures dst.Some? ==> dst.value.Dir?
  {
  }

  // ---------------------------------------------------------------- what is there at the end

  /** A copy of a source entry over what was there: the mode is the source's, the old one, 0600 or 0700. */
  predicate Copy(o: Options, src: Tree, was: Option<Tree>, t: Tree) {
    match src
    case File(content, mode) =>
      t == File(content, if o.preserveMode then mode else if was.Some? && was.value.File? then was.value.mode else 384)
    case Link(_) => t == src
    case Special => true
    case Dir(_, mode) =>
      t.Dir? && t.mode == if o.preserveMode then mode else if was.Some? && was.value.Dir? then was.value.mode else 448
  }

  /** Every source path of which no part is excluded is equal at the destination. */
  lemma {:induction false} SourceArrives(o: Options, at: Path, src: Tree, dst: Option<Tree>, p: Path)
    requires src.Dir? && Free(o, at, src, dst, p)
    ensures At(Merged(o, at, src, dst), p).Some?
    ensures Copy(o, At(src, p).value, AtOption(dst, p), At(Merged(o, at, src, dst), p).value)
    decreases |p|
  {
    hide Free;
    MergedShape(o, at, src, dst);
    if p != [] {
      var n, es := p[0], EntriesOf(dst);
      assert [n] + p[1..] == p;
      FreeBelow(o, at, src, dst, n, p[1..]);
      AtBelow(dst, p);
      var child := src.entries[n];
      if child.Dir? {
        SourceArrives(o, at + [n], child, Lookup(es, n), p[1..]);
      } else {
        NothingBelow(o, at + [n], child, Lookup(es, n), p[1..]);
      }
    }
  }

  lemma NothingBelow(o: Options, at: Path, src: Tree, dst: Option<Tree>, p: Path)
    requires !src.Dir? && Free(o, at, src, dst, p)
    ensures p == []
  {
  }

  /** A destination path that deletion spares. */
  ghost predicate Survives(o: Options, at: Path, src: Tree, dst: Option<Tree>, q: Path) {
    && AtOption(dst, q).Some?
    && (|| !(o.delete || o.deleteExcluded)
        || (!o.deleteExcluded && exists e :: Guarded(o, at, src, dst, e) && Comparable(e, q)))
  }

  /**
   The paths at the end: those of the source that are free, and those of the destination that deletion
   spares, which are all of them without deletion, none with `delete_excluded`, and otherwise the
   guarded ones with what is below and above them.
   */
  lemma {:induction false} ExactlyThere(o: Options, at: Path, src: Tree, dst: Option<Tree>, q: Path)
    requires src.Dir? && NoConflict(o, at, src, dst)
    ensures At(Merged(o, at, src, dst), q).Some? <==> Free(o, at, src, dst, q) || Survives(o, at, src, dst, q)
    decreases |q|
  {
    hide Free, Survives;
    if q == [] {
      FreeRoot(o, at, src, dst);
    } else {
      var n, es := q[0], EntriesOf(dst);
      assert [n] + q[1..] == q;
      MergedShape(o, at, src, dst);
      FreeBelow(o, at, src, dst, n, q[1..]);
      if Wanted(o, at, src.entries, es, n) {
        ThereIfWanted(o, at, src, dst, q);
      } else {
        ThereIfLeft(o, at, src, dst, q);
      }
    }
  }

  lemma FreeRoot(o: Options, at: Path, src: Tree, dst: Option<Tree>)
    ensures Free(o, at, src, dst, [])
  {
  }

  lemma {:induction false} ThereIfWanted(o: Options, at: Path, src: Tree, dst: Option<Tree>, q: Path)
    requires src.Dir? && NoConflict(o, at, src, dst) && q != [] && Wanted(o, at, src.entries, EntriesOf(dst), q[0])
    ensures At(Merged(o, at, src, dst), q).Some? <==> Free(o, at, src, dst, q) || Survives(o, at, src, dst, q)
    decreases |q|, 0
  {
    hide Free, Survives;
    var n, es := q[0], EntriesOf(dst);
    var child := src.entries[n];
    assert [n] + q[1..] == q;
    MergedShape(o, at, src, dst);
    FreeBelow(o, at, src, dst, n, q[1..]);
    if child.Dir? {
      ExactlyThere(o, at + [n], child, Lookup(es, n), q[1..]);
      FreeRoot(o, at + [n], child, Lookup(es, n));
      if q[1..] != [] { SurvivesBelow(o, at, src, dst, q); }
    } else if q[1..] == [] {
      FreeLeaf(o, at + [n], child, Lookup(es, n));
    } else {
      NotUnderLeaf(o, at, src, dst, q);
    }
  }

  lemma FreeLeaf(o: Options, at: Path, src: Tree, dst: Option<Tree>)
    ensures Free(o, at, src, dst, [])
  {
  }

  /** Below a wanted file or link there is nothing, on neither side. */
  lemma NotUnderLeaf(o: Options, at: Path, src: Tree, dst: Option<Tree>, q: Path)
    requires src.Dir? && NoConflict(o, at, src, dst) && |q| > 1 && Wanted(o, at, src.entries, EntriesOf(dst), q[0])
    requires !src.entries[q[0]].Dir?
    ensures !Free(o, at, src, dst, q) && !Survives(o, at, src, dst, q) && At(Merged(o, at, src, dst), q).None?
  {
    MergedShape(o, at, src, dst);
    AtBelow(dst, q);
    AtBelow(Some(src), q);
    assert !Conflicts(src.entries[q[0]], Lookup(EntriesOf(dst), q[0]));
  }

  lemma GuardedBelow(o: Options, at: Path, src: Tree, dst: Option<Tree>, n: string, e: Path)
    requires src.Dir? && n in src.entries && e != []
    ensures Guarded(o, at, src, dst, [n] + e) <==> Guarded(o, at + [n], src.entries[n], Lookup(EntriesOf(dst), n), e)
  {
    hide Excludes;
    assert ([n] + e)[1..] == e;
    AtBelow(dst, [n] + e);
    ExcludesBelow(o, at, dst, n, e);
    ExcludesBelow(o, at, Some(src), n, e);
  }

  lemma SurvivesBelow(o: Options, at: Path, src: Tree, dst: Option<Tree>, q: Path)
    requires src.Dir? && |q| > 1 && Wanted(o, at, src.entries, EntriesOf(dst), q[0])
    ensures Survives(o, at, src, dst, q) <==> Survives(o, at + [q[0]], src.entries[q[0]], Lookup(EntriesOf(dst), q[0]), q[1..])
  {
    hide Guarded, Comparable;
    var n, es := q[0], EntriesOf(dst);
    AtBelow(dst, q);
    if e :| Guarded(o, at, src, dst, e) && Comparable(e, q) {
      NotGuardedItself(o, at, src, dst, n, e);
      Cut(e, q);
      assert [n] + e[1..] == e;
      GuardedBelow(o, at, src, dst, n, e[1..]);
      assert Comparable(e[1..], q[1..]);
    }
    if e :| Guarded(o, at + [n], src.entries[n], Lookup(es, n), e) && Comparable(e, q[1..]) {
      GuardedNotRoot(o, at + [n], src.entries[n], Lookup(es, n), e);
      GuardedBelow(o, at, src, dst, n, e);
      assert ([n] + e)[1..] == e;
      Cut([n] + e, q);
      assert Comparable([n] + e, q);
    }
  }

  lemma GuardedNotRoot(o: Options, at: Path, src: Tree, dst: Option<Tree>, e: Path)
    requires Guarded(o, at, src, dst, e)
    ensures e != []
  {
  }

  lemma NotGuardedItself(o: Options, at: Path, src: Tree, dst: Option<Tree>, n: string, e: Path)
    requires src.Dir? && Wanted(o, at, src.entries, EntriesOf(dst), n) && Guarded(o, at, src, dst, e)
    ensures e != [] && e != [n]
  {
    hide Excludes;
    ProtectedIs(o, at, src, dst, n);
  }

  lemma ThereIfLeft(o: Options, at: Path, src: Tree, dst: Option<Tree>, q: Path)
    requires src.Dir? && q != [] && !Wanted(o, at, src.entries, EntriesOf(dst), q[0])
    ensures At(Merged(o, at, src, dst), q).Some? <==> Survives(o, at, src, dst, q)
  {
    hide Guarded, Pruned;
    var n, es := q[0], EntriesOf(dst);
    assert [n] + q[1..] == q;
    MergedShape(o, at, src, dst);
    AtBelow(dst, q);
    if n in es {
      if Doomed(o, at, src.entries, es, n) {
        if o.deleteExcluded {
          PrunedToNothing(es[n], at + [n]);
        } else {
          PrunedKeeps(o.excluded, es[n], at + [n], q[1..]);
          KeptSurvives(o, at, src, dst, q);
        }
      } else if o.delete && !o.deleteExcluded {
        ProtectedIs(o, at, src, dst, n);
        AtOne(dst, n);
        GuardedOne(o, at, src, dst, n);
        assert Comparable([n], q);
      }
    }
  }

  lemma GuardedOne(o: Options, at: Path, src: Tree, dst: Option<Tree>, n: string)
    requires n in EntriesOf(dst) && (Excludes(o, at, Some(src), [n]) || Excludes(o, at, dst, [n]))
    ensures Guarded(o, at, src, dst, [n])
  {
    AtOne(dst, n);
  }

  /** In a subtree that only the destination has, the guarded entries are the excluded ones. */
  lemma KeptSurvives(o: Options, at: Path, src: Tree, dst: Option<Tree>, q: Path)
    requires src.Dir? && q != [] && q[0] in EntriesOf(dst) && q[0] !in src.entries && o.delete && !o.deleteExcluded
    ensures Kept(o.excluded, EntriesOf(dst)[q[0]], at + [q[0]], q[1..]) <==> Survives(o, at, src, dst, q)
  {
    hide Comparable;
    var n := q[0];
    var t := EntriesOf(dst)[n];
    AtBelow(dst, q);
    if e :| Spared(o.excluded, t, at + [n], e) && Comparable(e, q[1..]) {
      GuardedAlone(o, at, src, dst, n, e);
      assert ([n] + e)[1..] == e;
      Cut([n] + e, q);
      assert Comparable([n] + e, q);
    }
    if e :| Guarded(o, at, src, dst, e) && Comparable(e, q) {
      Cut(e, q);
      assert [n] + e[1..] == e;
      GuardedAlone(o, at, src, dst, n, e[1..]);
      assert Comparable(e[1..], q[1..]);
    }
  }

  lemma GuardedAlone(o: Options, at: Path, src: Tree, dst: Option<Tree>, n: string, e: Path)
    requires src.Dir? && n in EntriesOf(dst) && n !in src.entries
    ensures Guarded(o, at, src, dst, [n] + e) <==> Spared(o.excluded, EntriesOf(dst)[n], at + [n], e)
  {
    var p := [n] + e;
    assert p[1..] == e;
    AtBelow(dst, p);
    AtBelow(Some(src), p);
    Longer(at, p);
  }

  /**
   What is there and was not transferred is unchanged. Unless `delete_excluded` removes them, guarded
   entries keep all that is below them.
   */
  lemma {:induction false} RestIsUntouched(o: Options, at: Path, src: Tree, dst: Option<Tree>, q: Path)
    requires src.Dir? && NoConflict(o, at, src, dst) && !Free(o, at, src, dst, q) && At(Merged(o, at, src, dst), q).Some?
    ensures AtOption(dst, q).Some? && SameEntry(At(Merged(o, at, src, dst), q).value, AtOption(dst, q).value)
    ensures forall e :: Guarded(o, at, src, dst, e) && e <= q ==> At(Merged(o, at, src, dst), q) == AtOption(dst, q)
    decreases |q|
  {
    hide Free, Guarded;
    if q == [] {
      FreeRoot(o, at, src, dst);
      assert false;
    } else {
      var n, es := q[0], EntriesOf(dst);
      assert [n] + q[1..] == q;
      MergedShape(o, at, src, dst);
      FreeBelow(o, at, src, dst, n, q[1..]);
      AtBelow(dst, q);
      if Wanted(o, at, src.entries, es, n) {
        if !src.entries[n].Dir? {
          if q[1..] == [] { FreeLeaf(o, at + [n], src.entries[n], Lookup(es, n)); } else { NotUnderLeaf(o, at, src, dst, q); }
          assert false;
        } else {
          RestIsUntouched(o, at + [n], src.entries[n], Lookup(es, n), q[1..]);
          forall e | Guarded(o, at, src, dst, e) && e <= q ensures At(Merged(o, at, src, dst), q) == AtOption(dst, q) {
            NotGuardedItself(o, at, src, dst, n, e);
            Cut(e, q);
            assert [n] + e[1..] == e;
            GuardedBelow(o, at, src, dst, n, e[1..]);
          }
        }
      } else if Doomed(o, at, src.entries, es, n) {
        DoomedIsSame(o, at, src, dst, q);
      }
    }
  }

  lemma DoomedIsSame(o: Options, at: Path, src: Tree, dst: Option<Tree>, q: Path)
    requires src.Dir? && q != [] && Doomed(o, at, src.entries, EntriesOf(dst), q[0]) && At(Merged(o, at, src, dst), q).Some?
    ensures AtOption(dst, q).Some? && SameEntry(At(Merged(o, at, src, dst), q).value, AtOption(dst, q).value)
    ensures forall e :: Guarded(o, at, src, dst, e) && e <= q ==> At(Merged(o, at, src, dst), q) == AtOption(dst, q)
  {
    hide Guarded, Pruned;
    var n, es := q[0], EntriesOf(dst);
    assert [n] + q[1..] == q;
    MergedShape(o, at, src, dst);
    AtBelow(dst, q);
    if o.deleteExcluded {
      PrunedToNothing(es[n], at + [n]);
      assert false;
    } else {
      PrunedSame(o.excluded, es[n], at + [n], q[1..]);
      forall e | Guarded(o, at, src, dst, e) && e <= q ensures At(Merged(o, at, src, dst), q) == AtOption(dst, q) {
        GuardedNotRoot(o, at, src, dst, e);
        Cut(e, q);
        assert [n] + e[1..] == e;
        GuardedAlone(o, at, src, dst, n, e[1..]);
      }
    }
  }

  // ---------------------------------------------------------------- the second transfer

  /** Nothing is left to do. */
  predicate Settled(o: Options, at: Path, src: Tree, t: Tree)
    requires src.Dir?
  {
    NoConflict(o, at, src, Some(t)) && Merged(o, at, src, Some(t)) == t
  }

  /**
   A name whose destination entry alone is excluded, by its kind: `delete_excluded` removes that entry,
   and nothing protects the source entry any more.
   */
  predicate Uncovered(o: Options, at: Path, src: map<string, Tree>, dst: map<string, Tree>, n: string) {
    n in src && n in dst && o.excluded(at + [n], KindOf(dst[n])) && !o.excluded(at + [n], KindOf(src[n]))
  }

  predicate Surprise(o: Options, at: Path, src: Tree, dst: Option<Tree>)
    requires src.Dir?
    decreases src
  {
    o.deleteExcluded && exists n | n in src.entries ::
      || Uncovered(o, at, src.entries, EntriesOf(dst), n)
      || (Wanted(o, at, src.entries, EntriesOf(dst), n) && src.entries[n].Dir?
          && Surprise(o, at + [n], src.entries[n], Lookup(EntriesOf(dst), n)))
  }

  /** The same protection the second time, but for the uncovered names. */
  lemma SecondTime(o: Options, at: Path, src: Tree, dst: Option<Tree>, n: string)
    requires src.Dir? && !(o.deleteExcluded && Uncovered(o, at, src.entries, EntriesOf(dst), n))
    ensures var es, fs := EntriesOf(dst), Merged(o, at, src, dst).entries;
            && (Wanted(o, at, src.entries, fs, n) <==> Wanted(o, at, src.entries, es, n))
            && (!Wanted(o, at, src.entries, es, n) && n in fs ==> (Doomed(o, at, src.entries, fs, n) <==> Doomed(o, at, src.entries, es, n)))
  {
    hide Pruned, MergedEntry;
    var es, fs := EntriesOf(dst), Merged(o, at, src, dst).entries;
    MergedShape(o, at, src, dst);
    if Wanted(o, at, src.entries, es, n) {
      EntryKind(o, at + [n], src.entries[n], Lookup(es, n));
    } else if Doomed(o, at, src.entries, es, n) {
      PrunedTwice(Remover(o), es[n], at + [n]);
      if o.deleteExcluded { PrunedToNothing(es[n], at + [n]); }
    }
  }

  lemma EntryKind(o: Options, at: Path, src: Tree, dst: Option<Tree>)
    ensures KindOf(MergedEntry(o, at, src, dst)) == KindOf(src)
  {
  }

  /** What is left as it is the first time is left so the second time. */
  lemma LeftTwice(o: Options, at: Path, src: Tree, dst: Option<Tree>, n: string)
    requires src.Dir? && !(o.deleteExcluded && Uncovered(o, at, src.entries, EntriesOf(dst), n))
    requires !Wanted(o, at, src.entries, EntriesOf(dst), n)
    ensures var t := Merged(o, at, src, dst);
            Lookup(Merged(o, at, src, Some(t)).entries, n) == Lookup(t.entries, n)
  {
    hide Pruned, MergedEntry, Wanted;
    var es, t := EntriesOf(dst), Merged(o, at, src, dst);
    MergedShape(o, at, src, dst);
    MergedShape(o, at, src, Some(t));
    SecondTime(o, at, src, dst, n);
    if n in es { PrunedTwice(Remover(o), es[n], at + [n]); }
  }

  lemma {:induction false} SettlesUnlessSurprise(o: Options, at: Path, src: Tree, dst: Option<Tree>)
    requires src.Dir? && NoConflict(o, at, src, dst)
    ensures Settled(o, at, src, Merged(o, at, src, dst)) <==> !Surprise(o, at, src, dst)
    decreases src
  {
    hide MergedEntry, Merged, Wanted;
    var es, t := EntriesOf(dst), Merged(o, at, src, dst);
    if n :| o.deleteExcluded && n in src.entries && Uncovered(o, at, src.entries, es, n) {
      NotSettledHere(o, at, src, dst, n);
    } else {
      forall n | n in src.entries && Wanted(o, at, src.entries, es, n)
        ensures n in t.entries && t.entries[n] == MergedEntry(o, at + [n], src.entries[n], Lookup(es, n))
        ensures Wanted(o, at, src.entries, t.entries, n) && !Conflicts(src.entries[n], Lookup(t.entries, n))
        ensures EntrySettled(o, at + [n], src.entries[n], t.entries[n]) <==>
                !(src.entries[n].Dir? && Surprise(o, at + [n], src.entries[n], Lookup(es, n)))
      {
        MergedShape(o, at, src, dst);
        SecondTime(o, at, src, dst, n);
        WantedSettles(o, at, src, dst, n);
      }
      SettledByEntries(o, at, src, dst);
    }
  }

  lemma SettledByEntries(o: Options, at: Path, src: Tree, dst: Option<Tree>)
    requires src.Dir? && forall n :: !(o.deleteExcluded && Uncovered(o, at, src.entries, EntriesOf(dst), n))
    requires var t := Merged(o, at, src, dst);
             forall n | n in src.entries && Wanted(o, at, src.entries, EntriesOf(dst), n) ::
               n in t.entries && !Conflicts(src.entries[n], Lookup(t.entries, n))
    ensures var t := Merged(o, at, src, dst);
            Settled(o, at, src, t) <==>
            forall n | n in src.entries && Wanted(o, at, src.entries, EntriesOf(dst), n) :: EntrySettled(o, at + [n], src.entries[n], t.entries[n])
  {
    hide Merged, MergedEntry, Wanted, Doomed, Conflicts, Stays, Left, Uncovered;
    var es, t := EntriesOf(dst), Merged(o, at, src, dst);
    var again := Merged(o, at, src, Some(t));
    MergedShape(o, at, src, dst);
    MergedShape(o, at, src, Some(t));
    forall n ensures Wanted(o, at, src.entries, t.entries, n) <==> Wanted(o, at, src.entries, es, n) { SecondTime(o, at, src, dst, n); }
    if forall n | n in src.entries && Wanted(o, at, src.entries, es, n) :: EntrySettled(o, at + [n], src.entries[n], t.entries[n]) {
      forall n ensures Lookup(again.entries, n) == Lookup(t.entries, n) {
        if Wanted(o, at, src.entries, es, n) {
          WantedIsSource(o, at, src, es, n);
          WantedAgain(o, at, src, dst, n);
        } else {
          LeftTwice(o, at, src, dst, n);
        }
      }
      SameMap(again.entries, t.entries);
      assert NoConflict(o, at, src, Some(t));
    }
    if Settled(o, at, src, t) {
      forall n | n in src.entries && Wanted(o, at, src.entries, es, n) ensures EntrySettled(o, at + [n], src.entries[n], t.entries[n]) {
        WantedAgain(o, at, src, dst, n);
      }
    }
  }

  lemma WantedAgain(o: Options, at: Path, src: Tree, dst: Option<Tree>, n: string)
    requires src.Dir? && Wanted(o, at, src.entries, EntriesOf(dst), n)
    requires Wanted(o, at, src.entries, Merged(o, at, src, dst).entries, n) && n in Merged(o, at, src, dst).entries
    ensures var t := Merged(o, at, src, dst);
            n in src.entries && Lookup(Merged(o, at, src, Some(t)).entries, n) == Some(MergedEntry(o, at + [n], src.entries[n], Some(t.entries[n])))
  {
    hide Merged, MergedEntry;
    MergedShape(o, at, src, Some(Merged(o, at, src, dst)));
  }

  /** A wanted entry that a second transfer leaves alone. */
  predicate EntrySettled(o: Options, at: Path, src: Tree, t: Tree) {
    (src.Dir? ==> NoConflict(o, at, src, Some(t))) && MergedEntry(o, at, src, Some(t)) == t
  }

  lemma {:induction false} WantedSettles(o: Options, at: Path, src: Tree, dst: Option<Tree>, n: string)
    requires src.Dir? && NoConflict(o, at, src, dst) && n in src.entries && Wanted(o, at, src.entries, EntriesOf(dst), n)
    ensures var child, was := src.entries[n], Lookup(EntriesOf(dst), n);
            var t := MergedEntry(o, at + [n], child, was);
            && !Conflicts(child, Some(t))
            && (EntrySettled(o, at + [n], child, t) <==> !(child.Dir? && Surprise(o, at + [n], child, was)))
    decreases src, 0
  {
    var child, was := src.entries[n], Lookup(EntriesOf(dst), n);
    assert !Conflicts(child, was);
    EntryKind(o, at + [n], child, was);
    if child.Dir? {
      hide Merged;
      assert NoConflict(o, at + [n], child, was);
      SettlesUnlessSurprise(o, at + [n], child, was);
    }
  }

  lemma NotSettledHere(o: Options, at: Path, src: Tree, dst: Option<Tree>, n: string)
    requires src.Dir? && o.deleteExcluded && Uncovered(o, at, src.entries, EntriesOf(dst), n)
    ensures !Settled(o, at, src, Merged(o, at, src, dst)) && Surprise(o, at, src, dst)
  {
    hide MergedEntry, Pruned, Merged;
    var es, t := EntriesOf(dst), Merged(o, at, src, dst);
    MergedShape(o, at, src, dst);
    PrunedToNothing(es[n], at + [n]);
    assert n !in t.entries;
    MergedShape(o, at, src, Some(t));
    assert n in Merged(o, at, src, Some(t)).entries;
  }

  /**
   A second transfer reports no change and leaves the tree as it is, exactly when no entry was excluded by
   the kind of its destination alone while `delete_excluded` was set.
   */
  lemma SecondTransfer(o: Options, src: Tree, dst: Option<Tree>)
    requires src.Dir? && NoConflict(o, [], src, dst)
    ensures var first := Transfer(o, src, dst);
            && first.Completed?
            && (Transfer(o, src, Some(first.tree)) == Completed(first.tree, false) <==> !Surprise(o, [], src, dst))
  {
    hide Transfer, NoConflict, Merged, Surprise;
    var t := Merged(o, [], src, dst);
    TransferIsMerge(o, src, dst);
    TransferIsMerge(o, src, Some(t));
    SettlesUnlessSurprise(o, [], src, dst);
  }

  /**
   Such an entry: the source has a file `x`, the destination a directory `x`, and directories named `x`
   are excluded. The first transfer removes the directory, the second one brings the file.
   */
  lemma SecondTransferChanges()
    ensures var o := Options(true, true, true, (p, k) => p == ["x"] && k == DirectoryKind);
            var src := Dir(map["x" := File([], 420)], 493);
            var dst := Dir(map["x" := Dir(map[], 493)], 493);
            && Transfer(o, src, Some(dst)).Completed?
            && (var second := Transfer(o, src, Some(Transfer(o, src, Some(dst)).tree)); second != Completed(Transfer(o, src, Some(dst)).tree, false))
  {
    hide Transfer, Merged, NoConflict, Surprise;
    var o := Options(true, true, true, (p, k) => p == ["x"] && k == DirectoryKind);
    var src := Dir(map["x" := File([], 420)], 493);
    var dst := Dir(map["x" := Dir(map[], 493)], 493);
    assert [] + ["x"] == ["x"];
    assert Protected(o, [], src.entries, dst.entries, "x");
    NoneWanted(o, src, Some(dst));
    assert Uncovered(o, [], src.entries, EntriesOf(Some(dst)), "x");
    NotSettledHere(o, [], src, Some(dst), "x");
    SecondTransfer(o, src, Some(dst));
  }

  lemma NoneWanted(o: Options, src: Tree, dst: Option<Tree>)
    requires src.Dir? && dst.Some? && dst.value.Dir? && forall n | n in src.entries :: Protected(o, [], src.entries, EntriesOf(dst), n)
    ensures NoConflict(o, [], src, dst)
  {
  }
}
