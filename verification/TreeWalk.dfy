/**
 The two passes of `walk` as the source writes them: loops over the names of a directory, files and links
 before directories, with the tests for conflicts first. The names are taken in any order.
 */
module TreeWalk {
  import opened Prelude
  import opened Trees
  import opened TreeSync
  import opened TreeTheorems
  import opened TreeRemoval

  /** The names of the source that `walk` transfers. */
  method WantedNames(o: Options, at: Path, src: map<string, Tree>, es: map<string, Tree>) returns (names: set<string>, conflict: bool)
    ensures forall n :: n in names <==> Wanted(o, at, src, es, n)
    ensures conflict <==> exists n | n in src :: Wanted(o, at, src, es, n) && Conflicts(src[n], Lookup(es, n))
  {
    names := set n | n in src && !Protected(o, at, src, es, n);
    conflict := false;
    var todo := names;
    while todo != {}
      invariant todo <= names
      invariant conflict <==> exists n | n in src :: n in names && n !in todo && Conflicts(src[n], Lookup(es, n))
      decreases |todo|
    {
      var n :| n in todo;
      todo := todo - {n};
      if Conflicts(src[n], Lookup(es, n)) { conflict := true; }
    }
  }

  /** The entries of the first pass for some of the wanted names. */
  ghost predicate Progress(o: Options, at: Path, src: Tree, es: map<string, Tree>, done: set<string>, entries: map<string, Tree>, changed: bool)
    requires src.Dir?
  {
    && (forall n | n in done :: n in src.entries && FirstEntry(o, at + [n], src.entries[n], Lookup(es, n)).Completed?)
    && (forall n :: n in entries <==> n in es || n in done)
    && (forall n | n in entries :: entries[n] == if n in done then FirstEntry(o, at + [n], src.entries[n], Lookup(es, n)).tree else es[n])
    && (changed <==> exists n | n in done :: Changed(FirstEntry(o, at + [n], src.entries[n], Lookup(es, n))))
  }

  lemma ProgressGrows(o: Options, at: Path, src: Tree, es: map<string, Tree>, done: set<string>, entries: map<string, Tree>, changed: bool, n: string, p: Pass)
    requires src.Dir? && Progress(o, at, src, es, done, entries, changed) && n in src.entries && n !in done
    requires p == FirstEntry(o, at + [n], src.entries[n], Lookup(es, n)) && p.Completed?
    ensures Progress(o, at, src, es, done + {n}, entries[n := p.tree], changed || p.changed)
  {
    hide FirstEntry;
    assert p.changed ==> Changed(FirstEntry(o, at + [n], src.entries[n], Lookup(es, n)));
  }

  /** `walk(relative)`. */
  method FirstWalk(o: Options, at: Path, src: Tree, dst: Option<Tree>) returns (r: Pass)
    requires src.Dir?
    ensures r == FirstPass(o, at, src, dst)
    decreases src, 1
  {
    hide FirstEntry, Wanted, Conflicts, FirstEntries, FirstRaises, FirstChanges, Progress;
    if dst.Some? && !dst.value.Dir? { return Raised; }
    var es := EntriesOf(dst);
    var names, conflict := WantedNames(o, at, src.entries, es);
    if conflict {
      ConflictRaises(o, at, src, es);
      return Raised;
    }
    forall n | n in names ensures n in src.entries { WantedIsSource(o, at, src, es, n); }
    var ok, entries, changed := WalkLeaves(o, at, src, es, names);
    if ok { ok, entries, changed := WalkDirectories(o, at, src, es, names, entries, changed); }
    if !ok { return Raised; }
    EndOfPass(o, at, src, es, names, entries, changed);
    r := Completed(Dir(entries, if dst.Some? then dst.value.mode else NEW_DIRECTORY), dst.None? || changed);
  }

  ghost function Leaves(src: Tree, names: set<string>): (r: set<string>)
    requires src.Dir? && names <= src.entries.Keys
  {
    set n | n in names && !src.entries[n].Dir?
  }

  /** The loop over files and links. */
  method WalkLeaves(o: Options, at: Path, src: Tree, es: map<string, Tree>, names: set<string>) returns (ok: bool, entries: map<string, Tree>, changed: bool)
    requires src.Dir? && names <= src.entries.Keys && forall n | n in names :: Wanted(o, at, src.entries, es, n)
    ensures if ok then Progress(o, at, src, es, Leaves(src, names), entries, changed) else FirstRaises(o, at, src, es)
  {
    hide FirstEntry, Wanted, FirstRaises, Progress;
    entries, changed := es, false;
    StartOfPass(o, at, src, es);
    var todo := set n | n in names && !src.entries[n].Dir?;
    ghost var done: set<string> := {};
    while todo != {}
      invariant todo <= Leaves(src, names) && done == Leaves(src, names) - todo && Progress(o, at, src, es, done, entries, changed)
      decreases |todo|
    {
      var n :| n in todo;
      var p := CopyLeaf(o, at + [n], src.entries[n], Lookup(es, n));
      if p.Raised? {
        EntryRaises(o, at, src, es, n);
        return false, entries, changed;
      }
      ProgressGrows(o, at, src, es, done, entries, changed, n, p);
      todo, done := todo - {n}, done + {n};
      entries, changed := entries[n := p.tree], changed || p.changed;
    }
    assert done == Leaves(src, names);
    ok := true;
  }

  /** The loop over directories. */
  method WalkDirectories(o: Options, at: Path, src: Tree, es: map<string, Tree>, names: set<string>, before: map<string, Tree>, changedBefore: bool)
    returns (ok: bool, entries: map<string, Tree>, changed: bool)
    requires src.Dir? && names <= src.entries.Keys && forall n | n in names :: Wanted(o, at, src.entries, es, n)
    requires Progress(o, at, src, es, Leaves(src, names), before, changedBefore)
    ensures if ok then Progress(o, at, src, es, names, entries, changed) else FirstRaises(o, at, src, es)
    decreases src, 0
  {
    hide FirstEntry, FirstPass, Wanted, FirstRaises, Progress;
    entries, changed := before, changedBefore;
    var todo := set n | n in names && src.entries[n].Dir?;
    ghost var done := Leaves(src, names);
    while todo != {}
      invariant todo <= names - Leaves(src, names) && done == names - todo && Progress(o, at, src, es, done, entries, changed)
      decreases |todo|
    {
      var n :| n in todo;
      var p := FirstWalk(o, at + [n], src.entries[n], Lookup(es, n));
      DirectoryEntry(o, at + [n], src.entries[n], Lookup(es, n));
      if p.Raised? {
        EntryRaises(o, at, src, es, n);
        return false, entries, changed;
      }
      ProgressGrows(o, at, src, es, done, entries, changed, n, p);
      todo, done := todo - {n}, done + {n};
      entries, changed := entries[n := p.tree], changed || p.changed;
    }
    assert done == names;
    ok := true;
  }

  /** `file` or `link`. */
  method CopyLeaf(o: Options, at: Path, src: Tree, dst: Option<Tree>) returns (p: Pass)
    requires !src.Dir?
    ensures p == FirstEntry(o, at, src, dst)
  {
    match src
    case File(content, mode) =>
      var kept := if dst.Some? && dst.value.File? then dst.value.mode else NEW_FILE;
      var changed := dst.None? || !dst.value.File? || dst.value.content != content;
      if o.preserveMode && mode != kept {
        kept, changed := mode, true;
      }
      p := Completed(File(content, kept), changed);
    case Link(target) => p := Completed(src, dst.None? || !dst.value.Link? || dst.value.target != target);
    case Special => p := Raised;
  }

  lemma DirectoryEntry(o: Options, at: Path, src: Tree, dst: Option<Tree>)
    requires src.Dir?
    ensures FirstEntry(o, at, src, dst) == FirstPass(o, at, src, dst)
  {
  }

  lemma ConflictRaises(o: Options, at: Path, src: Tree, es: map<string, Tree>)
    requires src.Dir? && exists n | n in src.entries :: Wanted(o, at, src.entries, es, n) && Conflicts(src.entries[n], Lookup(es, n))
    ensures FirstRaises(o, at, src, es)
  {
    hide FirstEntry;
  }

  lemma EntryRaises(o: Options, at: Path, src: Tree, es: map<string, Tree>, n: string)
    requires src.Dir? && n in src.entries && Wanted(o, at, src.entries, es, n) && FirstEntry(o, at + [n], src.entries[n], Lookup(es, n)).Raised?
    ensures FirstRaises(o, at, src, es)
  {
    hide FirstEntry, Wanted;
  }

  lemma StartOfPass(o: Options, at: Path, src: Tree, es: map<string, Tree>)
    requires src.Dir?
    ensures Progress(o, at, src, es, {}, es, false)
  {
  }

  lemma EndOfPass(o: Options, at: Path, src: Tree, es: map<string, Tree>, names: set<string>, entries: map<string, Tree>, changed: bool)
    requires src.Dir? && (forall n :: n in names <==> Wanted(o, at, src.entries, es, n))
    requires !exists n | n in src.entries :: Wanted(o, at, src.entries, es, n) && Conflicts(src.entries[n], Lookup(es, n))
    requires Progress(o, at, src, es, names, entries, changed)
    ensures !FirstRaises(o, at, src, es) && entries == FirstEntries(o, at, src, es) && changed == FirstChanges(o, at, src, es)
  {
    hide FirstEntry, Wanted, Conflicts;
    FirstKeys(o, at, src, es);
    var r := FirstEntries(o, at, src, es);
    assert forall n :: n in entries <==> n in r;
    forall n | n in entries ensures entries[n] == r[n] { }
  }

  // ---------------------------------------------------------------- finishing

  /** The second pass after some of the directories and some of the doomed names. */
  ghost predicate Finishing(o: Options, at: Path, src: Tree, es: map<string, Tree>, dirs: set<string>, gone: set<string>,
                            entries: map<string, Tree>, changed: bool)
    requires src.Dir?
  {
    && (forall n | n in dirs :: n in src.entries && SecondEntry(o, at + [n], src.entries[n], Lookup(es, n)).Completed?)
    && (forall n | n in gone :: n in es && n !in dirs)
    && (forall n :: n in entries <==> n in es && (n in gone ==> Pruned(Remover(o), es[n], at + [n]).Some?))
    && (forall n | n in entries :: entries[n] ==
          if n in gone then Pruned(Remover(o), es[n], at + [n]).value
          else if n in dirs then SecondEntry(o, at + [n], src.entries[n], Lookup(es, n)).tree
          else es[n])
    && (changed <==>
          || (exists n | n in dirs :: Changed(SecondEntry(o, at + [n], src.entries[n], Lookup(es, n))))
          || (exists n | n in gone :: Pruned(Remover(o), es[n], at + [n]) != Some(es[n])))
  }

  lemma FinishingDirectory(o: Options, at: Path, src: Tree, es: map<string, Tree>, dirs: set<string>, entries: map<string, Tree>, changed: bool, n: string, p: Pass)
    requires src.Dir? && Finishing(o, at, src, es, dirs, {}, entries, changed) && n in src.entries && n in es && n !in dirs
    requires p == SecondEntry(o, at + [n], src.entries[n], Lookup(es, n)) && p.Completed?
    ensures Finishing(o, at, src, es, dirs + {n}, {}, entries[n := p.tree], changed || p.changed)
  {
    hide SecondEntry, Pruned;
    assert p.changed ==> Changed(SecondEntry(o, at + [n], src.entries[n], Lookup(es, n)));
  }

  function Without(entries: map<string, Tree>, n: string, rest: Option<Tree>): (r: map<string, Tree>) {
    if rest.Some? then entries[n := rest.value] else entries - {n}
  }

  lemma FinishingRemoval(o: Options, at: Path, src: Tree, es: map<string, Tree>, dirs: set<string>, gone: set<string>,
                         entries: map<string, Tree>, changed: bool, n: string)
    requires src.Dir? && Finishing(o, at, src, es, dirs, gone, entries, changed) && n in es && n !in dirs && n !in gone
    ensures var rest := Pruned(Remover(o), es[n], at + [n]);
            Finishing(o, at, src, es, dirs, gone + {n}, Without(entries, n, rest), changed || rest != Some(es[n]))
  {
    hide SecondEntry, Pruned, Changed;
    var rest := Pruned(Remover(o), es[n], at + [n]);
    var after := Without(entries, n, rest);
    assert forall m :: m != n ==> Lookup(after, m) == Lookup(entries, m);
    assert Lookup(after, n) == rest;
    var longer := gone + {n};
    assert forall m | m in after :: m == n || (m in entries && after[m] == entries[m]);
    assert (exists m | m in longer :: Pruned(Remover(o), es[m], at + [m]) != Some(es[m])) <==>
           ((exists m | m in gone :: Pruned(Remover(o), es[m], at + [m]) != Some(es[m])) || rest != Some(es[n]));
  }

  /** `walk(relative, finishing=True)`. */
  method SecondWalk(o: Options, at: Path, src: Tree, dst: Tree) returns (r: Pass)
    requires src.Dir?
    ensures r == SecondPass(o, at, src, dst)
    decreases src, 1
  {
    hide SecondEntry, Wanted, Conflicts, SecondEntries, SecondRaises, SecondChanges, Finishing, Doomed;
    if !dst.Dir? { return Raised; }
    var es := dst.entries;
    var names, conflict := WantedNames(o, at, src.entries, es);
    if conflict {
      SecondConflictRaises(o, at, src, es);
      return Raised;
    }
    forall n | n in names ensures n in src.entries { WantedIsSource(o, at, src, es, n); }
    var ok, entries, changed := FinishDirectories(o, at, src, es, names);
    if !ok { return Raised; }
    var doomed := DoomedNames(o, at, src.entries, es, names);
    entries, changed := RemoveNames(o, at, src, es, names, doomed, entries, changed);
    EndOfWalk(o, at, src, es, names, doomed, entries, changed);
    var mode := if o.preserveMode then src.mode else dst.mode;
    r := Completed(Dir(entries, mode), mode != dst.mode || changed);
  }

  ghost function Directories(src: Tree, names: set<string>): (r: set<string>)
    requires src.Dir? && names <= src.entries.Keys
  {
    set n | n in names && src.entries[n].Dir?
  }

  method DoomedNames(o: Options, at: Path, src: map<string, Tree>, es: map<string, Tree>, names: set<string>) returns (r: set<string>)
    requires forall n :: n in names <==> Wanted(o, at, src, es, n)
    ensures forall n :: n in r <==> Doomed(o, at, src, es, n)
    ensures r !! names && r <= es.Keys
  {
    if !o.delete && !o.deleteExcluded { return {}; }
    r := (set n | n in es && (o.deleteExcluded || !Protected(o, at, src, es, n))) - names;
  }

  method FinishDirectories(o: Options, at: Path, src: Tree, es: map<string, Tree>, names: set<string>)
    returns (ok: bool, entries: map<string, Tree>, changed: bool)
    requires src.Dir? && names <= src.entries.Keys && forall n | n in names :: Wanted(o, at, src.entries, es, n)
    ensures if ok then Finishing(o, at, src, es, Directories(src, names), {}, entries, changed) else SecondRaises(o, at, src, es)
    decreases src, 0
  {
    hide SecondEntry, SecondPass, Wanted, SecondRaises, Finishing;
    entries, changed := es, false;
    StartOfFinish(o, at, src, es);
    var todo := set n | n in names && src.entries[n].Dir?;
    ghost var done: set<string> := {};
    while todo != {}
      invariant todo <= Directories(src, names) && done == Directories(src, names) - todo
      invariant Finishing(o, at, src, es, done, {}, entries, changed)
      decreases |todo|
    {
      var n :| n in todo;
      SecondDirectoryEntry(o, at + [n], src.entries[n], Lookup(es, n));
      if n !in es {
        SecondEntryRaises(o, at, src, es, n);
        return false, entries, changed;
      }
      var p := SecondWalk(o, at + [n], src.entries[n], es[n]);
      if p.Raised? {
        SecondEntryRaises(o, at, src, es, n);
        return false, entries, changed;
      }
      FinishingDirectory(o, at, src, es, done, entries, changed, n, p);
      todo, done := todo - {n}, done + {n};
      entries, changed := entries[n := p.tree], changed || p.changed;
    }
    assert done == Directories(src, names);
    ok := true;
  }

  method RemoveNames(o: Options, at: Path, src: Tree, es: map<string, Tree>, names: set<string>, doomed: set<string>,
                     before: map<string, Tree>, changedBefore: bool)
    returns (entries: map<string, Tree>, changed: bool)
    requires src.Dir? && names <= src.entries.Keys && doomed !! names && doomed <= es.Keys
    requires Finishing(o, at, src, es, Directories(src, names), {}, before, changedBefore)
    ensures Finishing(o, at, src, es, Directories(src, names), doomed, entries, changed)
  {
    hide Finishing, Pruned, Gone;
    entries, changed := before, changedBefore;
    var todo := doomed;
    ghost var done: set<string> := {};
    while todo != {}
      invariant todo <= doomed && done == doomed - todo
      invariant Finishing(o, at, src, es, Directories(src, names), done, entries, changed)
      decreases |todo|
    {
      var n :| n in todo;
      FinishingRemoval(o, at, src, es, Directories(src, names), done, entries, changed, n);
      var rest, count := Remove(Remover(o), es[n], at + [n]);
      CountTells(Remover(o), es[n], at + [n]);
      todo, done := todo - {n}, done + {n};
      entries, changed := Without(entries, n, rest), changed || count > 0;
    }
    assert done == doomed;
  }

  /** The number of removed entries tells whether anything was removed. */
  lemma CountTells(ex: Exclusion, t: Tree, at: Path)
    ensures |Gone(ex, t, at)| > 0 <==> Pruned(ex, t, at) != Some(t)
  {
    if Pruned(ex, t, at) == Some(t) {
      forall p | p in Paths(t) ensures AtOption(Pruned(ex, t, at), p).Some? { PathsAt(t, p); }
      assert Gone(ex, t, at) == {};
    } else {
      var p := SomethingGone(ex, t, at);
      assert p in Gone(ex, t, at);
    }
  }

  lemma {:induction false} SomethingGone(ex: Exclusion, t: Tree, at: Path) returns (p: Path)
    requires Pruned(ex, t, at) != Some(t)
    ensures p in Paths(t) && AtOption(Pruned(ex, t, at), p).None?
    decreases t
  {
    p := [];
    if Pruned(ex, t, at).Some? {
      PrunedShape(ex, t, at);
      var r := Pruned(ex, t, at).value;
      if n :| n in t.entries && Pruned(ex, t.entries[n], at + [n]) != Some(t.entries[n]) {
        var q := SomethingGone(ex, t.entries[n], at + [n]);
        p := [n] + q;
        assert p[1..] == q;
        AtBelow(Some(r), p);
        assert Lookup(EntriesOf(Some(r)), n) == Pruned(ex, t.entries[n], at + [n]);
      } else {
        AllUnchanged(ex, t, at);
        assert false;
      }
    }
  }

  lemma AllUnchanged(ex: Exclusion, t: Tree, at: Path)
    requires t.Dir? && !ex(at, KindOf(t)) && Pruned(ex, t, at).Some?
    requires forall n | n in t.entries :: Pruned(ex, t.entries[n], at + [n]) == Some(t.entries[n])
    ensures Pruned(ex, t, at) == Some(t)
  {
    PrunedShape(ex, t, at);
    assert Pruned(ex, t, at).value.entries == t.entries;
  }

  lemma SecondDirectoryEntry(o: Options, at: Path, src: Tree, dst: Option<Tree>)
    requires src.Dir?
    ensures SecondEntry(o, at, src, dst) == if dst.None? then Raised else SecondPass(o, at, src, dst.value)
  {
  }

  lemma SecondConflictRaises(o: Options, at: Path, src: Tree, es: map<string, Tree>)
    requires src.Dir? && exists n | n in src.entries :: Wanted(o, at, src.entries, es, n) && Conflicts(src.entries[n], Lookup(es, n))
    ensures SecondRaises(o, at, src, es)
  {
    hide SecondEntry;
  }

  lemma SecondEntryRaises(o: Options, at: Path, src: Tree, es: map<string, Tree>, n: string)
    requires src.Dir? && n in src.entries && Wanted(o, at, src.entries, es, n) && SecondEntry(o, at + [n], src.entries[n], Lookup(es, n)).Raised?
    ensures SecondRaises(o, at, src, es)
  {
    hide SecondEntry, Wanted;
  }

  lemma StartOfFinish(o: Options, at: Path, src: Tree, es: map<string, Tree>)
    requires src.Dir?
    ensures Finishing(o, at, src, es, {}, {}, es, false)
  {
  }

  lemma LeafEntry(o: Options, at: Path, src: Tree, dst: Option<Tree>)
    requires !src.Dir?
    ensures var p := SecondEntry(o, at, src, dst); p.Completed? && !p.changed && (dst.Some? ==> p.tree == dst.value)
  {
  }

  lemma EndOfWalk(o: Options, at: Path, src: Tree, es: map<string, Tree>, names: set<string>, doomed: set<string>,
                  entries: map<string, Tree>, changed: bool)
    requires src.Dir? && names <= src.entries.Keys && (forall n :: n in names <==> Wanted(o, at, src.entries, es, n))
    requires forall n :: n in doomed <==> Doomed(o, at, src.entries, es, n)
    requires !exists n | n in src.entries :: Wanted(o, at, src.entries, es, n) && Conflicts(src.entries[n], Lookup(es, n))
    requires Finishing(o, at, src, es, Directories(src, names), doomed, entries, changed)
    ensures !SecondRaises(o, at, src, es) && entries == SecondEntries(o, at, src, es) && changed == SecondChanges(o, at, src, es)
  {
    hide SecondEntry, Wanted, Conflicts, Doomed, Pruned, SecondEntries;
    forall n | n in names && n !in Directories(src, names)
      ensures var p := SecondEntry(o, at + [n], src.entries[n], Lookup(es, n)); p.Completed? && !p.changed && (n in es ==> p.tree == es[n])
    {
      LeafEntry(o, at + [n], src.entries[n], Lookup(es, n));
    }
    assert !SecondRaises(o, at, src, es);
    SecondShape(o, at, src, es);
    var r := SecondEntries(o, at, src, es);
    assert forall n :: n in entries <==> n in r;
    forall n | n in entries ensures entries[n] == r[n] { }
    assert entries == r;
  }

  /** `transfer`: the first walk, then the finishing one. */
  method RunTransfer(o: Options, src: Tree, dst: Option<Tree>) returns (r: Pass)
    requires src.Dir?
    ensures r == Transfer(o, src, dst)
  {
    hide FirstPass, SecondPass;
    var first := FirstWalk(o, [], src, dst);
    if first.Raised? { return Raised; }
    var second := SecondWalk(o, [], src, first.tree);
    if second.Raised? { return Raised; }
    r := Completed(second.tree, first.changed || second.changed);
  }
}
