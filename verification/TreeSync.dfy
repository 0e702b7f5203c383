/**
 The two passes of a completed transfer amount to one merge of the trees, computed entry by entry; a
 transfer completes exactly when no wanted entry conflicts, and reports a change exactly when it made one.
 */
module TreeSync {
  import opened Prelude
  import opened Trees

  // ---------------------------------------------------------------- the merge

  function Merged(o: Options, at: Path, src: Tree, dst: Option<Tree>): (t: Tree)
    requires src.Dir?
    ensures t.Dir?
    decreases src, 1
  {
    var es := EntriesOf(dst);
    var entries := map n | n in es.Keys + src.entries.Keys && Stays(o, at, src.entries, es, n) ::
      if Wanted(o, at, src.entries, es, n) then MergedEntry(o, at + [n], src.entries[n], Lookup(es, n)) else Left(o, at, src.entries, es, n);
    Dir(entries, if o.preserveMode then src.mode else if dst.Some? && dst.value.Dir? then dst.value.mode else NEW_DIRECTORY)
  }

  function MergedEntry(o: Options, at: Path, src: Tree, dst: Option<Tree>): (t: Tree)
    ensures KindOf(t) == KindOf(src)
    decreases src, 2
  {
    match src
    case File(_, _) => CopiedFile(o, src, dst)
    case Link(_) => src
    case Special => src
    case Dir(_, _) => Merged(o, at, src, dst)
  }

  /** Whether the name is there at the end. */
  predicate Stays(o: Options, at: Path, src: map<string, Tree>, dst: map<string, Tree>, n: string) {
    || Wanted(o, at, src, dst, n)
    || (n in dst && (Doomed(o, at, src, dst, n) ==> Pruned(Remover(o), dst[n], at + [n]).Some?))
  }

  /** An entry that is not transferred: untouched, or what `remove` leaves of it. */
  function Left(o: Options, at: Path, src: map<string, Tree>, dst: map<string, Tree>, n: string): (t: Tree)
    requires Stays(o, at, src, dst, n) && !Wanted(o, at, src, dst, n)
  {
    if Doomed(o, at, src, dst, n) then Pruned(Remover(o), dst[n], at + [n]).value else dst[n]
  }

  /** No wanted entry is special or meets another kind at the destination. */
  predicate NoConflict(o: Options, at: Path, src: Tree, dst: Option<Tree>)
    requires src.Dir?
    decreases src
  {
    && (dst.Some? ==> dst.value.Dir?)
    && forall n | n in src.entries :: Wanted(o, at, src.entries, EntriesOf(dst), n) ==>
         && !Conflicts(src.entries[n], Lookup(EntriesOf(dst), n))
         && (src.entries[n].Dir? ==> NoConflict(o, at + [n], src.entries[n], Lookup(EntriesOf(dst), n)))
  }

  // ---------------------------------------------------------------- the first pass

  predicate FirstIs(o: Options, at: Path, src: Tree, dst: Option<Tree>, r: Pass)
    requires src.Dir?
  {
    && (r.Completed? <==> NoConflict(o, at, src, dst))
    && (r.Completed? ==> r.tree.Dir? && (r.changed <==> dst != Some(r.tree)))
  }

  lemma {:induction false} FirstMeans(o: Options, at: Path, src: Tree, dst: Option<Tree>)
    requires src.Dir?
    ensures FirstIs(o, at, src, dst, FirstPass(o, at, src, dst))
    decreases src, 1
  {
    hide Wanted, Conflicts, FirstEntry, FirstEntries, FirstChanges;
    var es := EntriesOf(dst);
    forall n | n in src.entries && !Conflicts(src.entries[n], Lookup(es, n))
      ensures EntryIs(o, at + [n], src.entries[n], Lookup(es, n), FirstEntry(o, at + [n], src.entries[n], Lookup(es, n)))
    {
      EntryMeans(o, at + [n], src.entries[n], Lookup(es, n));
    }
    if !FirstRaises(o, at, src, es) { FirstChangesExactly(o, at, src, es); }
  }

  lemma FirstChangesExactly(o: Options, at: Path, src: Tree, es: map<string, Tree>)
    requires src.Dir? && !FirstRaises(o, at, src, es)
    requires forall n | n in src.entries && !Conflicts(src.entries[n], Lookup(es, n)) ::
               EntryIs(o, at + [n], src.entries[n], Lookup(es, n), FirstEntry(o, at + [n], src.entries[n], Lookup(es, n)))
    ensures FirstChanges(o, at, src, es) <==> FirstEntries(o, at, src, es) != es
  {
    hide Wanted, Conflicts, FirstEntry;
    var r := FirstEntries(o, at, src, es);
    if FirstChanges(o, at, src, es) {
      var n :| n in src.entries && Wanted(o, at, src.entries, es, n) && Changed(FirstEntry(o, at + [n], src.entries[n], Lookup(es, n)));
      assert Lookup(r, n) != Lookup(es, n);
    } else {
      FirstKeys(o, at, src, es);
      forall n | n in es ensures n in r && r[n] == es[n] {
        if Wanted(o, at, src.entries, es, n) { WantedIsSource(o, at, src, es, n); }
      }
      forall n | n in r ensures n in es {
        if n !in es { WantedIsSource(o, at, src, es, n); }
      }
      assert r == es;
    }
  }

  lemma WantedIsSource(o: Options, at: Path, src: Tree, es: map<string, Tree>, n: string)
    requires src.Dir? && Wanted(o, at, src.entries, es, n)
    ensures n in src.entries
  {
  }

  lemma FirstKeys(o: Options, at: Path, src: Tree, es: map<string, Tree>)
    requires src.Dir? && !FirstRaises(o, at, src, es)
    ensures forall n :: n in FirstEntries(o, at, src, es) <==> n in es || Wanted(o, at, src.entries, es, n)
  {
    hide FirstEntry;
  }

  predicate EntryIs(o: Options, at: Path, src: Tree, dst: Option<Tree>, r: Pass) {
    && (r.Completed? <==> (src.Dir? ==> NoConflict(o, at, src, dst)))
    && (r.Completed? ==> KindOf(r.tree) == KindOf(src) && (r.changed <==> dst != Some(r.tree)))
  }

  lemma {:induction false} EntryMeans(o: Options, at: Path, src: Tree, dst: Option<Tree>)
    requires !Conflicts(src, dst)
    ensures EntryIs(o, at, src, dst, FirstEntry(o, at, src, dst))
    decreases src, 2
  {
    if src.Dir? { FirstMeans(o, at, src, dst); }
  }

  // ---------------------------------------------------------------- between the passes

  /** What the first pass leaves for the second: the same names are wanted and doomed. */
  lemma Between(o: Options, at: Path, src: Tree, es: map<string, Tree>, n: string)
    requires src.Dir? && !FirstRaises(o, at, src, es)
    ensures var es1 := FirstEntries(o, at, src, es);
            && (Wanted(o, at, src.entries, es1, n) <==> Wanted(o, at, src.entries, es, n))
            && (Doomed(o, at, src.entries, es1, n) <==> Doomed(o, at, src.entries, es, n))
            && (if Wanted(o, at, src.entries, es, n)
                then n in es1 && es1[n] == FirstEntry(o, at + [n], src.entries[n], Lookup(es, n)).tree && KindOf(es1[n]) == KindOf(src.entries[n])
                else Lookup(es1, n) == Lookup(es, n))
  {
    hide FirstEntry;
    FirstKeys(o, at, src, es);
    if Wanted(o, at, src.entries, es, n) { EntryMeans(o, at + [n], src.entries[n], Lookup(es, n)); }
  }

  // ---------------------------------------------------------------- the second pass

  /** The second pass completes the merge; what the first pass changed stays changed. */
  lemma {:induction false} SecondMeans(o: Options, at: Path, src: Tree, dst: Option<Tree>)
    requires src.Dir? && FirstPass(o, at, src, dst).Completed?
    ensures var first := FirstPass(o, at, src, dst);
            var t := Merged(o, at, src, dst);
            SecondPass(o, at, src, first.tree) == Completed(t, t != first.tree) && (first.changed ==> dst != Some(t))
    decreases src, 1
  {
    hide FirstEntry, SecondEntry, FirstEntries, SecondEntries, Merged, Wanted, Doomed, Conflicts, SecondRaises, SecondChanges, FirstChanges, FirstRaises;
    var es := EntriesOf(dst);
    var es1 := FirstEntries(o, at, src, es);
    forall n | n in src.entries && Wanted(o, at, src.entries, es, n)
      ensures EntrySettles(o, at + [n], src.entries[n], Lookup(es, n), Lookup(es1, n))
    {
      NoConflictThere(o, at, src, es, n);
      Between(o, at, src, es, n);
      SecondEntryMeans(o, at + [n], src.entries[n], Lookup(es, n));
    }
    SecondCompletes(o, at, src, es);
    SecondIsMerged(o, at, src, dst);
    SecondChangesExactly(o, at, src, es);
    MergedShape(o, at, src, dst);
    if FirstChanges(o, at, src, es) { ChangesStay(o, at, src, dst); }
  }

  lemma NoConflictThere(o: Options, at: Path, src: Tree, es: map<string, Tree>, n: string)
    requires src.Dir? && !FirstRaises(o, at, src, es) && n in src.entries && Wanted(o, at, src.entries, es, n)
    ensures !Conflicts(src.entries[n], Lookup(es, n)) && FirstEntry(o, at + [n], src.entries[n], Lookup(es, n)).Completed?
  {
    hide Wanted, Conflicts, FirstEntry;
  }

  /** One wanted entry, from the destination `dst` before the first pass to `half` before the second. */
  predicate EntrySettles(o: Options, at: Path, src: Tree, dst: Option<Tree>, half: Option<Tree>) {
    var t := MergedEntry(o, at, src, dst);
    && half.Some? && KindOf(half.value) == KindOf(src) && !src.Special?
    && FirstEntry(o, at, src, dst).Completed? && half == Some(FirstEntry(o, at, src, dst).tree)
    && SecondEntry(o, at, src, half) == Completed(t, t != half.value)
    && (Changed(FirstEntry(o, at, src, dst)) ==> dst != Some(t))
  }

  lemma {:induction false} SecondEntryMeans(o: Options, at: Path, src: Tree, dst: Option<Tree>)
    requires !Conflicts(src, dst) && FirstEntry(o, at, src, dst).Completed?
    ensures EntrySettles(o, at, src, dst, Some(FirstEntry(o, at, src, dst).tree))
    decreases src, 2
  {
    if src.Dir? {
      hide FirstPass, SecondPass, Merged;
      EntryMeans(o, at, src, dst);
      SecondMeans(o, at, src, dst);
    }
  }

  ghost predicate AllSettle(o: Options, at: Path, src: Tree, es: map<string, Tree>, es1: map<string, Tree>)
    requires src.Dir?
  {
    forall n | n in src.entries && Wanted(o, at, src.entries, es, n) ::
      EntrySettles(o, at + [n], src.entries[n], Lookup(es, n), Lookup(es1, n))
  }

  lemma SecondCompletes(o: Options, at: Path, src: Tree, es: map<string, Tree>)
    requires src.Dir? && !FirstRaises(o, at, src, es) && AllSettle(o, at, src, es, FirstEntries(o, at, src, es))
    ensures !SecondRaises(o, at, src, FirstEntries(o, at, src, es))
  {
    hide FirstEntry, SecondEntry, FirstEntries, Wanted, Doomed, MergedEntry;
    var es1 := FirstEntries(o, at, src, es);
    forall n | n in src.entries && Wanted(o, at, src.entries, es1, n)
      ensures !Conflicts(src.entries[n], Lookup(es1, n)) && SecondEntry(o, at + [n], src.entries[n], Lookup(es1, n)).Completed?
    {
      Between(o, at, src, es, n);
      assert EntrySettles(o, at + [n], src.entries[n], Lookup(es, n), Lookup(es1, n));
    }
  }

  /** The entries of the merge, name by name. */
  lemma MergedShape(o: Options, at: Path, src: Tree, dst: Option<Tree>)
    requires src.Dir?
    ensures var t, es := Merged(o, at, src, dst), EntriesOf(dst);
            && (forall n :: n in t.entries <==> Stays(o, at, src.entries, es, n))
            && (forall n | n in t.entries :: t.entries[n] ==
                  if Wanted(o, at, src.entries, es, n) then MergedEntry(o, at + [n], src.entries[n], Lookup(es, n)) else Left(o, at, src.entries, es, n))
            && t.mode == if o.preserveMode then src.mode else if dst.Some? && dst.value.Dir? then dst.value.mode else NEW_DIRECTORY
  {
    hide MergedEntry, Left, Doomed;
  }

  lemma SecondShape(o: Options, at: Path, src: Tree, es: map<string, Tree>)
    requires src.Dir? && !SecondRaises(o, at, src, es)
    ensures var r := SecondEntries(o, at, src, es);
            && (forall n :: n in r <==> n in es && (Doomed(o, at, src.entries, es, n) ==> Pruned(Remover(o), es[n], at + [n]).Some?))
            && (forall n | n in r :: r[n] ==
                  if Doomed(o, at, src.entries, es, n) then Pruned(Remover(o), es[n], at + [n]).value
                  else if Wanted(o, at, src.entries, es, n) then SecondEntry(o, at + [n], src.entries[n], Lookup(es, n)).tree
                  else es[n])
  {
    hide SecondEntry, Doomed, Pruned, Remover;
  }

  lemma SecondIsMerged(o: Options, at: Path, src: Tree, dst: Option<Tree>)
    requires src.Dir? && !FirstRaises(o, at, src, EntriesOf(dst))
    requires var es1 := FirstEntries(o, at, src, EntriesOf(dst));
             AllSettle(o, at, src, EntriesOf(dst), es1) && !SecondRaises(o, at, src, es1)
    ensures SecondEntries(o, at, src, FirstEntries(o, at, src, EntriesOf(dst))) == Merged(o, at, src, dst).entries
  {
    hide FirstEntry, SecondEntry, FirstEntries, SecondEntries, Merged, MergedEntry, Pruned, Remover, Conflicts, FirstRaises, SecondRaises;
    var es := EntriesOf(dst);
    var es1 := FirstEntries(o, at, src, es);
    var r, m := SecondEntries(o, at, src, es1), Merged(o, at, src, dst).entries;
    MergedShape(o, at, src, dst);
    SecondShape(o, at, src, es1);
    forall n ensures Lookup(r, n) == Lookup(m, n) {
      Between(o, at, src, es, n);
      if Wanted(o, at, src.entries, es, n) {
        assert EntrySettles(o, at + [n], src.entries[n], Lookup(es, n), Lookup(es1, n));
      }
    }
    SameMap(r, m);
  }

  lemma SameMap(a: map<string, Tree>, b: map<string, Tree>)
    requires forall n :: Lookup(a, n) == Lookup(b, n)
    ensures a == b
  {
    assert forall n :: (n in a <==> Lookup(a, n).Some?) && (n in b <==> Lookup(b, n).Some?);
    forall n | n in a ensures a[n] == b[n] { assert Lookup(a, n) == Lookup(b, n); }
  }

  lemma SecondChangesExactly(o: Options, at: Path, src: Tree, es: map<string, Tree>)
    requires src.Dir? && !FirstRaises(o, at, src, es)
    requires var es1 := FirstEntries(o, at, src, es); AllSettle(o, at, src, es, es1) && !SecondRaises(o, at, src, es1)
    ensures var es1 := FirstEntries(o, at, src, es);
            SecondChanges(o, at, src, es1) <==> SecondEntries(o, at, src, es1) != es1
  {
    hide FirstEntry, SecondEntry, FirstEntries, SecondEntries, MergedEntry, Pruned, Remover, Conflicts, FirstRaises, SecondRaises;
    var es1 := FirstEntries(o, at, src, es);
    var r := SecondEntries(o, at, src, es1);
    SecondShape(o, at, src, es1);
    forall n | n in src.entries && Wanted(o, at, src.entries, es1, n)
      ensures EntrySettles(o, at + [n], src.entries[n], Lookup(es, n), Lookup(es1, n))
    {
      Between(o, at, src, es, n);
    }
    if SecondChanges(o, at, src, es1) {
      if n :| n in src.entries && Wanted(o, at, src.entries, es1, n) && Changed(SecondEntry(o, at + [n], src.entries[n], Lookup(es1, n))) {
        assert Lookup(r, n) != Lookup(es1, n);
      } else {
        var n :| n in es1 && Doomed(o, at, src.entries, es1, n) && Pruned(Remover(o), es1[n], at + [n]) != Some(es1[n]);
        assert Lookup(r, n) != Lookup(es1, n);
      }
    } else {
      forall n ensures Lookup(r, n) == Lookup(es1, n) { }
      SameMap(r, es1);
    }
  }

  lemma ChangesStay(o: Options, at: Path, src: Tree, dst: Option<Tree>)
    requires src.Dir? && !FirstRaises(o, at, src, EntriesOf(dst)) && FirstChanges(o, at, src, EntriesOf(dst))
    requires AllSettle(o, at, src, EntriesOf(dst), FirstEntries(o, at, src, EntriesOf(dst)))
    ensures dst != Some(Merged(o, at, src, dst))
  {
    hide FirstEntry, SecondEntry, FirstEntries, Merged, MergedEntry, Conflicts, FirstRaises, Wanted;
    var es := EntriesOf(dst);
    var n :| n in src.entries && Wanted(o, at, src.entries, es, n) && Changed(FirstEntry(o, at + [n], src.entries[n], Lookup(es, n)));
    MergedShape(o, at, src, dst);
    assert EntrySettles(o, at + [n], src.entries[n], Lookup(es, n), Lookup(FirstEntries(o, at, src, es), n));
    assert Lookup(Merged(o, at, src, dst).entries, n) != Lookup(es, n);
  }

  /**
   `transfer` raises exactly when a wanted entry conflicts. Otherwise its two passes give the merge, and
   it reports a change exactly when the destination is not what it was.
   */
  lemma TransferIsMerge(o: Options, src: Tree, dst: Option<Tree>)
    requires src.Dir?
    ensures Transfer(o, src, dst) ==
            if NoConflict(o, [], src, dst) then
              var t := Merged(o, [], src, dst);
              Completed(t, dst != Some(t))
            else Raised
  {
    hide FirstPass, SecondPass, NoConflict, Merged;
    FirstMeans(o, [], src, dst);
    if NoConflict(o, [], src, dst) { SecondMeans(o, [], src, dst); }
  }
}
