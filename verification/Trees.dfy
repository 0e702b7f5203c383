/**
 Directory trees and what `rmote/tools/rsync.py` does to them: `remove`, and the two passes of `walk`.
 */
module Trees {
  import opened Prelude

  // ---------------------------------------------------------------- trees

  datatype Kind = FileKind | LinkKind | DirectoryKind | SpecialKind

  datatype Tree =
    | File(content: Data, mode: int)
    | Link(target: string)
    | Special
    | Dir(entries: map<string, Tree>, mode: int)

  type Path = seq<string>

  function KindOf(t: Tree): (k: Kind) {
    match t
    case File(_, _) => FileKind
    case Link(_) => LinkKind
    case Special => SpecialKind
    case Dir(_, _) => DirectoryKind
  }

  function Lookup(entries: map<string, Tree>, name: string): (t: Option<Tree>) {
    if name in entries then Some(entries[name]) else None
  }

  /** The entry at a path. */
  function At(t: Tree, p: Path): (r: Option<Tree>)
    decreases |p|
  {
    if p == [] then Some(t)
    else if t.Dir? && p[0] in t.entries then At(t.entries[p[0]], p[1..])
    else None
  }

  /** Whether a path is excluded, by its names and the kind of the entry there. */
  type Exclusion = (Path, Kind) -> bool

  function Nothing(p: Path, k: Kind): (r: bool) { false }

  datatype Options = Options(delete: bool, deleteExcluded: bool, preserveMode: bool, excluded: Exclusion)

  const NEW_DIRECTORY: int := 448  // 0700
  const NEW_FILE: int := 384       // 0600

  // ---------------------------------------------------------------- remove

  /** What `remove` leaves of a tree: excluded entries with all below them, and the parents they need. */
  function Pruned(ex: Exclusion, t: Tree, at: Path): (r: Option<Tree>)
    decreases t
  {
    if ex(at, KindOf(t)) then Some(t)
    else if !t.Dir? then None
    else
      var kept := map n | n in t.entries && Pruned(ex, t.entries[n], at + [n]).Some? :: Pruned(ex, t.entries[n], at + [n]).value;
      if kept == map[] then None else Some(Dir(kept, t.mode))
  }

  // ---------------------------------------------------------------- walk

  /** Exclusion on either side protects the name. */
  predicate Protected(o: Options, at: Path, src: map<string, Tree>, dst: map<string, Tree>, n: string) {
    || (n in src && o.excluded(at + [n], KindOf(src[n])))
    || (n in dst && o.excluded(at + [n], KindOf(dst[n])))
  }

  /** The source entries that are transferred. */
  predicate Wanted(o: Options, at: Path, src: map<string, Tree>, dst: map<string, Tree>, n: string) {
    n in src && !Protected(o, at, src, dst, n)
  }

  /** A special source entry, or another kind at the destination. */
  predicate Conflicts(src: Tree, dst: Option<Tree>) {
    src.Special? || (dst.Some? && KindOf(dst.value) != KindOf(src))
  }

  /** The destination entries that the second pass removes. */
  predicate Doomed(o: Options, at: Path, src: map<string, Tree>, dst: map<string, Tree>, n: string) {
    && (o.delete || o.deleteExcluded)
    && n in dst && !Wanted(o, at, src, dst, n)
    && (o.deleteExcluded || !Protected(o, at, src, dst, n))
  }

  function Remover(o: Options): (ex: Exclusion) { if o.deleteExcluded then Nothing else o.excluded }

  /** A file after its content was exchanged and its mode set. */
  function CopiedFile(o: Options, src: Tree, dst: Option<Tree>): (t: Tree)
    requires src.File?
  {
    File(src.content, if o.preserveMode then src.mode else if dst.Some? && dst.value.File? then dst.value.mode else NEW_FILE)
  }

  function EntriesOf(dst: Option<Tree>): (es: map<string, Tree>) { if dst.Some? && dst.value.Dir? then dst.value.entries else map[] }

  /** A completed pass: the destination after it, and whether it reported a change. */
  datatype Pass = Raised | Completed(tree: Tree, changed: bool)

  /** `walk(relative)`, with the transfers it starts. */
  function FirstPass(o: Options, at: Path, src: Tree, dst: Option<Tree>): (r: Pass)
    requires src.Dir?
    decreases src, 4
  {
    if (dst.Some? && !dst.value.Dir?) || FirstRaises(o, at, src, EntriesOf(dst)) then Raised
    else
      Completed(Dir(FirstEntries(o, at, src, EntriesOf(dst)), if dst.Some? then dst.value.mode else NEW_DIRECTORY),
                dst.None? || FirstChanges(o, at, src, EntriesOf(dst)))
  }

  predicate FirstRaises(o: Options, at: Path, src: Tree, es: map<string, Tree>)
    requires src.Dir?
    decreases src, 2
  {
    exists n | n in src.entries :: Wanted(o, at, src.entries, es, n) &&
      (Conflicts(src.entries[n], Lookup(es, n)) || FirstEntry(o, at + [n], src.entries[n], Lookup(es, n)).Raised?)
  }

  function FirstEntries(o: Options, at: Path, src: Tree, es: map<string, Tree>): (r: map<string, Tree>)
    requires src.Dir? && !FirstRaises(o, at, src, es)
    decreases src, 3
  {
    map n | n in es.Keys + src.entries.Keys && (n in es || Wanted(o, at, src.entries, es, n)) ::
      if Wanted(o, at, src.entries, es, n) then FirstEntry(o, at + [n], src.entries[n], Lookup(es, n)).tree else es[n]
  }

  predicate FirstChanges(o: Options, at: Path, src: Tree, es: map<string, Tree>)
    requires src.Dir?
    decreases src, 2
  {
    exists n | n in src.entries :: Wanted(o, at, src.entries, es, n) && Changed(FirstEntry(o, at + [n], src.entries[n], Lookup(es, n)))
  }

  predicate Changed(p: Pass) { p.Completed? && p.changed }

  /** One wanted entry in the first pass. */
  function FirstEntry(o: Options, at: Path, src: Tree, dst: Option<Tree>): (r: Pass)
    decreases src, 5
  {
    match src
    case File(_, _) => var t := CopiedFile(o, src, dst); Completed(t, dst != Some(t))
    case Link(target) => Completed(src, dst != Some(src))
    case Special => Raised
    case Dir(_, _) => FirstPass(o, at, src, dst)
  }

  /** `walk(relative, finishing=True)`. */
  function SecondPass(o: Options, at: Path, src: Tree, dst: Tree): (r: Pass)
    requires src.Dir?
    decreases src, 4
  {
    if !dst.Dir? || SecondRaises(o, at, src, dst.entries) then Raised
    else
      var mode := if o.preserveMode then src.mode else dst.mode;
      Completed(Dir(SecondEntries(o, at, src, dst.entries), mode), mode != dst.mode || SecondChanges(o, at, src, dst.entries))
  }

  predicate SecondRaises(o: Options, at: Path, src: Tree, es: map<string, Tree>)
    requires src.Dir?
    decreases src, 2
  {
    exists n | n in src.entries :: Wanted(o, at, src.entries, es, n) &&
      (Conflicts(src.entries[n], Lookup(es, n)) || SecondEntry(o, at + [n], src.entries[n], Lookup(es, n)).Raised?)
  }

  function SecondEntries(o: Options, at: Path, src: Tree, es: map<string, Tree>): (r: map<string, Tree>)
    requires src.Dir? && !SecondRaises(o, at, src, es)
    decreases src, 3
  {
    map n | n in es && (Doomed(o, at, src.entries, es, n) ==> Pruned(Remover(o), es[n], at + [n]).Some?) ::
      if Doomed(o, at, src.entries, es, n) then Pruned(Remover(o), es[n], at + [n]).value
      else if Wanted(o, at, src.entries, es, n) then SecondEntry(o, at + [n], src.entries[n], Lookup(es, n)).tree
      else es[n]
  }

  predicate SecondChanges(o: Options, at: Path, src: Tree, es: map<string, Tree>)
    requires src.Dir?
    decreases src, 2
  {
    || (exists n | n in src.entries :: Wanted(o, at, src.entries, es, n) && Changed(SecondEntry(o, at + [n], src.entries[n], Lookup(es, n))))
    || (exists n | n in es :: Doomed(o, at, src.entries, es, n) && Pruned(Remover(o), es[n], at + [n]) != Some(es[n]))
  }

  /** One wanted entry in the second pass: only directories are walked again. */
  function SecondEntry(o: Options, at: Path, src: Tree, dst: Option<Tree>): (r: Pass)
    decreases src, 5
  {
    if !src.Dir? then Completed(if dst.Some? then dst.value else src, false)
    else if dst.None? then Raised
    else SecondPass(o, at, src, dst.value)
  }

  /** `transfer`: the second pass starts when the first and all its transfers are done. */
  function Transfer(o: Options, src: Tree, dst: Option<Tree>): (r: Pass)
    requires src.Dir?
  {
    var first := FirstPass(o, [], src, dst);
    if first.Raised? then Raised
    else
      var second := SecondPass(o, [], src, first.tree);
      if second.Raised? then Raised else Completed(second.tree, first.changed || second.changed)
  }
}
