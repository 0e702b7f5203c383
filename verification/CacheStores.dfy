/**
 The stores of `rmote/cache`, changed in place: the in-memory cache, the JSON documents and the SQLite
 table. Each method is proved to apply the rule of its store.
 */
module CacheStores {
  import opened Prelude
  import opened Caches

  // ---------------------------------------------------------------- JSON documents

  /** A batch of `JSONCacheDir.write_entries`: `None` deletes the key. */
  type Changes = seq<(string, Option<Entry>)>

  predicate ValidChanges(c: Changes) { forall i | 0 <= i < |c| :: c[i].1.Some? ==> ValidEntry(c[i].1.value) }

  function Changed(s: Store, m: map<string, Entry>, c: Changes): (r: map<string, Entry>) {
    if c == [] then m
    else
      var n := |c| - 1;
      var before := Changed(s, m, c[..n]);
      if c[n].1.None? then before - {c[n].0} else Write(s, before, c[n].0, c[n].1.value)
  }

  function Written(batch: Entries): (c: Changes)
    ensures |c| == |batch| && forall i | 0 <= i < |c| :: c[i] == (batch[i].0, Some(batch[i].1))
  {
    seq(|batch|, i requires 0 <= i < |batch| => (batch[i].0, Some(batch[i].1)))
  }

  lemma {:induction false} WrittenIsWriteAll(s: Store, m: map<string, Entry>, batch: Entries)
    requires forall key, e :: s.takes(key, e) <==> ValidEntry(e)
    ensures Changed(s, m, Written(batch)) == WriteAll(s, m, batch)
    ensures ValidChanges(Written(batch)) <==> Takes(s, batch)
    decreases |batch|
  {
    if batch != [] {
      var n := |batch| - 1;
      assert Written(batch)[..n] == Written(batch[..n]);
      WrittenIsWriteAll(s, m, batch[..n]);
    }
    if ValidChanges(Written(batch)) {
      forall i | 0 <= i < |batch| ensures s.takes(batch[i].0, batch[i].1) { assert Written(batch)[i].1.Some?; }
    }
  }

  class JSONCacheDir {
    const float: Float
    var documents: map<string, map<string, Entry>>

    /** The document of a namespace; an absent file is an empty one. */
    function Document(namespace: string): (m: map<string, Entry>) reads this {
      if namespace in documents then documents[namespace] else map[]
    }

    /** What is on disk was encoded. */
    ghost predicate Valid() reads this { forall n | n in documents :: Fits(Documents(float), documents[n]) }

    constructor (float: Float)
      ensures Valid() && this.float == float && documents == map[]
    {
      this.float, documents := float, map[];
    }

    /**
     `write_entries`; false when an entry is invalid or the changed document cannot be encoded, and then
     nothing is stored. A document that no change touched is not encoded again.
     */
    method WriteEntries(namespace: string, changes: Changes) returns (ok: bool)
      requires Valid()
      modifies this
      ensures Valid()
      ensures ok <==> ValidChanges(changes) && Fits(Documents(float), Changed(Documents(float), old(Document(namespace)), changes))
      ensures Document(namespace) == if ok then Changed(Documents(float), old(Document(namespace)), changes) else old(Document(namespace))
      ensures forall other :: other != namespace ==> Document(other) == old(Document(other))
    {
      hide ValidEntry, Number;
      if !ValidChanges(changes) { return false; }
      if changes == [] { return true; }
      var document := Document(namespace);
      var changed := false;
      var i := 0;
      while i < |changes|
        invariant i <= |changes|
        invariant document == Changed(Documents(float), old(Document(namespace)), changes[..i])
        invariant !changed ==> document == old(Document(namespace))
      {
        assert changes[..i + 1][..i] == changes[..i];
        var key, value := changes[i].0, changes[i].1;
        if value.None? {
          if key in document {
            document, changed := document - {key}, true;
          }
        } else if !(key in document && float(Number(float, document[key].at)) > Number(float, value.value.at)) {
          document, changed := document[key := value.value], true;
        }
        i := i + 1;
      }
      assert changes[..|changes|] == changes;
      if !changed { return true; }
      if exists key | key in document :: document[key].data.Unencodable? { return false; }
      documents := documents[namespace := document];
      ok := true;
    }

    method SetMany(namespace: string, batch: Entries)
      requires Valid()
      modifies this
      ensures Valid() && Document(namespace) == Apply(Documents(float), old(Document(namespace)), Batch(batch))
      ensures forall other :: other != namespace ==> Document(other) == old(Document(other))
    {
      hide ValidEntry, Number, Changed, WriteAll;
      WrittenIsWriteAll(Documents(float), Document(namespace), batch);
      var ok := WriteEntries(namespace, Written(batch));
    }

    method DeleteKey(namespace: string, key: string)
      requires Valid()
      modifies this
      ensures Valid() && Document(namespace) == Apply(Documents(float), old(Document(namespace)), Delete(key))
      ensures forall other :: other != namespace ==> Document(other) == old(Document(other))
    {
      var changes: Changes := [(key, None)];
      assert changes[..0] == [];
      assert Changed(Documents(float), Document(namespace), []) == Document(namespace);
      var ok := WriteEntries(namespace, changes);
    }
  }

  // ---------------------------------------------------------------- the SQLite table

  /** The time column is REAL; the payload keeps the entry as it was. */
  datatype Row = Row(collectedAt: real, payload: Entry)

  lemma WriteNothing(s: Store, m: map<string, Entry>, batch: Entries)
    ensures WriteAll(s, m, batch[..0]) == m
  {
  }

  lemma WriteStep(s: Store, m: map<string, Entry>, batch: Entries, i: nat)
    requires i < |batch|
    ensures WriteAll(s, m, batch[..i + 1]) == Write(s, WriteAll(s, m, batch[..i]), batch[i].0, batch[i].1)
  {
    hide Write;
    assert batch[..i + 1][..i] == batch[..i];
  }

  lemma TableTakes(f: Float, batch: Entries)
    ensures Takes(Table(f), batch) <==> forall i | 0 <= i < |batch| :: Sound(batch[i].1) && Bindable(batch[i].1.at)
    ensures forall m :: Fits(Table(f), m)
  {
    hide Sound, Bindable;
  }

  class SQLiteCache {
    const float: Float
    var table: map<(string, string), Row>

    ghost predicate Valid() reads this { forall k | k in table :: table[k].collectedAt == float(Number(float, table[k].payload.at)) }

    function Get(namespace: string, key: string): (e: Option<Entry>) reads this {
      if (namespace, key) in table then Some(table[(namespace, key)].payload) else None
    }

    /** The rows of a namespace are what `m` holds. */
    ghost predicate Shows(namespace: string, m: map<string, Entry>) reads this {
      forall key :: Get(namespace, key) == if key in m then Some(m[key]) else None
    }

    constructor (float: Float)
      ensures this.float == float && table == map[] && Valid()
    {
      this.float, table := float, map[];
    }

    /** One row of the conditional upsert. */
    method Upsert(namespace: string, key: string, e: Entry, ghost m: map<string, Entry>)
      requires Valid() && Shows(namespace, m)
      modifies this
      ensures Valid() && Shows(namespace, Write(Table(float), m, key, e))
      ensures forall other, k :: other != namespace ==> Get(other, k) == old(Get(other, k))
    {
      var id := (namespace, key);
      assert key in m <==> Get(namespace, key).Some?;
      if id !in table || float(Number(float, e.at)) >= table[id].collectedAt {
        table := table[id := Row(float(Number(float, e.at)), e)];
      }
    }

    /**
     `write_entries`: the whole batch is encoded first, then bound and written row by row in one
     transaction, which is rolled back when a time cannot be bound.
     */
    method SetMany(namespace: string, batch: Entries, ghost m: map<string, Entry>) returns (ok: bool)
      requires Valid() && Shows(namespace, m)
      modifies this
      ensures ok <==> forall i | 0 <= i < |batch| :: Sound(batch[i].1) && Bindable(batch[i].1.at)
      ensures Valid() && Shows(namespace, Apply(Table(float), m, Batch(batch)))
      ensures !ok ==> table == old(table)
      ensures forall other, k :: other != namespace ==> Get(other, k) == old(Get(other, k))
    {
      hide Write, WriteAll, Takes, Fits, Number, Table, Bindable, Sound;
      TableTakes(float, batch);
      if exists i | 0 <= i < |batch| :: !Sound(batch[i].1) { return false; }
      WriteNothing(Table(float), m, batch);
      var before := table;
      var i := 0;
      while i < |batch|
        invariant i <= |batch| && Valid()
        invariant forall j | 0 <= j < i :: Bindable(batch[j].1.at)
        invariant Shows(namespace, WriteAll(Table(float), m, batch[..i]))
        invariant forall other, k :: other != namespace ==> Get(other, k) == old(Get(other, k))
      {
        if !Bindable(batch[i].1.at) {
          table := before;
          return false;
        }
        WriteStep(Table(float), m, batch, i);
        Upsert(namespace, batch[i].0, batch[i].1, WriteAll(Table(float), m, batch[..i]));
        i := i + 1;
      }
      assert batch[..|batch|] == batch;
      ok := true;
    }

    method DeleteKey(namespace: string, key: string, ghost m: map<string, Entry>)
      requires Valid() && Shows(namespace, m)
      modifies this
      ensures Valid() && Shows(namespace, Apply(Table(float), m, Delete(key)))
      ensures forall other, k :: other != namespace ==> Get(other, k) == old(Get(other, k))
    {
      hide Number, Table, WriteAll, Takes, Fits;
      assert Apply(Table(float), m, Delete(key)) == m - {key};
      table := table - {(namespace, key)};
      hide Apply;
      forall other, k ensures Get(other, k) == if other == namespace && k == key then None else old(Get(other, k)) {
        assert (other, k) in table <==> (other, k) in old(table) && !(other == namespace && k == key);
      }
    }
  }

  // ---------------------------------------------------------------- the cache in memory

  /** The keys of some values. */
  function Keys(values: seq<(string, Content)>): (r: set<string>)
    ensures forall i | 0 <= i < |values| :: values[i].0 in r
    ensures forall key | key in r :: exists i :: 0 <= i < |values| && values[i].0 == key
  {
    set i | 0 <= i < |values| :: values[i].0
  }

  function Projected(entries: map<string, Entry>): (r: map<string, Content>) { map k | k in entries :: entries[k].data }

  class Cache {
    const float: Float
    const versions: map<string, int>
    var namespace: Option<string>
    var entries: map<string, Entry>
    var data: map<string, Content>

    /** The values shown are those of the entries. */
    predicate Valid() reads this { data == Projected(entries) }

    function Version(key: string): (v: int) { if key in versions then versions[key] else 1 }

    constructor (float: Float, versions: map<string, int>)
      ensures Valid() && this.float == float && this.versions == versions && entries == map[] && namespace == None
    {
      this.float, this.versions, entries, data, namespace := float, versions, map[], map[], None;
    }

    /** `merge`; false when a key is empty, and then nothing changes. */
    method Merge(batch: Entries) returns (ok: bool)
      requires Valid()
      modifies this`entries, this`data
      ensures Valid() && (ok <==> forall i | 0 <= i < |batch| :: batch[i].0 != "")
      ensures entries == Apply(Memory(float), old(entries), Batch(batch))
    {
      var merged := entries;
      var i := 0;
      while i < |batch|
        invariant i <= |batch| && Valid() && entries == old(entries)
        invariant forall j | 0 <= j < i :: batch[j].0 != ""
        invariant merged == WriteAll(Memory(float), old(entries), batch[..i])
      {
        var key, entry := batch[i].0, batch[i].1;
        if key == "" {
          assert !Memory(float).takes(batch[i].0, batch[i].1);
          return false;
        }
        assert batch[..i + 1][..i] == batch[..i];
        if key !in merged || Number(float, merged[key].at) <= Number(float, entry.at) { merged := merged[key := entry]; }
        i := i + 1;
      }
      assert batch[..|batch|] == batch;
      entries := merged;
      data := map k | k in merged :: merged[k].data;
      ok := true;
    }

    function Stamped(values: seq<(string, Content)>, at: Time): (batch: Entries) {
      seq(|values|, i requires 0 <= i < |values| => (values[i].0, Entry(values[i].1, at, Version(values[i].0))))
    }

    /** `update`: one time for all values, refused as a whole. */
    method Update(values: seq<(string, Content)>, at: Time) returns (ok: bool)
      requires Valid()
      modifies this
      ensures Valid() && (ok <==> ValidTime(at) && forall i | 0 <= i < |values| :: values[i].0 != "")
      ensures !ok ==> entries == old(entries)
      ensures ok ==> forall i | 0 <= i < |values| && values[i].0 !in Keys(values[i + 1..]) ::
                var key := values[i].0;
                key in entries && key in data &&
                if key in old(entries) && Number(float, old(entries)[key].at) > Number(float, at)
                then entries[key] == old(entries)[key]
                else entries[key] == Entry(values[i].1, at, if key in versions then versions[key] else 1) && data[key] == values[i].1
      ensures forall key | key !in Keys(values) :: key in entries <==> key in old(entries)
      ensures forall key | key in old(entries) && key !in Keys(values) :: key in entries && entries[key] == old(entries)[key]
      ensures entries == if ValidTime(at) then Apply(Memory(float), old(entries), Batch(Stamped(values, at))) else old(entries)
    {
      hide Number, WriteAll, Projected, Keys;
      if !ValidTime(at) { return false; }
      ghost var batch := Stamped(values, at);
      assert forall i | 0 <= i < |values| :: batch[i].0 == values[i].0;
      ok := Merge(Stamped(values, at));
      if ok {
        forall i | 0 <= i < |values| ensures values[i].0 != "" { assert batch[i].0 != ""; }
        forall i | 0 <= i < |values| && values[i].0 !in Keys(values[i + 1..])
          ensures values[i].0 in entries && entries[values[i].0] ==
                  if values[i].0 in old(entries) && Number(float, old(entries)[values[i].0].at) > Number(float, at) then old(entries)[values[i].0]
                  else Entry(values[i].1, at, if values[i].0 in versions then versions[values[i].0] else 1)
        {
          LastOfValues(values, at, i);
          WrittenAtOnce(float, old(entries), batch, at, i);
        }
        forall key | key !in Keys(values) ensures key in entries <==> key in old(entries) { OtherKeys(values, at, old(entries), key); }
        forall key | key in old(entries) && key !in Keys(values) ensures key in entries && entries[key] == old(entries)[key] {
          OtherKeys(values, at, old(entries), key);
        }
        DataShown();
      }
    }

    lemma DataShown()
      requires Valid()
      ensures forall key | key in entries :: key in data && data[key] == entries[key].data
    {
    }

    lemma LastOfValues(values: seq<(string, Content)>, at: Time, i: nat)
      requires i < |values| && values[i].0 !in Keys(values[i + 1..])
      ensures IsLast(Stamped(values, at), i) && forall j | 0 <= j < |values| :: Stamped(values, at)[j].1.at == at
    {
      var batch := Stamped(values, at);
      forall j | i < j < |batch| ensures batch[j].0 != batch[i].0 { assert values[i + 1..][j - i - 1] == values[j]; }
    }

    lemma OtherKeys(values: seq<(string, Content)>, at: Time, m: map<string, Entry>, key: string)
      requires key !in Keys(values)
      ensures var r := WriteAll(Memory(float), m, Stamped(values, at)); (key in r <==> key in m) && (key in m ==> r[key] == m[key])
    {
      hide WriteAll;
      var batch := Stamped(values, at);
      forall j | 0 <= j < |batch| ensures batch[j].0 != key { assert values[j].0 in Keys(values); }
      Untouched(Memory(float), m, batch, key);
    }

    /** What a load takes from the backend: the selected keys with the version expected here. */
    predicate Selected(keys: Option<set<string>>, entry: (string, Entry)) {
      (keys.None? || entry.0 in keys.value) && entry.1.version == Version(entry.0)
    }

    function Compatible(keys: Option<set<string>>, loaded: Entries): (r: Entries)
      ensures forall e :: e in r <==> e in loaded && Selected(keys, e)
    {
      if loaded == [] then []
      else
        var n := |loaded| - 1;
        assert loaded == loaded[..n] + [loaded[n]];
        Compatible(keys, loaded[..n]) + if Selected(keys, loaded[n]) then [loaded[n]] else []
    }

    /** A namespace that this cache may be bound to. */
    predicate Binds(n: string) reads this { n != "" && (namespace == None || namespace == Some(n)) }

    /**
     `load`, with what the backend returned: it is refused for an empty key among the selected ones, for
     another namespace, and for an empty key among those taken; then the entries stay as they are.
     */
    method Load(name: string, keys: Option<set<string>>, loaded: Entries) returns (ok: bool)
      requires Valid()
      modifies this
      ensures ok <==> && (keys.Some? ==> "" !in keys.value) && old(Binds(name))
                      && forall i | 0 <= i < |loaded| :: Selected(keys, loaded[i]) ==> loaded[i].0 != ""
      ensures Valid() && (ok ==> entries == Apply(Memory(float), old(entries), Batch(Compatible(keys, loaded)))) && (!ok ==> entries == old(entries))
      ensures ok && Dictionary(loaded) ==> forall i | 0 <= i < |loaded| :: Merged(old(entries), entries, keys, loaded[i].0, loaded[i].1)
      ensures forall key | forall i | 0 <= i < |loaded| :: loaded[i].0 != key :: Kept(old(entries), entries, key)
      ensures namespace == if (keys.Some? ==> "" !in keys.value) && old(Binds(name)) then Some(name) else old(namespace)
    {
      if (keys.Some? && "" in keys.value) || !Binds(name) { return false; }
      namespace := Some(name);
      var selected: Entries := [];
      var i := 0;
      while i < |loaded|
        invariant i <= |loaded| && selected == Compatible(keys, loaded[..i])
      {
        assert loaded[..i + 1][..i] == loaded[..i];
        if Selected(keys, loaded[i]) { selected := selected + [loaded[i]]; }
        i := i + 1;
      }
      assert loaded[..|loaded|] == loaded;
      ghost var before := entries;
      ok := Merge(selected);
      SameKeys(keys, loaded, selected);
      MergedAll(keys, loaded, before, entries, ok);
    }

    /** Nothing happened to a key. */
    static predicate Kept(before: map<string, Entry>, after: map<string, Entry>, key: string) {
      (key in after <==> key in before) && (key in before ==> after[key] == before[key])
    }

    /** A loaded entry is there if it was asked for, has the expected version, and no newer one was held. */
    predicate Merged(before: map<string, Entry>, after: map<string, Entry>, keys: Option<set<string>>, key: string, e: Entry) {
      if (keys.None? || key in keys.value) && e.version == (if key in versions then versions[key] else 1)
      then key in after && after[key] == if key in before && Number(float, before[key].at) > Number(float, e.at) then before[key] else e
      else Kept(before, after, key)
    }

    lemma {:induction false} CompatibleDictionary(keys: Option<set<string>>, loaded: Entries)
      requires Dictionary(loaded)
      ensures Dictionary(Compatible(keys, loaded))
      decreases |loaded|
    {
      hide Selected;
      if loaded != [] {
        var n := |loaded| - 1;
        CompatibleDictionary(keys, loaded[..n]);
        var front := Compatible(keys, loaded[..n]);
        forall i | 0 <= i < |front| ensures front[i].0 != loaded[n].0 {
          assert front[i] in loaded[..n];
          var j :| 0 <= j < n && loaded[j] == front[i];
        }
      }
    }

    lemma MergedAll(keys: Option<set<string>>, loaded: Entries, before: map<string, Entry>, after: map<string, Entry>, ok: bool)
      requires after == if ok then WriteAll(Memory(float), before, Compatible(keys, loaded)) else before
      ensures ok && Dictionary(loaded) ==> forall i | 0 <= i < |loaded| :: Merged(before, after, keys, loaded[i].0, loaded[i].1)
      ensures forall key | forall i | 0 <= i < |loaded| :: loaded[i].0 != key :: Kept(before, after, key)
    {
      hide WriteAll, Compatible, Merged, Kept, Number, Dictionary;
      if ok && Dictionary(loaded) {
        forall i | 0 <= i < |loaded| ensures Merged(before, after, keys, loaded[i].0, loaded[i].1) { MergedOne(keys, loaded, before, i); }
      }
      forall key | forall i | 0 <= i < |loaded| :: loaded[i].0 != key ensures Kept(before, after, key) {
        if ok { NotLoaded(keys, loaded, before, key); } else { NothingHappens(before, key); }
      }
    }

    static lemma NothingHappens(m: map<string, Entry>, key: string)
      ensures Kept(m, m, key)
    {
    }

    lemma NotLoaded(keys: Option<set<string>>, loaded: Entries, m: map<string, Entry>, key: string)
      requires forall i | 0 <= i < |loaded| :: loaded[i].0 != key
      ensures Kept(m, WriteAll(Memory(float), m, Compatible(keys, loaded)), key)
    {
      hide WriteAll, Compatible, Selected;
      var taken := Compatible(keys, loaded);
      forall j | 0 <= j < |taken| ensures taken[j].0 != key {
        assert taken[j] in loaded;
        var i :| 0 <= i < |loaded| && loaded[i] == taken[j];
      }
      Untouched(Memory(float), m, taken, key);
    }

    lemma MergedOne(keys: Option<set<string>>, loaded: Entries, m: map<string, Entry>, i: nat)
      requires Dictionary(loaded) && i < |loaded|
      ensures Merged(m, WriteAll(Memory(float), m, Compatible(keys, loaded)), keys, loaded[i].0, loaded[i].1)
    {
      hide WriteAll, Compatible, Number;
      var taken := Compatible(keys, loaded);
      CompatibleDictionary(keys, loaded);
      if Selected(keys, loaded[i]) {
        assert loaded[i] in taken;
        var j :| 0 <= j < |taken| && taken[j] == loaded[i];
        WrittenAt(Memory(float), m, taken, j);
      } else {
        forall j | 0 <= j < |taken| ensures taken[j].0 != loaded[i].0 {
          assert taken[j] in taken;
          var k :| 0 <= k < |loaded| && loaded[k] == taken[j];
          assert Selected(keys, loaded[k]) && k != i;
        }
        Untouched(Memory(float), m, taken, loaded[i].0);
      }
    }

    lemma SameKeys(keys: Option<set<string>>, loaded: Entries, taken: Entries)
      requires forall e :: e in taken <==> e in loaded && Selected(keys, e)
      ensures (forall i | 0 <= i < |taken| :: taken[i].0 != "") <==>
              (forall i | 0 <= i < |loaded| :: Selected(keys, loaded[i]) ==> loaded[i].0 != "")
    {
      hide Selected;
      if forall i | 0 <= i < |taken| :: taken[i].0 != "" {
        forall i | 0 <= i < |loaded| && Selected(keys, loaded[i]) ensures loaded[i].0 != "" {
          assert loaded[i] in taken;
          var j :| 0 <= j < |taken| && taken[j] == loaded[i];
        }
      }
      if forall i | 0 <= i < |loaded| :: Selected(keys, loaded[i]) ==> loaded[i].0 != "" {
        forall i | 0 <= i < |taken| ensures taken[i].0 != "" {
          assert taken[i] in taken;
          var j :| 0 <= j < |loaded| && loaded[j] == taken[i];
          assert Selected(keys, loaded[j]);
        }
      }
    }

    /** `invalidate`: `None` selects every key. */
    method Invalidate(keys: Option<set<string>>) returns (ok: bool)
      requires Valid()
      modifies this
      ensures Valid() && (ok <==> keys.None? || "" !in keys.value)
      ensures entries == if !ok then old(entries) else if keys.None? then map[] else old(entries) - keys.value
    {
      if keys.Some? && "" in keys.value { return false; }
      var removed := if keys.Some? then keys.value else versions.Keys + entries.Keys;
      entries := map k | k in entries && k !in removed :: entries[k];
      data := map k | k in entries :: entries[k].data;
      ok := true;
    }
  }
}
