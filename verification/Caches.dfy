/**
 The cache of `rmote/cache`: the rules by which the in-memory cache, the JSON documents and the SQLite
 table decide between two writes, and what a sequence of batches and deletions leaves under a key.
 A collection time is a Python int or float; conversion of an int to `float` is a parameter.
 */
module Caches {

  // ---------------------------------------------------------------- times

  /** `float(x)`: it keeps the order and does not change what it gives. */
  type Float = real -> real

  ghost predicate Rounds(f: Float) {
    (forall s, t :: s <= t ==> f(s) <= f(t)) && (forall t :: f(f(t)) == f(t))
  }

  /** A time as Python holds it; a float is the nearest one to its number. */
  datatype Time = IntTime(n: int) | FloatTime(x: real)

  /** The exact number, as Python compares it. */
  function Number(f: Float, t: Time): (r: real) {
    match t
    case IntTime(n) => n as real
    case FloatTime(x) => f(x)
  }

  function Power(n: nat): (r: int)
    ensures r > 0
  {
    if n == 0 then 1 else 2 * Power(n - 1)
  }

  /** The first int that `float`, and with it `math.isfinite`, refuses: it would round past the largest float. */
  function FloatLimit(): (n: int) { Power(1024) - Power(970) }

  /** The first int that the binding of a SQL parameter refuses. */
  const BIND_LIMIT: int := 0x8000_0000_0000_0000

  /** The data of an entry: what `json.dumps` can encode, or cannot. */
  datatype Content = Encodable(id: int) | Unencodable(id: int)

  datatype Entry = Entry(data: Content, at: Time, version: int)

  /** `JSONEntryCodec.validate`. */
  predicate ValidEntry(e: Entry) { ValidTime(e.at) && e.version >= 1 }

  predicate ValidTime(t: Time) {
    match t
    case IntTime(n) => 0 <= n < FloatLimit()
    case FloatTime(x) => 0.0 <= x
  }

  /** What `JSONEntryCodec.dumps` gives a text for. */
  predicate Sound(e: Entry) { ValidEntry(e) && e.data.Encodable? }

  /** What `sqlite3` can bind: an int of 2**63 or more raises `OverflowError`. */
  predicate Bindable(t: Time) { t.IntTime? ==> t.n < BIND_LIMIT }

  // ---------------------------------------------------------------- stores

  /**
   A store: whether a write supersedes what is there, by their times; which entries it takes, under which
   keys, before it writes any of a batch; and which entries it can hold once the batch is written.
   */
  datatype Store = Store(supersedes: (Time, Time) -> bool, takes: (string, Entry) -> bool, holds: Entry -> bool)

  /** `Cache.merge`: the key is all that it looks at. */
  function Memory(f: Float): (s: Store) {
    Store((stored, next) => Number(f, stored) <= Number(f, next), (key: string, e: Entry) => key != "", (e: Entry) => true)
  }

  /**
   `JSONCacheDir.write_entries`: the stored time is rounded, the new one is not. The data are encoded with
   the whole document, after the batch was merged into it.
   */
  function Documents(f: Float): (s: Store) {
    Store((stored, next) => !(f(Number(f, stored)) > Number(f, next)), (key: string, e: Entry) => ValidEntry(e), (e: Entry) => e.data.Encodable?)
  }

  /** `SQLiteCache.write_entries`: every entry is encoded first, and both times are in a REAL column. */
  function Table(f: Float): (s: Store) {
    Store((stored, next) => f(Number(f, next)) >= f(Number(f, stored)), (key: string, e: Entry) => Sound(e) && Bindable(e.at), (e: Entry) => true)
  }

  type Entries = seq<(string, Entry)>

  function Write(s: Store, m: map<string, Entry>, key: string, e: Entry): (r: map<string, Entry>) {
    if key in m && !s.supersedes(m[key].at, e.at) then m else m[key := e]
  }

  function WriteAll(s: Store, m: map<string, Entry>, batch: Entries): (r: map<string, Entry>) {
    if batch == [] then m
    else
      var n := |batch| - 1;
      Write(s, WriteAll(s, m, batch[..n]), batch[n].0, batch[n].1)
  }

  predicate Takes(s: Store, batch: Entries) { forall i | 0 <= i < |batch| :: s.takes(batch[i].0, batch[i].1) }

  predicate Fits(s: Store, m: map<string, Entry>) { forall k | k in m :: s.holds(m[k]) }

  // ---------------------------------------------------------------- operations on one namespace

  datatype Operation = Batch(entries: Entries) | Delete(key: string)

  /** A batch that the store does not take, or cannot hold when it is written, raises, and nothing of it is stored. */
  function Apply(s: Store, m: map<string, Entry>, op: Operation): (r: map<string, Entry>) {
    match op
    case Batch(es) => if Takes(s, es) && Fits(s, WriteAll(s, m, es)) then WriteAll(s, m, es) else m
    case Delete(key) => m - {key}
  }

  function Run(s: Store, ops: seq<Operation>): (r: map<string, Entry>) {
    if ops == [] then map[] else Apply(s, Run(s, ops[..|ops| - 1]), ops[|ops| - 1])
  }

  // ---------------------------------------------------------------- what was written under a key

  function Writes(batch: Entries, key: string): (es: seq<Entry>) {
    if batch == [] then []
    else
      var n := |batch| - 1;
      Writes(batch[..n], key) + if batch[n].0 == key then [batch[n].1] else []
  }

  /** The writes under a key since it was last deleted, in the batches that the store took. */
  function History(s: Store, ops: seq<Operation>, key: string): (es: seq<Entry>) {
    if ops == [] then []
    else
      var before := History(s, ops[..|ops| - 1], key);
      match ops[|ops| - 1]
      case Batch(es) => if Takes(s, es) then before + Writes(es, key) else before
      case Delete(k) => if k == key then [] else before
  }

  /** The latest write of greatest time, in an order of times. */
  predicate IsLatest(order: Time -> real, h: seq<Entry>, i: int) {
    0 <= i < |h| && forall j | 0 <= j < |h| :: order(h[j].at) <= order(h[i].at) && (j > i ==> order(h[j].at) < order(h[i].at))
  }

  /** What a map holds under a key is the latest of a history, which is one entry of it. */
  ghost predicate Holds(order: Time -> real, m: map<string, Entry>, key: string, h: seq<Entry>) {
    if key in m then exists i :: IsLatest(order, h, i) && h[i] == m[key] else h == []
  }

  /** A store whose rule is an order of times and that holds whatever it took. */
  ghost predicate Ordered(s: Store, order: Time -> real) {
    && (forall a, b :: s.supersedes(a, b) <==> order(a) <= order(b))
    && (forall e :: s.holds(e))
  }

  lemma {:induction false} WriteAllHolds(s: Store, order: Time -> real, m: map<string, Entry>, batch: Entries, key: string, h: seq<Entry>)
    requires Ordered(s, order) && Holds(order, m, key, h)
    ensures Holds(order, WriteAll(s, m, batch), key, h + Writes(batch, key))
    decreases |batch|
  {
    if batch == [] {
      assert h + Writes(batch, key) == h;
    } else {
      var n := |batch| - 1;
      WriteAllHolds(s, order, m, batch[..n], key, h);
      var m1, h1 := WriteAll(s, m, batch[..n]), h + Writes(batch[..n], key);
      if batch[n].0 == key {
        WriteHolds(s, order, m1, key, h1, batch[n].1);
        assert h + Writes(batch, key) == h1 + [batch[n].1];
      } else {
        assert h + Writes(batch, key) == h1;
      }
    }
  }

  lemma WriteHolds(s: Store, order: Time -> real, m: map<string, Entry>, key: string, h: seq<Entry>, e: Entry)
    requires Ordered(s, order) && Holds(order, m, key, h)
    ensures Holds(order, Write(s, m, key, e), key, h + [e])
  {
    var g := h + [e];
    if key in m {
      var i :| IsLatest(order, h, i) && h[i] == m[key];
      if order(e.at) >= order(m[key].at) {
        forall j | 0 <= j < |g| ensures order(g[j].at) <= order(g[|h|].at) { if j < |h| { assert order(h[j].at) <= order(h[i].at); } }
        assert IsLatest(order, g, |h|);
      } else {
        forall j | 0 <= j < |g| ensures order(g[j].at) <= order(g[i].at) && (j > i ==> order(g[j].at) < order(g[i].at)) {
          if j < |h| { assert order(h[j].at) <= order(h[i].at) && (j > i ==> order(h[j].at) < order(h[i].at)); }
        }
        assert IsLatest(order, g, i);
      }
    } else {
      assert IsLatest(order, g, 0);
    }
  }

  lemma {:induction false} OrderedHoldsLatest(s: Store, order: Time -> real, ops: seq<Operation>, key: string)
    requires Ordered(s, order)
    ensures Holds(order, Run(s, ops), key, History(s, ops, key))
    decreases |ops|
  {
    if ops != [] {
      var n := |ops| - 1;
      OrderedHoldsLatest(s, order, ops[..n], key);
      if ops[n].Batch? && Takes(s, ops[n].entries) {
        WriteAllHolds(s, order, Run(s, ops[..n]), ops[n].entries, key, History(s, ops[..n], key));
      }
    }
  }

  function Exact(f: Float): (order: Time -> real) { (t: Time) => Number(f, t) }

  function Rounded(f: Float): (order: Time -> real) { (t: Time) => f(Number(f, t)) }

  /**
   After any operations the SQLite table holds, under each key, the latest write of greatest rounded time
   since the key was last deleted, among the batches it could encode and bind.
   */
  lemma TableHoldsLatest(f: Float, ops: seq<Operation>, key: string)
    ensures Holds(Rounded(f), Run(Table(f), ops), key, History(Table(f), ops, key))
  {
    OrderedHoldsLatest(Table(f), Rounded(f), ops, key);
  }

  /** The cache in memory holds the latest write of greatest exact time, among the batches without an empty key. */
  lemma MemoryHoldsLatest(f: Float, ops: seq<Operation>, key: string)
    ensures Holds(Exact(f), Run(Memory(f), ops), key, History(Memory(f), ops, key))
  {
    OrderedHoldsLatest(Memory(f), Exact(f), ops, key);
  }

  // ---------------------------------------------------------------- runs with allowed entries

  /** The entries that a caller writes, each under its key. */
  type Allowed = (string, Entry) -> bool

  /** A batch is a dictionary: each key is there once. */
  predicate Dictionary(batch: Entries) { forall i, j | 0 <= i < j < |batch| :: batch[i].0 != batch[j].0 }

  predicate AllowedBatch(batch: Entries, allowed: Allowed) {
    Dictionary(batch) && forall i | 0 <= i < |batch| :: allowed(batch[i].0, batch[i].1)
  }

  predicate Given(ops: seq<Operation>, allowed: Allowed) {
    forall i | 0 <= i < |ops| :: ops[i].Batch? ==> AllowedBatch(ops[i].entries, allowed)
  }

  predicate Stored(m: map<string, Entry>, allowed: Allowed) { forall k | k in m :: allowed(k, m[k]) }

  /** Two rules decide alike between any two different entries that are allowed under one key. */
  ghost predicate SameRule(a: Store, b: Store, allowed: Allowed) {
    forall k, x, y :: allowed(k, x) && allowed(k, y) && x != y ==> a.supersedes(x.at, y.at) == b.supersedes(x.at, y.at)
  }

  lemma {:induction false} SameWrites(a: Store, b: Store, m: map<string, Entry>, batch: Entries, allowed: Allowed)
    requires SameRule(a, b, allowed) && Stored(m, allowed)
    requires forall i | 0 <= i < |batch| :: allowed(batch[i].0, batch[i].1)
    ensures WriteAll(a, m, batch) == WriteAll(b, m, batch) && Stored(WriteAll(a, m, batch), allowed)
    decreases |batch|
  {
    if batch != [] {
      var n := |batch| - 1;
      SameWrites(a, b, m, batch[..n], allowed);
      SameWrite(a, b, WriteAll(a, m, batch[..n]), batch[n].0, batch[n].1, allowed);
    }
  }

  lemma SameWrite(a: Store, b: Store, m: map<string, Entry>, key: string, e: Entry, allowed: Allowed)
    requires SameRule(a, b, allowed) && Stored(m, allowed) && allowed(key, e)
    ensures Write(a, m, key, e) == Write(b, m, key, e) && Stored(Write(a, m, key, e), allowed)
  {
    if key in m && m[key] == e { assert m[key := e] == m; }
  }

  /** What a dictionary leaves under one of its keys is decided by its entry alone. */
  lemma {:induction false} WrittenAt(s: Store, m: map<string, Entry>, batch: Entries, i: nat)
    requires Dictionary(batch) && i < |batch|
    ensures var r, w := WriteAll(s, m, batch), Write(s, m, batch[i].0, batch[i].1);
            batch[i].0 in r && batch[i].0 in w && r[batch[i].0] == w[batch[i].0]
    decreases |batch|
  {
    var n := |batch| - 1;
    if i < n {
      WrittenAt(s, m, batch[..n], i);
    } else {
      Untouched(s, m, batch[..n], batch[n].0);
    }
  }

  lemma {:induction false} Untouched(s: Store, m: map<string, Entry>, batch: Entries, key: string)
    requires forall j | 0 <= j < |batch| :: batch[j].0 != key
    ensures key in WriteAll(s, m, batch) <==> key in m
    ensures key in m ==> WriteAll(s, m, batch)[key] == m[key]
    decreases |batch|
  {
    if batch != [] {
      var n := |batch| - 1;
      assert batch[n].0 != key;
      Untouched(s, m, batch[..n], key);
    }
  }

  /** The last entry of a batch under a key. */
  predicate IsLast(batch: Entries, i: int) { 0 <= i < |batch| && forall j | i < j < |batch| :: batch[j].0 != batch[i].0 }

  /** What a batch of entries with one time leaves under a key: its last entry there, unless a newer one was held. */
  lemma {:induction false} WrittenAtOnce(f: Float, m: map<string, Entry>, batch: Entries, at: Time, i: int)
    requires IsLast(batch, i) && forall j | 0 <= j < |batch| :: batch[j].1.at == at
    ensures var r, key := WriteAll(Memory(f), m, batch), batch[i].0;
            && key in r
            && r[key] == if key in m && Number(f, m[key].at) > Number(f, at) then m[key] else batch[i].1
    decreases |batch|
  {
    hide Number;
    var n := |batch| - 1;
    var key := batch[i].0;
    if i < n {
      assert IsLast(batch[..n], i) && batch[n].0 != key;
      WrittenAtOnce(f, m, batch[..n], at, i);
    } else if k :| 0 <= k < n && batch[k].0 == key {
      var j := LastUnder(batch[..n], k);
      WrittenAtOnce(f, m, batch[..n], at, j);
    } else {
      Untouched(Memory(f), m, batch[..n], key);
    }
  }

  lemma {:induction false} LastUnder(batch: Entries, k: nat) returns (j: nat)
    requires k < |batch|
    ensures IsLast(batch, j) && batch[j].0 == batch[k].0
    decreases |batch| - k
  {
    j := k;
    if later :| k < later < |batch| && batch[later].0 == batch[k].0 { j := LastUnder(batch, later); }
  }

  /** A batch of which nothing is newer than what is there changes nothing. */
  lemma {:induction false} AllSuperseded(s: Store, m: map<string, Entry>, batch: Entries)
    requires forall i | 0 <= i < |batch| :: batch[i].0 in m && !s.supersedes(m[batch[i].0].at, batch[i].1.at)
    ensures WriteAll(s, m, batch) == m
    decreases |batch|
  {
    if batch != [] { AllSuperseded(s, m, batch[..|batch| - 1]); }
  }

  // ---------------------------------------------------------------- when documents and table agree

  /** The stored time, rounded up past the new one, which is rounded up past it again. */
  predicate Torn(f: Float, stored: Time, next: Time) { Number(f, next) < f(Number(f, stored)) <= f(Number(f, next)) }

  lemma RulesDiffer(f: Float, s: Time, t: Time)
    requires Rounds(f)
    ensures Documents(f).supersedes(s, t) != Table(f).supersedes(s, t) <==> Torn(f, s, t)
    ensures f(Number(f, s)) == Number(f, s) && f(Number(f, t)) == Number(f, t) ==>
              !Torn(f, s, t) && Table(f).supersedes(s, t) == Memory(f).supersedes(s, t)
  {
    var a, b := Number(f, s), Number(f, t);
    assert f(f(a)) == f(a);
    assert f(a) <= b ==> f(f(a)) <= f(b);
  }

  /** Only an int can be torn: a float is its own rounding. */
  lemma FloatsAreNotTorn(f: Float, s: Time, t: Time)
    requires Rounds(f) && Torn(f, s, t)
    ensures t.IntTime? && f(Number(f, t)) > Number(f, t)
  {
    assert t.FloatTime? ==> f(Number(f, t)) == Number(f, t);
  }

  /** The sound entries that are allowed: only they are ever in a document or the table. */
  function SoundOf(allowed: Allowed): (r: Allowed) { (k: string, e: Entry) => allowed(k, e) && Sound(e) }

  /** A valid entry that cannot be encoded, under a key whose document entry supersedes it. */
  predicate Shadowed(f: Float, e: Entry, u: Entry) { ValidEntry(u) && !Sound(u) && f(Number(f, e.at)) > Number(f, u.at) }

  ghost predicate AllBind(allowed: Allowed) { forall k, e :: SoundOf(allowed)(k, e) ==> Bindable(e.at) }

  ghost predicate NoneTorn(f: Float, allowed: Allowed) {
    forall k, a, b :: SoundOf(allowed)(k, a) && SoundOf(allowed)(k, b) && a != b ==> !Torn(f, a.at, b.at)
  }

  /** No entry that cannot be encoded is hidden in a batch with one that can. */
  ghost predicate NoneHidden(f: Float, allowed: Allowed) {
    forall k, e, u, j, x ::
      SoundOf(allowed)(k, e) && allowed(k, u) && SoundOf(allowed)(j, x) && Shadowed(f, e, u) ==> j == k
  }

  /** Entries on which documents and table cannot differ. */
  ghost predicate Harmless(f: Float, allowed: Allowed) { AllBind(allowed) && NoneTorn(f, allowed) && NoneHidden(f, allowed) }

  /** Both backends hold the same after every run. */
  ghost predicate BackendsSame(f: Float, allowed: Allowed) {
    forall ops :: Given(ops, allowed) ==> Run(Documents(f), ops) == Run(Table(f), ops)
  }

  /**
   The JSON documents and the SQLite table hold the same after every run with the allowed entries, if and
   only if the table can bind all sound ones, no two of them under one key are torn, and none that cannot
   be encoded is older than a sound one under its key while a sound one is allowed under another key.
   */
  lemma BackendsAgree(f: Float, allowed: Allowed)
    requires Rounds(f)
    ensures BackendsSame(f, allowed) <==> Harmless(f, allowed)
  {
    hide Run, Documents, Table, Given, Torn, Sound, SoundOf, Bindable, Rounds, Shadowed;
    if Harmless(f, allowed) {
      forall ops | Given(ops, allowed) ensures Run(Documents(f), ops) == Run(Table(f), ops) { HarmlessAgree(f, ops, allowed); }
    } else if k, e :| SoundOf(allowed)(k, e) && !Bindable(e.at) {
      var ops := UnboundRun(f, k, e, allowed);
      assert Given(ops, allowed) && Run(Documents(f), ops) != Run(Table(f), ops);
    } else if k, a, b :| SoundOf(allowed)(k, a) && SoundOf(allowed)(k, b) && a != b && Torn(f, a.at, b.at) {
      var ops := TornRun(f, k, a, b, allowed);
      assert Given(ops, allowed) && Run(Documents(f), ops) != Run(Table(f), ops);
    } else {
      var k, e, u, j, x :| SoundOf(allowed)(k, e) && allowed(k, u) && SoundOf(allowed)(j, x) && Shadowed(f, e, u) && j != k;
      var ops := HiddenRun(f, k, e, u, j, x, allowed);
      assert Given(ops, allowed) && Run(Documents(f), ops) != Run(Table(f), ops);
    }
  }

  lemma {:induction false} HarmlessAgree(f: Float, ops: seq<Operation>, allowed: Allowed)
    requires Rounds(f) && Harmless(f, allowed) && Given(ops, allowed)
    ensures Run(Documents(f), ops) == Run(Table(f), ops) && Stored(Run(Table(f), ops), SoundOf(allowed))
    decreases |ops|
  {
    hide Rounds, Harmless, Documents, Table, SoundOf, AllowedBatch, Takes, Fits;
    if ops != [] {
      var n := |ops| - 1;
      assert forall i | 0 <= i < n :: ops[..n][i] == ops[i];
      HarmlessAgree(f, ops[..n], allowed);
      if ops[n].Batch? {
        assert AllowedBatch(ops[n].entries, allowed);
        HarmlessBatch(f, Run(Table(f), ops[..n]), ops[n].entries, allowed);
      }
    }
  }

  lemma HarmlessBatch(f: Float, m: map<string, Entry>, es: Entries, allowed: Allowed)
    requires Rounds(f) && Harmless(f, allowed) && AllowedBatch(es, allowed) && Stored(m, SoundOf(allowed))
    ensures Apply(Documents(f), m, Batch(es)) == Apply(Table(f), m, Batch(es))
    ensures Stored(Apply(Table(f), m, Batch(es)), SoundOf(allowed))
  {
    hide Rounds, Torn, WriteAll, Bindable, ValidEntry, Number, Dictionary, NoneHidden, NoneTorn, Shadowed;
    if forall i | 0 <= i < |es| :: Sound(es[i].1) {
      assert Takes(Table(f), es) by {
        forall i | 0 <= i < |es| ensures Bindable(es[i].1.at) { assert SoundOf(allowed)(es[i].0, es[i].1); }
      }
      HarmlessRule(f, allowed);
      SameWrites(Documents(f), Table(f), m, es, SoundOf(allowed));
    } else {
      assert !Takes(Table(f), es);
      if Takes(Documents(f), es) && Fits(Documents(f), WriteAll(Documents(f), m, es)) { HiddenBatch(f, m, es, allowed); }
    }
  }

  lemma HarmlessRule(f: Float, allowed: Allowed)
    requires Rounds(f) && Harmless(f, allowed)
    ensures SameRule(Documents(f), Table(f), SoundOf(allowed))
  {
    hide Rounds, Torn, Documents, Table, SoundOf, AllBind, NoneHidden;
    forall k, x, y | SoundOf(allowed)(k, x) && SoundOf(allowed)(k, y) && x != y
      ensures Documents(f).supersedes(x.at, y.at) == Table(f).supersedes(x.at, y.at)
    {
      RulesDiffer(f, x.at, y.at);
    }
  }

  /** A batch that the documents take with an entry they cannot encode leaves nothing there. */
  lemma HiddenBatch(f: Float, m: map<string, Entry>, es: Entries, allowed: Allowed)
    requires NoneHidden(f, allowed) && AllowedBatch(es, allowed) && Stored(m, SoundOf(allowed))
    requires Takes(Documents(f), es) && Fits(Documents(f), WriteAll(Documents(f), m, es))
    requires exists i | 0 <= i < |es| :: !Sound(es[i].1)
    ensures WriteAll(Documents(f), m, es) == m
  {
    hide WriteAll, Number, ValidEntry, Fits, NoneHidden, Stored;
    var i :| 0 <= i < |es| && !Sound(es[i].1);
    NotWritten(f, m, es, i, allowed);
    forall j | 0 <= j < |es| ensures !Sound(es[j].1) {
      if Sound(es[j].1) {
        HiddenMeans(f, allowed, es[i].0, m[es[i].0], es[i].1, es[j].0, es[j].1);
        assert false;
      }
    }
    forall j | 0 <= j < |es| ensures es[j].0 in m && !Documents(f).supersedes(m[es[j].0].at, es[j].1.at) {
      NotWritten(f, m, es, j, allowed);
    }
    AllSuperseded(Documents(f), m, es);
  }

  lemma HiddenMeans(f: Float, allowed: Allowed, k: string, e: Entry, u: Entry, j: string, x: Entry)
    requires NoneHidden(f, allowed) && SoundOf(allowed)(k, e) && allowed(k, u) && SoundOf(allowed)(j, x) && Shadowed(f, e, u)
    ensures j == k
  {
    hide SoundOf, Shadowed;
  }

  /** In a document that can be encoded, an entry that cannot was not written. */
  lemma NotWritten(f: Float, m: map<string, Entry>, es: Entries, i: nat, allowed: Allowed)
    requires i < |es| && !Sound(es[i].1) && AllowedBatch(es, allowed) && Stored(m, SoundOf(allowed))
    requires Takes(Documents(f), es) && Fits(Documents(f), WriteAll(Documents(f), m, es))
    ensures es[i].0 in m && SoundOf(allowed)(es[i].0, m[es[i].0]) && Shadowed(f, m[es[i].0], es[i].1)
    ensures !Documents(f).supersedes(m[es[i].0].at, es[i].1.at)
  {
    hide WriteAll, Number, ValidEntry;
    WrittenAt(Documents(f), m, es, i);
    assert Documents(f).takes(es[i].0, es[i].1);
  }

  // ---------------------------------------------------------------- runs on which they differ

  lemma WriteOne(s: Store, m: map<string, Entry>, key: string, e: Entry)
    ensures WriteAll(s, m, [(key, e)]) == Write(s, m, key, e)
    ensures Takes(s, [(key, e)]) <==> s.takes(key, e)
  {
    assert [(key, e)][..0] == [];
    assert WriteAll(s, m, []) == m;
    assert [(key, e)][0] == (key, e);
  }

  lemma RunOfOne(s: Store, key: string, e: Entry)
    ensures Run(s, [Batch([(key, e)])]) == if s.takes(key, e) && s.holds(e) then map[key := e] else map[]
  {
    assert [Batch([(key, e)])][..0] == [];
    assert Run(s, []) == map[];
    WriteOne(s, map[], key, e);
    assert Write(s, map[], key, e) == map[key := e];
    assert Fits(s, map[key := e]) <==> s.holds(e);
  }

  lemma RunOfTwo(s: Store, key: string, first: Entry, second: Entry)
    requires s.takes(key, first) && s.takes(key, second) && s.holds(first) && s.holds(second)
    ensures Run(s, [Batch([(key, first)]), Batch([(key, second)])]) == map[key := if s.supersedes(first.at, second.at) then second else first]
  {
    var a, b := Batch([(key, first)]), Batch([(key, second)]);
    assert [a, b][..1] == [a];
    RunOfOne(s, key, first);
    WriteOne(s, map[key := first], key, second);
    assert map[key := first][key := second] == map[key := second];
  }

  lemma GivenOne(key: string, e: Entry, allowed: Allowed)
    requires allowed(key, e)
    ensures Given([Batch([(key, e)])], allowed)
  {
    assert AllowedBatch([(key, e)], allowed);
  }

  lemma GivenTwo(key: string, first: Entry, second: Entry, allowed: Allowed)
    requires allowed(key, first) && allowed(key, second)
    ensures Given([Batch([(key, first)]), Batch([(key, second)])], allowed)
  {
    assert AllowedBatch([(key, first)], allowed) && AllowedBatch([(key, second)], allowed);
  }

  /** A time that the table cannot bind: the documents store it, the table rolls the batch back. */
  lemma UnboundRun(f: Float, key: string, e: Entry, allowed: Allowed) returns (ops: seq<Operation>)
    requires SoundOf(allowed)(key, e) && !Bindable(e.at)
    ensures Given(ops, allowed) && Run(Table(f), ops) == map[] && Run(Documents(f), ops) == map[key := e]
    ensures Run(Documents(f), ops) != Run(Table(f), ops)
  {
    ops := [Batch([(key, e)])];
    GivenOne(key, e, allowed);
    RunOfOne(Documents(f), key, e);
    RunOfOne(Table(f), key, e);
    assert key in Run(Documents(f), ops);
  }

  /** Two writes with torn times: the documents keep the first, the table takes the second. */
  lemma TornRun(f: Float, key: string, a: Entry, b: Entry, allowed: Allowed) returns (ops: seq<Operation>)
    requires Rounds(f) && SoundOf(allowed)(key, a) && SoundOf(allowed)(key, b) && Torn(f, a.at, b.at)
    requires a != b && Bindable(a.at) && Bindable(b.at)
    ensures Given(ops, allowed) && Run(Documents(f), ops) == map[key := a] && Run(Table(f), ops) == map[key := b]
    ensures Run(Documents(f), ops) != Run(Table(f), ops)
  {
    hide Run;
    RulesDiffer(f, a.at, b.at);
    ops := [Batch([(key, a)]), Batch([(key, b)])];
    GivenTwo(key, a, b, allowed);
    RunOfTwo(Documents(f), key, a, b);
    RunOfTwo(Table(f), key, a, b);
    assert map[key := a][key] != map[key := b][key];
  }

  /**
   An entry that cannot be encoded, older than what is under its key, in one batch with a sound entry
   under another key: the documents store the other, the table refuses both.
   */
  lemma HiddenRun(f: Float, k: string, e: Entry, u: Entry, j: string, x: Entry, allowed: Allowed) returns (ops: seq<Operation>)
    requires SoundOf(allowed)(k, e) && allowed(k, u) && SoundOf(allowed)(j, x) && Shadowed(f, e, u) && j != k
    requires Bindable(e.at)
    ensures ops == [Batch([(k, e)]), Batch([(k, u), (j, x)])]
    ensures Given(ops, allowed) && Run(Documents(f), ops) == map[k := e, j := x] && Run(Table(f), ops) == map[k := e]
    ensures Run(Documents(f), ops) != Run(Table(f), ops)
  {
    hide ValidEntry, Bindable, Number;
    var es := [(k, u), (j, x)];
    ops := [Batch([(k, e)]), Batch(es)];
    assert Given(ops, allowed) by { HiddenGiven(k, e, u, j, x, allowed); }
    assert ops[..1] == [Batch([(k, e)])];
    RunOfOne(Documents(f), k, e);
    RunOfOne(Table(f), k, e);
    WriteOne(Documents(f), map[k := e], k, u);
    assert es[..1] == [(k, u)];
    assert WriteAll(Documents(f), map[k := e], es) == map[k := e, j := x];
    assert Takes(Documents(f), es) && Fits(Documents(f), map[k := e, j := x]);
    assert !Takes(Table(f), es) by { assert !Table(f).takes(es[0].0, es[0].1); }
    assert j in Run(Documents(f), ops) && j !in Run(Table(f), ops);
  }

  lemma HiddenGiven(k: string, e: Entry, u: Entry, j: string, x: Entry, allowed: Allowed)
    requires allowed(k, e) && allowed(k, u) && allowed(j, x) && j != k
    ensures Given([Batch([(k, e)]), Batch([(k, u), (j, x)])], allowed)
  {
    assert AllowedBatch([(k, e)], allowed) && AllowedBatch([(k, u), (j, x)], allowed);
  }

  // ---------------------------------------------------------------- when all three agree

  /** The three rules decide alike. */
  predicate Unanimous(f: Float, a: Time, b: Time) {
    Memory(f).supersedes(a, b) == Documents(f).supersedes(a, b) == Table(f).supersedes(a, b)
  }

  /** Memory takes an entry under a key exactly when the others do. */
  predicate SameVerdict(key: string, e: Entry) { (key != "" <==> Sound(e)) && (Sound(e) ==> Bindable(e.at)) }

  ghost predicate SameVerdicts(allowed: Allowed) { forall k, e :: allowed(k, e) ==> SameVerdict(k, e) }

  ghost predicate SameRules(f: Float, allowed: Allowed) {
    forall k, a, b :: SoundOf(allowed)(k, a) && SoundOf(allowed)(k, b) && a != b ==> Unanimous(f, a.at, b.at)
  }

  /** All three stores hold the same after every run. */
  ghost predicate StoresSame(f: Float, allowed: Allowed) {
    forall ops :: Given(ops, allowed) ==> Run(Memory(f), ops) == Run(Documents(f), ops) == Run(Table(f), ops)
  }

  /**
   The cache in memory, the JSON documents and the SQLite table hold the same after every run with the
   allowed entries, if and only if an allowed entry has a key exactly when it is valid and can be encoded,
   its time can then be bound, and the three rules decide alike between different sound entries of a key.
   */
  lemma StoresAgree(f: Float, allowed: Allowed)
    requires Rounds(f)
    ensures StoresSame(f, allowed) <==> SameVerdicts(allowed) && SameRules(f, allowed)
  {
    hide Run, Memory, Documents, Table, Given, Sound, SoundOf, Bindable, Rounds, SameVerdict, Unanimous;
    if SameVerdicts(allowed) && SameRules(f, allowed) {
      forall ops | Given(ops, allowed) ensures Run(Memory(f), ops) == Run(Documents(f), ops) == Run(Table(f), ops) {
        AgreeingRuns(f, ops, allowed);
      }
    } else if k, e :| allowed(k, e) && !SameVerdict(k, e) {
      var ops := VerdictRun(f, k, e, allowed);
    } else {
      var k, a, b :| SoundOf(allowed)(k, a) && SoundOf(allowed)(k, b) && a != b && !Unanimous(f, a.at, b.at);
      var ops := RuleRun(f, k, a, b, allowed);
    }
  }

  lemma VerdictRun(f: Float, key: string, e: Entry, allowed: Allowed) returns (ops: seq<Operation>)
    requires allowed(key, e) && !SameVerdict(key, e)
    ensures Given(ops, allowed) && !(Run(Memory(f), ops) == Run(Documents(f), ops) == Run(Table(f), ops))
  {
    hide ValidEntry, Bindable, Run;
    ops := [Batch([(key, e)])];
    GivenOne(key, e, allowed);
    RunOfOne(Memory(f), key, e);
    RunOfOne(Documents(f), key, e);
    RunOfOne(Table(f), key, e);
    assert key in map[key := e];
  }

  lemma RuleRun(f: Float, key: string, a: Entry, b: Entry, allowed: Allowed) returns (ops: seq<Operation>)
    requires SameVerdicts(allowed) && SoundOf(allowed)(key, a) && SoundOf(allowed)(key, b) && a != b && !Unanimous(f, a.at, b.at)
    ensures Given(ops, allowed) && !(Run(Memory(f), ops) == Run(Documents(f), ops) == Run(Table(f), ops))
  {
    hide ValidEntry, Bindable, Run;
    assert SameVerdict(key, a) && SameVerdict(key, b);
    ops := [Batch([(key, a)]), Batch([(key, b)])];
    GivenTwo(key, a, b, allowed);
    RunOfTwo(Memory(f), key, a, b);
    RunOfTwo(Documents(f), key, a, b);
    RunOfTwo(Table(f), key, a, b);
    assert map[key := a][key] != map[key := b][key];
  }

  lemma AgreeingRuns(f: Float, ops: seq<Operation>, allowed: Allowed)
    requires Rounds(f) && SameVerdicts(allowed) && SameRules(f, allowed) && Given(ops, allowed)
    ensures Run(Memory(f), ops) == Run(Documents(f), ops) == Run(Table(f), ops)
  {
    hide Run;
    AgreementIsHarmless(f, allowed);
    HarmlessAgree(f, ops, allowed);
    MemoryIsTable(f, ops, allowed);
  }

  lemma AgreementIsHarmless(f: Float, allowed: Allowed)
    requires Rounds(f) && SameVerdicts(allowed) && SameRules(f, allowed)
    ensures Harmless(f, allowed)
  {
    hide Rounds, Torn, Number, ValidEntry, Bindable, Memory, Documents, Table;
    forall k, e | SoundOf(allowed)(k, e) ensures Bindable(e.at) { assert SameVerdict(k, e); }
    forall k, a, b | SoundOf(allowed)(k, a) && SoundOf(allowed)(k, b) && a != b ensures !Torn(f, a.at, b.at) {
      assert Unanimous(f, a.at, b.at);
      RulesDiffer(f, a.at, b.at);
    }
    forall k, e, u | SoundOf(allowed)(k, e) && allowed(k, u) ensures !Shadowed(f, e, u) {
      assert SameVerdict(k, e) && SameVerdict(k, u);
    }
  }

  lemma {:induction false} MemoryIsTable(f: Float, ops: seq<Operation>, allowed: Allowed)
    requires SameVerdicts(allowed) && SameRules(f, allowed) && Given(ops, allowed)
    ensures Run(Memory(f), ops) == Run(Table(f), ops) && Stored(Run(Memory(f), ops), SoundOf(allowed))
    ensures forall key :: History(Memory(f), ops, key) == History(Table(f), ops, key)
    decreases |ops|
  {
    hide Memory, Table, SoundOf, AllowedBatch, Takes, Fits, SameVerdicts, SameRules, WriteAll;
    if ops != [] {
      var n := |ops| - 1;
      assert forall i | 0 <= i < n :: ops[..n][i] == ops[i];
      MemoryIsTable(f, ops[..n], allowed);
      if ops[n].Batch? {
        assert AllowedBatch(ops[n].entries, allowed);
        MemoryBatch(f, Run(Table(f), ops[..n]), ops[n].entries, allowed);
      }
    }
  }

  lemma MemoryBatch(f: Float, m: map<string, Entry>, es: Entries, allowed: Allowed)
    requires SameVerdicts(allowed) && SameRules(f, allowed) && AllowedBatch(es, allowed) && Stored(m, SoundOf(allowed))
    ensures Takes(Memory(f), es) <==> Takes(Table(f), es)
    ensures Apply(Memory(f), m, Batch(es)) == Apply(Table(f), m, Batch(es))
    ensures Stored(Apply(Memory(f), m, Batch(es)), SoundOf(allowed))
  {
    hide WriteAll, Number, ValidEntry, Bindable, Dictionary;
    forall i | 0 <= i < |es| ensures Memory(f).takes(es[i].0, es[i].1) <==> Table(f).takes(es[i].0, es[i].1) {
      assert SameVerdict(es[i].0, es[i].1);
    }
    if Takes(Memory(f), es) {
      forall i | 0 <= i < |es| ensures SoundOf(allowed)(es[i].0, es[i].1) { assert Table(f).takes(es[i].0, es[i].1); }
      assert SameRule(Memory(f), Table(f), SoundOf(allowed)) by {
        forall k, x, y | SoundOf(allowed)(k, x) && SoundOf(allowed)(k, y) && x != y
          ensures Memory(f).supersedes(x.at, y.at) == Table(f).supersedes(x.at, y.at)
        {
          assert Unanimous(f, x.at, y.at);
        }
      }
      SameWrites(Memory(f), Table(f), m, es, SoundOf(allowed));
    }
  }

  /** A sound entry under a key, with a time that `float` leaves alone and the table can bind. */
  function Plain(f: Float): (allowed: Allowed) {
    (key: string, e: Entry) => key != "" && Sound(e) && Bindable(e.at) && f(Number(f, e.at)) == Number(f, e.at)
  }

  /** With such entries all three stores hold the same, the latest writes. */
  lemma ExactTimesAgree(f: Float, ops: seq<Operation>, key: string)
    requires Rounds(f) && Given(ops, Plain(f))
    ensures Run(Memory(f), ops) == Run(Documents(f), ops) == Run(Table(f), ops)
    ensures Holds(Exact(f), Run(Documents(f), ops), key, History(Memory(f), ops, key))
  {
    hide Run, Holds, History, Given;
    PlainAgrees(f);
    AgreeingRuns(f, ops, Plain(f));
    MemoryHoldsLatest(f, ops, key);
  }

  lemma PlainAgrees(f: Float)
    requires Rounds(f)
    ensures SameVerdicts(Plain(f)) && SameRules(f, Plain(f))
  {
    hide Rounds, Torn, Number, ValidEntry, Bindable, Memory, Documents, Table;
    forall k, a, b | SoundOf(Plain(f))(k, a) && SoundOf(Plain(f))(k, b) && a != b ensures Unanimous(f, a.at, b.at) {
      RulesDiffer(f, a.at, b.at);
    }
  }

  // ---------------------------------------------------------------- failures at concrete entries

  /** The nearest integer, a tie to the even one. */
  function HalfEven(y: real): (n: int)
    ensures n as real - 0.5 <= y <= n as real + 0.5
  {
    var k := y.Floor;
    if y - k as real < 0.5 || (y - k as real == 0.5 && k % 2 == 0) then k else k + 1
  }

  const TWO_53: int := 0x20_0000_0000_0000

  /** On integers up to 2**54 this is conversion to a double: every second integer above 2**53 is one. */
  function Double(x: real): (r: real) {
    if x < TWO_53 as real then x else (2 * HalfEven(x / 2.0)) as real
  }

  lemma HalfEvenGrows(y: real, z: real)
    requires y <= z
    ensures HalfEven(y) <= HalfEven(z)
  {
    assert y.Floor <= z.Floor;
  }

  lemma HalfEvenOfInt(n: int)
    ensures HalfEven(n as real) == n
  {
  }

  lemma DoubleIsLarge(x: real)
    requires x >= TWO_53 as real
    ensures Double(x) >= TWO_53 as real && Double(Double(x)) == Double(x)
  {
    var half: int := 0x10_0000_0000_0000;
    HalfEvenOfInt(half);
    HalfEvenGrows(half as real, x / 2.0);
    var n := HalfEven(x / 2.0);
    assert Double(x) == (2 * n) as real && (2 * n) as real / 2.0 == n as real;
    HalfEvenOfInt(n);
  }

  lemma DoubleRounds()
    ensures Rounds(Double)
  {
    forall s, t: real | s <= t ensures Double(s) <= Double(t) {
      if t >= TWO_53 as real {
        DoubleIsLarge(t);
        if s >= TWO_53 as real { HalfEvenGrows(s / 2.0, t / 2.0); }
      }
    }
    forall t: real ensures Double(Double(t)) == Double(t) {
      if t >= TWO_53 as real { DoubleIsLarge(t); }
    }
  }

  lemma {:induction false} PowerGrows(m: nat, n: nat)
    requires m <= n
    ensures Power(m) <= Power(n)
    decreases n - m
  {
    if m < n { PowerGrows(m, n - 1); }
  }

  lemma SmallTimesAreValid(n: int)
    requires 0 <= n <= 0x1_0000_0000_0000_0000
    ensures ValidTime(IntTime(n))
  {
    PowerGrows(970, 1023);
    PowerGrows(65, 1023);
    assert Power(1024) == 2 * Power(1023);
    PowerOf65();
  }

  lemma PowerOf65()
    ensures Power(65) == 0x2_0000_0000_0000_0000
  {
    PowerOf5();
    hide Power;
    PowerAdds(5, 5);
    PowerAdds(10, 10);
    PowerAdds(20, 20);
    PowerAdds(40, 20);
    PowerAdds(60, 5);
  }

  lemma PowerOf5()
    ensures Power(5) == 32
  {
  }

  lemma {:induction false} PowerAdds(m: nat, n: nat)
    ensures Power(m + n) == Power(m) * Power(n)
    decreases n
  {
    if n > 0 { PowerAdds(m, n - 1); }
  }

  /** 2**53 + 3 rounds up to 2**53 + 4: written again with the same time, the documents refuse it, the table takes it. */
  lemma TornTime()
    ensures var t := IntTime(TWO_53 + 3);
            var first, second := Entry(Encodable(1), t, 1), Entry(Encodable(2), t, 1);
            var ops := [Batch([("k", first)]), Batch([("k", second)])];
            && Rounds(Double) && Sound(first) && Sound(second) && Bindable(t) && Double(Number(Double, t)) == (TWO_53 + 4) as real
            && Run(Documents(Double), ops) == map["k" := first] && Run(Table(Double), ops) == map["k" := second]
            && Run(Memory(Double), ops) == map["k" := second]
  {
    hide Run;
    var t := IntTime(TWO_53 + 3);
    var first, second := Entry(Encodable(1), t, 1), Entry(Encodable(2), t, 1);
    DoubleRounds();
    SmallTimesAreValid(t.n);
    assert HalfEven((TWO_53 + 3) as real / 2.0) == 0x10_0000_0000_0002;
    RulesDiffer(Double, t, t);
    RunOfTwo(Documents(Double), "k", first, second);
    RunOfTwo(Table(Double), "k", first, second);
    RunOfTwo(Memory(Double), "k", first, second);
  }

  /** 2**64 is exact and torn against nothing, and the table cannot bind it. */
  lemma UnboundTime()
    ensures var t := IntTime(0x1_0000_0000_0000_0000);
            var e := Entry(Encodable(1), t, 1);
            var ops := [Batch([("k", e)])];
            && Rounds(Double) && Sound(e) && Double(Number(Double, t)) == Number(Double, t) && !Torn(Double, t, t)
            && Run(Documents(Double), ops) == map["k" := e] && Run(Table(Double), ops) == map[]
  {
    hide Run;
    var t := IntTime(0x1_0000_0000_0000_0000);
    DoubleRounds();
    SmallTimesAreValid(t.n);
    HalfEvenOfInt(0x8000_0000_0000_0000);
    assert Number(Double, t) / 2.0 == 0x8000_0000_0000_0000 as real;
    RunOfOne(Documents(Double), "k", Entry(Encodable(1), t, 1));
    RunOfOne(Table(Double), "k", Entry(Encodable(1), t, 1));
  }

  /** An empty key: both backends store the entry, the cache in memory refuses it. */
  lemma EmptyKey(f: Float)
    ensures var e := Entry(Encodable(1), IntTime(5), 1);
            var ops := [Batch([("", e)])];
            Run(Memory(f), ops) == map[] && Run(Documents(f), ops) == Run(Table(f), ops) == map["" := e]
  {
    hide Run;
    var e := Entry(Encodable(1), IntTime(5), 1);
    SmallTimesAreValid(5);
    RunOfOne(Memory(f), "", e);
    RunOfOne(Documents(f), "", e);
    RunOfOne(Table(f), "", e);
  }

  /** A negative time: the cache in memory holds the entry, both backends refuse it. */
  lemma NegativeTime(f: Float)
    ensures var e := Entry(Encodable(1), FloatTime(-1.0), 1);
            var ops := [Batch([("k", e)])];
            Run(Memory(f), ops) == map["k" := e] && Run(Documents(f), ops) == Run(Table(f), ops) == map[]
  {
    hide Run;
    var e := Entry(Encodable(1), FloatTime(-1.0), 1);
    RunOfOne(Memory(f), "k", e);
    RunOfOne(Documents(f), "k", e);
    RunOfOne(Table(f), "k", e);
  }

  /** Data that cannot be encoded: the cache in memory holds them, both backends refuse them. */
  lemma UnencodableData(f: Float)
    ensures var u := Entry(Unencodable(1), IntTime(5), 1);
            var ops := [Batch([("k", u)])];
            ValidEntry(u) && Run(Memory(f), ops) == map["k" := u] && Run(Documents(f), ops) == Run(Table(f), ops) == map[]
  {
    hide Run;
    var u := Entry(Unencodable(1), IntTime(5), 1);
    SmallTimesAreValid(5);
    RunOfOne(Memory(f), "k", u);
    RunOfOne(Documents(f), "k", u);
    RunOfOne(Table(f), "k", u);
  }

  /** Old data that cannot be encoded, in a batch with a new key: the documents store the new key, the table does not. */
  lemma HiddenData()
    ensures var e, u := Entry(Encodable(1), IntTime(5), 1), Entry(Unencodable(2), IntTime(3), 1);
            var ops := [Batch([("k", e)]), Batch([("k", u), ("j", e)])];
            && Rounds(Double) && Sound(e) && ValidEntry(u)
            && Run(Documents(Double), ops) == map["k" := e, "j" := e] && Run(Table(Double), ops) == map["k" := e]
  {
    hide Run;
    var e, u := Entry(Encodable(1), IntTime(5), 1), Entry(Unencodable(2), IntTime(3), 1);
    DoubleRounds();
    SmallTimesAreValid(5);
    SmallTimesAreValid(3);
    assert "j"[0] != "k"[0];
    assert Sound(e) && Shadowed(Double, e, u);
    var ops := HiddenRun(Double, "k", e, u, "j", e, (key: string, x: Entry) => true);
  }
}
