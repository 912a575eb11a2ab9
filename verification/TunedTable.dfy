/** The table of all kernels (src/tuned_config.cpp, lines 641-759 and 856-912): loading a kernel's
    rows, publishing by copying the snapshot, and adding one resolved row to the online layer. */
module TunedTable {
  import opened KeySchema
  import opened TunedIndex
  import Identity

  datatype Result<+T, +E> = Ok(value: T) | Err(error: E)

  datatype InsertError = IncompatibleWidth | OtherNamespace | SchemaMismatch

  datatype Slot = Slot(storageId: string, device: nat)

  // One element of a table file's "entries", after its JSON types have been checked.
  datatype RawRow = RawRow(dims: seq<int>, dtypes: seq<string>, config: TunedConfig)

  // A resolver's answer.
  datatype Resolved = Resolved(config: TunedConfig, columns: seq<(string, Strategy)>, cacheNamespace: string)

  function Stored(schema: Schema, raw: RawRow): Entry
    requires |raw.dims| == |schema.columns|
  {
    Entry(Normalize(schema.Strategies(), raw.dims), raw.dtypes, raw.config, NIL)
  }

  function StoredAll(schema: Schema, raw: seq<RawRow>): (r: seq<Entry>)
    requires forall i :: 0 <= i < |raw| ==> |raw[i].dims| == |schema.columns|
    ensures |r| == |raw|
  {
    seq(|raw|, i requires 0 <= i < |raw| => Stored(schema, raw[i]))
  }

  predicate NulFree(s: string) {
    forall i :: 0 <= i < |s| ==> s[i] != '\0'
  }

  ghost predicate SameKey(a: Entry, b: Entry) {
    a.dims == b.dims && a.dtypes == b.dtypes
  }

  // What the loader's self-lookup test amounts to.
  ghost predicate Loadable(schema: Schema, rows: seq<Entry>) {
    rows == [] || (
      && |schema.columns| <= MAX_COLUMNS
      && (forall i, k :: 0 <= i < |rows| && 0 <= k < |rows[i].dtypes| ==> NulFree(rows[i].dtypes[k]))
      && (forall i, j :: 0 <= i < j < |rows| ==> !SameKey(rows[i], rows[j])))
  }

  // The key the loader looks row `e` up with: its stored dimensions and the dtypes' c_str().
  function OwnKey(e: Entry): (k: KeyView)
    ensures k.Readable()
  {
    KeyView(|e.dims|, Some(e.dims), |e.dtypes|, Some(Printed(e.dtypes)))
  }

  lemma MatchesOwn(e: Entry, f: Entry)
    ensures Matches(e, f.dims, Printed(f.dtypes)) ==>
              e.dims == f.dims && |e.dtypes| == |f.dtypes| && forall k :: 0 <= k < |e.dtypes| ==>
                  e.dtypes[k] == CStr(f.dtypes[k])
    ensures SameKey(e, f) && (forall k :: 0 <= k < |f.dtypes| ==> NulFree(f.dtypes[k])) ==>
              Matches(e, f.dims, Printed(f.dtypes))
  {
  }

  // Row i finds itself exactly if its dtypes are printable and no later row has the same key.
  lemma SelfLookup(rows: seq<Entry>, i: nat)
    requires i < |rows|
    ensures NewestMatch(rows, |rows|, rows[i].dims, Printed(rows[i].dtypes)) == i <==>
              && (forall k :: 0 <= k < |rows[i].dtypes| ==> NulFree(rows[i].dtypes[k]))
              && (forall j :: i < j < |rows| ==> !SameKey(rows[i], rows[j]))
  {
    var e := rows[i];
    var found := NewestMatch(rows, |rows|, e.dims, Printed(e.dtypes));
    MatchesOwn(e, e);
    forall j | i < j < |rows|
      ensures Matches(rows[j], e.dims, Printed(e.dtypes)) && (forall k :: 0 <= k < |e.dtypes| ==> NulFree(e.dtypes[k]))
              ==> SameKey(rows[i], rows[j])
      ensures SameKey(rows[i], rows[j]) && (forall k :: 0 <= k < |e.dtypes| ==> NulFree(e.dtypes[k]))
              ==> Matches(rows[j], e.dims, Printed(e.dtypes))
    {
      MatchesOwn(rows[j], e);
      if Matches(rows[j], e.dims, Printed(e.dtypes)) && (forall k :: 0 <= k < |e.dtypes| ==> NulFree(e.dtypes[k])) {
        assert rows[j].dtypes == e.dtypes;
      }
    }
  }

  // The entries loop and build_index() of load().
  method FillTable(hash: HashFn, storageId: string, schema: Schema, raw: seq<RawRow>)
    returns (table: KernelTable)
    requires forall i :: 0 <= i < |raw| ==> |raw[i].dims| == |schema.columns|
    ensures fresh(table) && table.BaseValid()
    ensures table.hash == hash && table.schema == schema && table.storageId == storageId
    ensures SameRows(table.entries, StoredAll(schema, raw))
  {
    table := new KernelTable.Empty(hash, storageId, schema);
    var index := 0;
    while index < |raw|
      invariant 0 <= index <= |raw|
      invariant table.entries == StoredAll(schema, raw)[..index]
      invariant table.schema == schema && table.storageId == storageId
      invariant table.online == null && table.offline == null
    {
      table.entries := table.entries + [Stored(schema, raw[index])];
      index := index + 1;
    }
    table.BuildIndex();
    table.entryCount := |table.entries|;
  }

  // What the duplicate-key loop finds out about row i.
  ghost predicate FindsItself(schema: Schema, rows: seq<Entry>, i: nat)
    requires i < |rows|
  {
    && |schema.columns| <= MAX_COLUMNS
    && (forall k :: 0 <= k < |rows[i].dtypes| ==> NulFree(rows[i].dtypes[k]))
    && (forall j :: i < j < |rows| ==> !SameKey(rows[i], rows[j]))
  }

  lemma OwnAnswer(table: KernelTable, i: nat)
    requires table.BaseValid() && i < |table.entries|
    requires |table.entries[i].dims| == |table.schema.columns| && |table.entries[i].dtypes| == table.schema.ndtypes
    requires Normalize(table.schema.Strategies(), table.entries[i].dims) == table.entries[i].dims
    ensures table.Answer(OwnKey(table.entries[i])) == Some(Offline(i)) <==> FindsItself(table.schema, table.entries, i)
  {
    SelfLookup(table.entries, i);
  }

  lemma EachFindsItself(schema: Schema, rows: seq<Entry>, i: nat)
    requires Loadable(schema, rows) && i < |rows|
    ensures FindsItself(schema, rows, i)
  {
  }

  ghost predicate FindThemselves(schema: Schema, rows: seq<Entry>, n: nat) {
    n <= |rows| && forall i :: 0 <= i < n ==> FindsItself(schema, rows, i)
  }

  lemma OneMoreFinds(schema: Schema, rows: seq<Entry>, n: nat)
    requires FindThemselves(schema, rows, n) && n < |rows| && FindsItself(schema, rows, n)
    ensures FindThemselves(schema, rows, n + 1)
  {
  }

  lemma AllFindThemselves(schema: Schema, rows: seq<Entry>)
    requires FindThemselves(schema, rows, |rows|)
    ensures Loadable(schema, rows)
  {
    assert rows != [] ==> FindsItself(schema, rows, 0);
    forall i, j | 0 <= i < j < |rows|
      ensures !SameKey(rows[i], rows[j])
    {
      assert FindsItself(schema, rows, i);
    }
    forall i, k | 0 <= i < |rows| && 0 <= k < |rows[i].dtypes|
      ensures NulFree(rows[i].dtypes[k])
    {
      assert FindsItself(schema, rows, i);
    }
  }

  // One round of the duplicate-key loop of load().
  method CheckRow(table: KernelTable, i: nat) returns (ok: bool)
    requires table.BaseValid() && i < |table.entries|
    requires |table.entries[i].dims| == |table.schema.columns| && |table.entries[i].dtypes| == table.schema.ndtypes
    requires Normalize(table.schema.Strategies(), table.entries[i].dims) == table.entries[i].dims
    ensures ok <==> FindsItself(table.schema, table.entries, i)
  {
    OwnAnswer(table, i);
    var found := table.Find(OwnKey(table.entries[i]));
    return found == Some(Offline(i));
  }

  // The duplicate-key loop of load().
  method SelfCheck(table: KernelTable) returns (ok: bool)
    requires table.BaseValid()
    requires forall i :: 0 <= i < |table.entries| ==>
               && |table.entries[i].dims| == |table.schema.columns| && |table.entries[i].dtypes| == table.schema.ndtypes
               && Normalize(table.schema.Strategies(), table.entries[i].dims) == table.entries[i].dims
    ensures ok <==> Loadable(table.schema, table.entries)
  {
    var rows, index := table.entries, 0;
    while index < |rows|
      invariant 0 <= index <= |rows| && FindThemselves(table.schema, rows, index)
    {
      ok := CheckRow(table, index);
      if !ok {
        if Loadable(table.schema, rows) {
          EachFindsItself(table.schema, rows, index);
        }
        return;
      }
      OneMoreFinds(table.schema, rows, index);
      index := index + 1;
    }
    AllFindThemselves(table.schema, rows);
    ok := true;
  }

  /** load(), per kernel: normalise the rows, index them, and look every row up again. A kernel is
      refused exactly when two rows coincide after normalisation, when it has rows under more than
      32 key columns, or when a dtype holds a NUL byte. */
  method LoadKernel(hash: HashFn, storageId: string, schema: Schema, raw: seq<RawRow>)
    returns (r: Option<KernelTable>)
    requires forall i :: 0 <= i < |raw| ==> |raw[i].dims| == |schema.columns| && |raw[i].dtypes| == schema.ndtypes
    ensures r.Some? <==> Loadable(schema, StoredAll(schema, raw))
    ensures r.Some? ==> fresh(r.value) && r.value.BaseValid()
    ensures r.Some? ==> r.value.hash == hash && r.value.schema == schema && r.value.storageId == storageId
    ensures r.Some? ==> SameRows(r.value.entries, StoredAll(schema, raw))
  {
    var table := FillTable(hash, storageId, schema, raw);
    ghost var stored := StoredAll(schema, raw);
    forall i | 0 <= i < |raw|
      ensures Normalize(schema.Strategies(), stored[i].dims) == stored[i].dims
    {
      NormalizeSeqIdempotent(schema.Strategies(), raw[i].dims);
    }
    var ok := SelfCheck(table);
    LoadableSameRows(schema, table.entries, stored);
    return if ok then Some(table) else None;
  }

  lemma LoadableSameRows(schema: Schema, a: seq<Entry>, b: seq<Entry>)
    requires SameRows(a, b)
    ensures Loadable(schema, a) <==> Loadable(schema, b)
  {
    assert forall i :: 0 <= i < |a| ==> SameKey(a[i], b[i]);
    if a != [] {
      assert (forall i, j :: 0 <= i < j < |a| ==> !SameKey(a[i], a[j])) <==>
             (forall i, j :: 0 <= i < j < |b| ==> !SameKey(b[i], b[j])) by {
        forall i, j | 0 <= i < j < |a|
          ensures SameKey(a[i], a[j]) <==> SameKey(b[i], b[j])
        {
        }
      }
    }
  }

  // Two views that a table of this schema cannot tell apart.
  ghost predicate SameNormalKey(schema: Schema, k: KeyView, key: KeyView)
    requires k.Readable() && key.Readable()
  {
    && k.Fits(schema) && key.Fits(schema)
    && Normalize(schema.Strategies(), k.Dims()) == Normalize(schema.Strategies(), key.Dims())
    && k.Dtypes() == key.Dtypes()
  }

  function Names(dtypes: seq<Option<CString>>): (r: seq<string>)
    requires forall i :: 0 <= i < |dtypes| ==> dtypes[i].Some?
    ensures |r| == |dtypes|
  {
    seq(|dtypes|, i requires 0 <= i < |dtypes| => dtypes[i].value)
  }

  // The stored row matches exactly the views with the inserted key.
  lemma NamesMatch(row: Entry, key: KeyView, k: KeyView, schema: Schema)
    requires k.Readable() && key.Readable() && k.Fits(schema) && key.Fits(schema)
    requires forall i :: 0 <= i < key.ndtypes ==> key.Dtypes()[i].Some?
    requires row.dims == Normalize(schema.Strategies(), key.Dims()) && row.dtypes == Names(key.Dtypes())
    ensures Matches(row, Normalize(schema.Strategies(), k.Dims()), k.Dtypes()) <==> SameNormalKey(schema, k, key)
  {
    if Matches(row, Normalize(schema.Strategies(), k.Dims()), k.Dtypes()) {
      assert k.Dtypes() == key.Dtypes();
    }
  }

  // Where a kernel with these rows finds a view.
  ghost function PlaceRows(schema: Schema, online: seq<Entry>, offline: seq<Entry>, key: KeyView): (p: Option<Place>)
    requires key.Readable()
    ensures p.Some? ==> if p.value.Online? then p.value.i < |online| else p.value.i < |offline|
  {
    if key.Fits(schema) then LocateIn(online, offline, Normalize(schema.Strategies(), key.Dims()), key.Dtypes())
    else None
  }

  // The configuration it answers the view with.
  ghost function AnswerRows(schema: Schema, online: seq<Entry>, offline: seq<Entry>, key: KeyView): Option<TunedConfig>
    requires key.Readable()
  {
    match PlaceRows(schema, online, offline, key)
    case None => None
    case Some(Online(i)) => Some(online[i].config)
    case Some(Offline(i)) => Some(offline[i].config)
  }

  // One more online row is found under its own key, and moves nothing else.
  lemma AppendPlaces(schema: Schema, online: seq<Entry>, row: Entry, offline: seq<Entry>, key: KeyView, k: KeyView)
    requires k.Readable() && key.Readable() && key.Fits(schema)
    requires forall i :: 0 <= i < key.ndtypes ==> key.Dtypes()[i].Some?
    requires row.dims == Normalize(schema.Strategies(), key.Dims()) && row.dtypes == Names(key.Dtypes())
    ensures PlaceRows(schema, online + [row], offline, k) ==
            if SameNormalKey(schema, k, key) then Some(Online(|online|)) else PlaceRows(schema, online, offline, k)
  {
    if k.Fits(schema) {
      NewestMatchAppend(online, row, |online|, Normalize(schema.Strategies(), k.Dims()), k.Dtypes());
      NamesMatch(row, key, k, schema);
    }
  }

  /** One more online row, stored under a key that fits, answers exactly the views that normalise to
      that key; every other view is answered as before. */
  lemma AppendAnswers(schema: Schema, online: seq<Entry>, row: Entry, offline: seq<Entry>, key: KeyView, k: KeyView)
    requires k.Readable() && key.Readable() && key.Fits(schema)
    requires forall i :: 0 <= i < key.ndtypes ==> key.Dtypes()[i].Some?
    requires row.dims == Normalize(schema.Strategies(), key.Dims()) && row.dtypes == Names(key.Dtypes())
    ensures AnswerRows(schema, online + [row], offline, k) ==
            if SameNormalKey(schema, k, key) then Some(row.config) else AnswerRows(schema, online, offline, k)
  {
    AppendPlaces(schema, online, row, offline, key, k);
  }

  // ---- what a loaded kernel answers

  // The view a launcher makes of a raw row: its own shape, not yet normalised.
  function RawKey(raw: RawRow): (k: KeyView)
    ensures k.Readable()
  {
    KeyView(|raw.dims|, Some(raw.dims), |raw.dtypes|, Some(Printed(raw.dtypes)))
  }

  lemma StoredMatches(schema: Schema, raw: RawRow, k: KeyView)
    requires |raw.dims| == |schema.columns| && |raw.dtypes| == schema.ndtypes && |schema.columns| <= MAX_COLUMNS
    requires forall i :: 0 <= i < |raw.dtypes| ==> NulFree(raw.dtypes[i])
    requires k.Readable() && k.Fits(schema)
    ensures Matches(Stored(schema, raw), Normalize(schema.Strategies(), k.Dims()), k.Dtypes()) <==>
              SameNormalKey(schema, k, RawKey(raw))
    ensures Stored(schema, raw).config == raw.config
  {
    if Matches(Stored(schema, raw), Normalize(schema.Strategies(), k.Dims()), k.Dtypes()) {
      assert k.Dtypes() == Printed(raw.dtypes);
    }
  }

  /** A loaded kernel answers every shape that normalises like one of its rows with that row's configuration, and
      nothing else. */
  lemma LoadedAnswers(schema: Schema, raw: seq<RawRow>, k: KeyView)
    requires forall i :: 0 <= i < |raw| ==> |raw[i].dims| == |schema.columns| && |raw[i].dtypes| == schema.ndtypes
    requires Loadable(schema, StoredAll(schema, raw)) && k.Readable()
    ensures forall i :: 0 <= i < |raw| && SameNormalKey(schema, k, RawKey(raw[i])) ==>
              AnswerRows(schema, [], StoredAll(schema, raw), k) == Some(raw[i].config)
    ensures (forall i :: 0 <= i < |raw| ==> !SameNormalKey(schema, k, RawKey(raw[i]))) ==>
              AnswerRows(schema, [], StoredAll(schema, raw), k) == None
  {
    var rows := StoredAll(schema, raw);
    if k.Fits(schema) {
      forall i | 0 <= i < |raw|
        ensures Matches(rows[i], Normalize(schema.Strategies(), k.Dims()), k.Dtypes()) <==>
                  SameNormalKey(schema, k, RawKey(raw[i]))
        ensures rows[i].config == raw[i].config
      {
        assert rows[i] == Stored(schema, raw[i]);
        assert forall d :: 0 <= d < |raw[i].dtypes| ==> NulFree(rows[i].dtypes[d]);
        StoredMatches(schema, raw[i], k);
      }
      var found := NewestMatch(rows, |rows|, Normalize(schema.Strategies(), k.Dims()), k.Dtypes());
      forall i | 0 <= i < |raw| && SameNormalKey(schema, k, RawKey(raw[i]))
        ensures found == i
      {
        if found != i {
          assert SameKey(rows[i], rows[found]);
        }
      }
    }
  }

  // What insert_resolved refuses, first the one, then the other.
  predicate WrongWidth(key: KeyView, resolved: Resolved) {
    |resolved.columns| != key.ndims || key.ndims > 32
  }

  predicate WrongNamespace(kernelId: string, slot: Slot, resolved: Resolved) {
    resolved.cacheNamespace != "" && Identity.ScopedKernelId(kernelId, resolved.cacheNamespace) != slot.storageId
  }

  // What one published kernel holds: its key schema, and the rows of both layers.
  datatype Rows = Rows(schema: Schema, online: seq<Entry>, offline: seq<Entry>)

  // What find() answers when the tables hold these rows.
  ghost function Answer(contents: map<Slot, Rows>, slot: Slot, key: KeyView): Option<TunedConfig>
    requires key.Readable()
  {
    if slot !in contents then None
    else AnswerRows(contents[slot].schema, contents[slot].online, contents[slot].offline, key)
  }

  // The contents after one more online row; a kernel that had no table starts with empty layers.
  ghost function WithRow(contents: map<Slot, Rows>, slot: Slot, schema: Schema, row: Entry): map<Slot, Rows> {
    var before := if slot in contents then contents[slot] else Rows(schema, [], []);
    contents[slot := before.(online := before.online + [row])]
  }

  ghost predicate Bound(contents: map<Slot, Rows>, slot: Slot, schema: Schema) {
    slot in contents ==> contents[slot].schema == schema
  }

  /** Seen through find(), adding a row changes the answers of exactly one key of one kernel. */
  lemma WithRowAnswers(contents: map<Slot, Rows>, slot: Slot, schema: Schema, row: Entry, key: KeyView, s: Slot,
                       k: KeyView)
    requires Bound(contents, slot, schema) && key.Readable() && key.Fits(schema) && k.Readable()
    requires forall i :: 0 <= i < key.ndtypes ==> key.Dtypes()[i].Some?
    requires row.dims == Normalize(schema.Strategies(), key.Dims()) && row.dtypes == Names(key.Dtypes())
    ensures Answer(WithRow(contents, slot, schema, row), s, k) ==
            if s == slot && SameNormalKey(schema, k, key) then Some(row.config) else Answer(contents, s, k)
  {
    if s == slot {
      var before := if slot in contents then contents[slot] else Rows(schema, [], []);
      AppendAnswers(schema, before.online, row, before.offline, key, k);
    }
  }

  // The table of one kernel holds the rows that `rows` says, and counts them.
  ghost predicate Sound(hash: HashFn, s: Slot, t: KernelTable, rows: Rows)
    reads t, t.online, t.offline
  {
    && t.Valid() && t.hash == hash && t.storageId == s.storageId
    && rows == Rows(t.schema, t.OnlineRows(), t.OfflineRows())
    && t.entryCount == |rows.online| + |rows.offline|
  }

  // find() on a table known to hold certain rows, and the read through the pointer it returns.
  method FindIn(hash: HashFn, slot: Slot, table: KernelTable, ghost rows: Rows, key: KeyView)
    returns (r: Option<TunedConfig>)
    requires Sound(hash, slot, table, rows) && key.Readable()
    ensures r == AnswerRows(rows.schema, rows.online, rows.offline, key)
  {
    var p := table.Find(key);
    if p.None? {
      return None;
    }
    var config := table.Config(p.value);
    return Some(config);
  }

  // Links a node into the storage of a table that is not published yet, and counts it.
  method LinkInto(hash: HashFn, slot: Slot, table: KernelTable, storage: OnlineStorage, row: Entry, ghost rows: Rows)
    returns (ghost node: Entry)
    requires table.LayerValid() && table.online == storage && Sound(hash, slot, table, rows)
    modifies table, storage
    ensures table.online == storage && node == row.(next := node.next)
    ensures Sound(hash, slot, table, rows.(online := rows.online + [node]))
  {
    storage.Append(row);
    node := storage.owned[|rows.online|];
    table.entryCount := table.entryCount + 1;
  }

  /** TunedTable: the current snapshot, and every snapshot ever published. */
  class TunedTable {
    const hash: HashFn
    var snap: map<Slot, KernelTable>
    var history: seq<map<Slot, KernelTable>>
    ghost var contents: map<Slot, Rows>

    ghost predicate Valid()
      reads *
    {
      && snap.Keys == contents.Keys
      && (forall s :: s in snap ==> Sound(hash, s, snap[s], contents[s]))
      && (forall s, t :: s in snap && t in snap && s != t && snap[s].online != null ==>
            snap[s].online != snap[t].online)
      && (snap.Keys != {} ==> history != [] && history[|history| - 1] == snap)
    }

    ghost function StorageOf(slot: Slot): set<OnlineStorage>
      reads this, if slot in snap then {snap[slot]} else {}
    {
      if slot in snap && snap[slot].online != null then {snap[slot].online} else {}
    }

    constructor (hash: HashFn)
      ensures Valid() && contents == map[] && history == [] && this.hash == hash
    {
      this.hash := hash;
      snap := map[];
      history := [];
      contents := map[];
    }

    // publish_locked: copy, replace one kernel, retire the old snapshot into history.
    method PublishLocked(device: nat, table: KernelTable, ghost rows: Rows)
      requires snap.Keys == contents.Keys
      requires Sound(hash, Slot(table.storageId, device), table, rows)
      requires forall s :: s in snap && s != Slot(table.storageId, device) ==>
                 Sound(hash, s, snap[s], contents[s]) && (table.online != null ==> snap[s].online != table.online)
      requires forall s, t :: s in snap && t in snap && s != t && snap[s].online != null ==>
                 snap[s].online != snap[t].online
      modifies this
      ensures Valid() && history == old(history) + [snap]
      ensures snap == old(snap)[Slot(table.storageId, device) := table]
      ensures contents == old(contents)[Slot(table.storageId, device) := rows]
    {
      var next := snap[Slot(table.storageId, device) := table];
      history := history + [next];
      snap := next;
      contents := contents[Slot(table.storageId, device) := rows];
    }

    /** find(): one snapshot read, then the kernel's own index. */
    method Find(slot: Slot, key: KeyView) returns (r: Option<TunedConfig>)
      requires Valid() && key.Readable()
      ensures r == Answer(contents, slot, key)
    {
      if slot !in snap {
        return None;
      }
      r := FindIn(hash, slot, snap[slot], contents[slot], key);
    }

    // The publication loop of load() for one kernel: a new generation, without online rows.
    method Publish(device: nat, table: KernelTable)
      requires Valid() && table.BaseValid() && table.hash == hash
      modifies this
      ensures Valid() && history == old(history) + [snap]
      ensures contents == old(contents)[Slot(table.storageId, device) := Rows(table.schema, [], table.entries)]
    {
      PublishLocked(device, table, Rows(table.schema, [], table.entries));
    }

    // The table insert_resolved publishes: it shares the current online storage, or starts one over
    // the current offline rows.
    method NextLayer(slot: Slot, schema: Schema) returns (table: KernelTable, storage: OnlineStorage)
      requires Valid() && Bound(contents, slot, schema)
      ensures fresh(table) && table.LayerValid() && table.online == storage
      ensures table.hash == hash && table.storageId == slot.storageId && table.schema == schema
      ensures slot in snap && snap[slot].online != null ==> storage == snap[slot].online
      ensures !(slot in snap && snap[slot].online != null) ==> fresh(storage)
      ensures table.OnlineRows() == (if slot in snap then contents[slot].online else [])
      ensures table.OfflineRows() == (if slot in snap then contents[slot].offline else [])
      ensures table.entryCount == |table.OnlineRows()| + |table.OfflineRows()|
    {
      table := new KernelTable.Empty(hash, slot.storageId, schema);
      if slot in snap {
        var current := snap[slot];
        assert Sound(hash, slot, current, contents[slot]);
        table.entryCount := current.entryCount;
        table.online := current.online;
        table.offline := if current.online != null then current.offline else current;
      }
      if table.online == null {
        storage := new OnlineStorage(hash);
        table.online := storage;
      } else {
        storage := table.online;
      }
    }

    // Links a node into the slot's online storage; the result is the table that counts it.
    method AppendRow(slot: Slot, schema: Schema, row: Entry) returns (table: KernelTable, ghost node: Entry)
      requires Valid() && Bound(contents, slot, schema)
      modifies StorageOf(slot)
      ensures fresh(table) && table.online != null && node == row.(next := node.next)
      ensures Sound(hash, slot, table, WithRow(contents, slot, schema, node)[slot])
      ensures forall s :: s in snap && s != slot ==>
                Sound(hash, s, snap[s], contents[s]) && snap[s].online != table.online
    {
      var storage;
      table, storage := NextLayer(slot, schema);
      node := LinkInto(hash, slot, table, storage, row, Rows(schema, table.OnlineRows(), table.OfflineRows()));
      forall s | s in snap && s != slot
        ensures Sound(hash, s, snap[s], contents[s]) && snap[s].online != storage
      {
        assert old(Sound(hash, s, snap[s], contents[s]));
      }
    }

    // The part of insert_resolved that runs after a miss: link the node, then publish its table.
    method AddRow(slot: Slot, schema: Schema, row: Entry) returns (ghost node: Entry)
      requires Valid() && Bound(contents, slot, schema)
      modifies this, StorageOf(slot)
      ensures Valid() && old(history) <= history
      ensures node == row.(next := node.next)
      ensures contents == WithRow(old(contents), slot, schema, node)
    {
      var table;
      table, node := AppendRow(slot, schema, row);
      PublishLocked(slot.device, table, WithRow(contents, slot, schema, node)[slot]);
    }

    /** insert_resolved, with the lock held. Either one of its three errors and no change; or the
        configuration find() already gave; or one new row. In the last case find() answers it for
        exactly the keys that normalise to the resolved one, and everything else as before. */
    method InsertResolved(kernelId: string, slot: Slot, key: KeyView, resolved: Resolved)
      returns (r: Result<TunedConfig, InsertError>)
      requires Valid() && key.Readable() && (key.ndims > 0 ==> key.dims.Some?) && (key.ndtypes > 0 ==> key.dtypes.Some?)
      requires forall i :: 0 <= i < key.ndtypes ==> key.Dtypes()[i].Some?
      modifies this, StorageOf(slot)
      ensures Valid() && old(history) <= history
      ensures r == Err(IncompatibleWidth) <==> WrongWidth(key, resolved)
      ensures r == Err(OtherNamespace) <==> !WrongWidth(key, resolved) && WrongNamespace(kernelId, slot, resolved)
      ensures r == Err(SchemaMismatch) <==>
                !WrongWidth(key, resolved) && !WrongNamespace(kernelId, slot, resolved)
                && !Bound(old(contents), slot, Schema(resolved.columns, key.ndtypes))
      ensures r.Err? || Answer(old(contents), slot, key).Some? ==> contents == old(contents) && history == old(history)
      ensures r.Ok? ==> Answer(contents, slot, key) == Some(r.value)
      ensures r.Ok? && Answer(old(contents), slot, key).None? ==> r.value == resolved.config
      ensures r.Ok? && Answer(old(contents), slot, key).None? ==> forall s, k: KeyView :: k.Readable() ==>
                Answer(contents, s, k) ==
                if s == slot && SameNormalKey(Schema(resolved.columns, key.ndtypes), k, key) then Some(resolved.config)
                else Answer(old(contents), s, k)
    {
      if |resolved.columns| != key.ndims || key.ndims > MAX_COLUMNS {
        return Err(IncompatibleWidth);
      }
      if resolved.cacheNamespace != "" && Identity.ScopedKernelId(kernelId, resolved.cacheNamespace) != slot.storageId {
        return Err(OtherNamespace);
      }
      var schema := Schema(resolved.columns, key.ndtypes);
      if slot in snap {
        assert Sound(hash, slot, snap[slot], contents[slot]);
        if snap[slot].schema != schema {
          return Err(SchemaMismatch);
        }
        var hit := Find(slot, key);
        if hit.Some? {
          return Ok(hit.value);
        }
      }
      ghost var before := contents;
      var row := Entry(Normalize(schema.Strategies(), key.Dims()), Names(key.Dtypes()), resolved.config, NIL);
      ghost var node := AddRow(slot, schema, row);
      forall s, k: KeyView | k.Readable()
        ensures Answer(contents, s, k) ==
                if s == slot && SameNormalKey(schema, k, key) then Some(resolved.config) else Answer(before, s, k)
      {
        WithRowAnswers(before, slot, schema, node, key, s, k);
      }
      return Ok(resolved.config);
    }
  }
}
