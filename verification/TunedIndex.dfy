/** The two-layer hash index of one tuned kernel (src/tuned_config.cpp, lines 428-518): immutable
    offline rows, and online nodes that are only ever appended. Pointers to rows are modelled as
    indices, which is what "stable address" amounts to in an append-only store. */
module TunedIndex {
  import opened KeySchema

  datatype Option<+T> = None | Some(value: T)

  datatype TunedValue = IntValue(i: int) | BoolValue(b: bool) | RealValue(r: real) | TextValue(s: string)

  datatype TunedConfig = TunedConfig(
    numWarps: int, numStages: int, extra: map<string, string>, kwargs: seq<(string, TunedValue)>)

  const MAX_COLUMNS: nat := 32
  const ONLINE_BUCKETS: nat := 1024
  // UINT32_MAX in the offline chains, nullptr in the online ones.
  const NIL: int := -1

  // What a `const char*` can denote.
  type CString = s: string | forall i :: 0 <= i < |s| ==> s[i] != '\0' witness []

  // std::string::c_str() as strlen and strcmp read it: everything before the first NUL.
  function CStr(s: string): (r: CString)
    ensures |r| <= |s|
    ensures r == s <==> forall i :: 0 <= i < |s| ==> s[i] != '\0'
  {
    if s == [] || s[0] == '\0' then []
    else
      var rest: CString := CStr(s[1..]);
      assert forall i :: 0 <= i < |s| - 1 ==> s[1..][i] == s[i + 1];
      assert s == [s[0]] + s[1..];
      [s[0]] + rest
  }

  datatype Schema = Schema(columns: seq<(string, Strategy)>, ndtypes: nat) {
    function Strategies(): (r: seq<Strategy>)
      ensures |r| == |columns|
    {
      seq(|columns|, i requires 0 <= i < |columns| => columns[i].1)
    }
  }

  datatype Entry = Entry(dims: seq<int>, dtypes: seq<string>, config: TunedConfig, next: int)

  // TuneKeyView: both arrays, and every dtype in the second one, may be null.
  datatype KeyView = KeyView(
    ndims: nat, dims: Option<seq<int>>, ndtypes: nat, dtypes: Option<seq<Option<CString>>>)
  {
    predicate Readable() {
      && (dims.Some? ==> |dims.value| == ndims)
      && (dtypes.Some? ==> |dtypes.value| == ndtypes)
    }

    // An empty array may be passed as null.
    function Dims(): (r: seq<int>)
      requires Readable() && (ndims > 0 ==> dims.Some?)
      ensures |r| == ndims
    {
      if dims.Some? then dims.value else []
    }

    function Dtypes(): (r: seq<Option<CString>>)
      requires Readable() && (ndtypes > 0 ==> dtypes.Some?)
      ensures |r| == ndtypes
    {
      if dtypes.Some? then dtypes.value else []
    }

    // The guards at the top of find().
    predicate Fits(schema: Schema) {
      && ndims == |schema.columns| && ndtypes == schema.ndtypes && ndims <= MAX_COLUMNS
      && (ndims > 0 ==> dims.Some?) && (ndtypes > 0 ==> dtypes.Some?)
    }
  }

  // A row's own place: which layer, and where in it.
  datatype Place = Online(i: nat) | Offline(i: nat)

  type HashFn = (seq<int>, seq<CString>) -> nat

  function Hashed(dtypes: seq<Option<CString>>): (r: seq<CString>)
    ensures |r| == |dtypes|
  {
    seq(|dtypes|, i requires 0 <= i < |dtypes| => if dtypes[i].Some? then dtypes[i].value else [])
  }

  function Printed(dtypes: seq<string>): (r: seq<Option<CString>>)
    ensures |r| == |dtypes|
  {
    seq(|dtypes|, i requires 0 <= i < |dtypes| => Some(CStr(dtypes[i])))
  }

  // hash_key over a stored entry, reduced to a bucket number (the masks are `count - 1` for a
  // power of two `count`).
  function BucketOf(hash: HashFn, entry: Entry, count: nat): (b: nat)
    requires count > 0
    ensures b < count
  {
    hash(entry.dims, Hashed(Printed(entry.dtypes))) % count
  }

  predicate Matches(entry: Entry, dims: seq<int>, dtypes: seq<Option<CString>>) {
    && entry.dims == dims
    && |entry.dtypes| == |dtypes|
    && forall i :: 0 <= i < |dtypes| ==> dtypes[i].Some? && entry.dtypes[i] == dtypes[i].value
  }

  // The specification of a lookup: scan the first n rows from the newest to the oldest.
  function NewestMatch(rows: seq<Entry>, n: nat, dims: seq<int>, dtypes: seq<Option<CString>>): (r: int)
    requires n <= |rows|
    ensures r == NIL || (0 <= r < n && Matches(rows[r], dims, dtypes))
    ensures forall i :: r < i < n && 0 <= i ==> !Matches(rows[i], dims, dtypes)
  {
    if n == 0 then NIL
    else if Matches(rows[n - 1], dims, dtypes) then n - 1
    else NewestMatch(rows, n - 1, dims, dtypes)
  }

  // The newest of the first n rows that hashes to bucket b.
  ghost function LastIn(hash: HashFn, rows: seq<Entry>, count: nat, b: nat, n: nat): (r: int)
    requires n <= |rows| && count > 0
    ensures r == NIL || (0 <= r < n && BucketOf(hash, rows[r], count) == b)
    ensures forall i :: r < i < n && 0 <= i ==> BucketOf(hash, rows[i], count) != b
  {
    if n == 0 then NIL
    else if BucketOf(hash, rows[n - 1], count) == b then n - 1
    else LastIn(hash, rows, count, b, n - 1)
  }

  ghost predicate HeadsOk(hash: HashFn, rows: seq<Entry>, heads: seq<int>, n: nat)
    requires n <= |rows|
  {
    |heads| > 0 && forall b :: 0 <= b < |heads| ==> heads[b] == LastIn(hash, rows, |heads|, b, n)
  }

  ghost predicate LinksOk(hash: HashFn, rows: seq<Entry>, count: nat, n: nat)
    requires n <= |rows| && count > 0
  {
    forall i :: 0 <= i < n ==> rows[i].next == LastIn(hash, rows, count, BucketOf(hash, rows[i], count), i)
  }

  // Every bucket heads the chain of exactly the rows that hash to it, newest first.
  ghost predicate Chained(hash: HashFn, rows: seq<Entry>, heads: seq<int>, n: nat)
    requires n <= |rows|
  {
    HeadsOk(hash, rows, heads, n) && LinksOk(hash, rows, |heads|, n)
  }

  ghost predicate SameKeys(a: seq<Entry>, b: seq<Entry>) {
    |a| <= |b| && forall i :: 0 <= i < |a| ==> a[i].dims == b[i].dims && a[i].dtypes == b[i].dtypes
  }

  lemma {:induction false} LastInSameKeys(hash: HashFn, a: seq<Entry>, b: seq<Entry>, count: nat, bucket: nat, n: nat)
    requires SameKeys(a, b) && n <= |a| && count > 0
    ensures LastIn(hash, a, count, bucket, n) == LastIn(hash, b, count, bucket, n)
  {
    if n > 0 {
      LastInSameKeys(hash, a, b, count, bucket, n - 1);
    }
  }

  // Rewriting links, or appending rows, leaves what is already chained chained.
  lemma ChainedSameKeys(hash: HashFn, a: seq<Entry>, b: seq<Entry>, heads: seq<int>, n: nat)
    requires SameKeys(a, b) && n <= |a| && Chained(hash, a, heads, n)
    requires forall i :: 0 <= i < n ==> a[i].next == b[i].next
    ensures Chained(hash, b, heads, n)
  {
    forall k: nat, bucket: nat | k <= n
      ensures LastIn(hash, a, |heads|, bucket, k) == LastIn(hash, b, |heads|, bucket, k)
    {
      LastInSameKeys(hash, a, b, |heads|, bucket, k);
    }
    assert forall i :: 0 <= i < n ==> BucketOf(hash, a[i], |heads|) == BucketOf(hash, b[i], |heads|);
  }

  lemma HeadsExtend(hash: HashFn, rows: seq<Entry>, heads: seq<int>, n: nat, b: nat)
    requires n < |rows| && HeadsOk(hash, rows, heads, n)
    requires b == BucketOf(hash, rows[n], |heads|)
    ensures HeadsOk(hash, rows, heads[b := n], n + 1)
  {
    var heads' := heads[b := n];
    forall c | 0 <= c < |heads'|
      ensures heads'[c] == LastIn(hash, rows, |heads|, c, n + 1)
    {
      if c != b {
        assert heads[c] == LastIn(hash, rows, |heads|, c, n);
      }
    }
  }

  // Head insertion of row n extends the chained prefix by one.
  lemma ChainedExtend(hash: HashFn, rows: seq<Entry>, heads: seq<int>, n: nat, heads': seq<int>)
    requires n < |rows| && Chained(hash, rows, heads, n)
    requires var b := BucketOf(hash, rows[n], |heads|);
             rows[n].next == heads[b] && heads' == heads[b := n]
    ensures Chained(hash, rows, heads', n + 1)
  {
    HeadsExtend(hash, rows, heads, n, BucketOf(hash, rows[n], |heads|));
    LinksExtend(hash, rows, heads, n);
  }

  lemma LinksExtend(hash: HashFn, rows: seq<Entry>, heads: seq<int>, n: nat)
    requires n < |rows| && Chained(hash, rows, heads, n)
    requires rows[n].next == heads[BucketOf(hash, rows[n], |heads|)]
    ensures LinksOk(hash, rows, |heads|, n + 1)
  {
    assert heads[BucketOf(hash, rows[n], |heads|)] == LastIn(hash, rows, |heads|, BucketOf(hash, rows[n], |heads|), n);
  }

  lemma MatchHashes(hash: HashFn, entry: Entry, dims: seq<int>, dtypes: seq<Option<CString>>, count: nat)
    requires Matches(entry, dims, dtypes) && count > 0
    ensures BucketOf(hash, entry, count) == hash(dims, Hashed(dtypes)) % count
  {
    assert Printed(entry.dtypes) == dtypes;
  }

  /** Following one bucket's chain finds what a scan over all rows finds, whatever the hash. */
  method Walk(ghost hash: HashFn, rows: seq<Entry>, ghost heads: seq<int>, head: int,
              dims: seq<int>, dtypes: seq<Option<CString>>)
    returns (r: int)
    requires Chained(hash, rows, heads, |rows|)
    requires head == heads[hash(dims, Hashed(dtypes)) % |heads|]
    ensures r == NewestMatch(rows, |rows|, dims, dtypes)
  {
    ghost var b := hash(dims, Hashed(dtypes)) % |heads|;
    ghost var k: nat := |rows|;
    var index := head;
    while index != NIL
      invariant k <= |rows| && index == LastIn(hash, rows, |heads|, b, k)
      invariant NewestMatch(rows, |rows|, dims, dtypes) == NewestMatch(rows, k, dims, dtypes)
      decreases index + 1
    {
      SkipOthers(hash, rows, |heads|, b, k, dims, dtypes);
      if Matches(rows[index], dims, dtypes) {
        return index;
      }
      k := index;
      index := rows[index].next;
    }
    SkipOthers(hash, rows, |heads|, b, k, dims, dtypes);
    return NIL;
  }

  // Rows above the last one in the key's bucket cannot match the key.
  lemma {:induction false} SkipOthers(hash: HashFn, rows: seq<Entry>, count: nat, b: nat, k: nat,
                                      dims: seq<int>, dtypes: seq<Option<CString>>)
    requires count > 0 && k <= |rows| && b == hash(dims, Hashed(dtypes)) % count
    ensures NewestMatch(rows, k, dims, dtypes) == NewestMatch(rows, LastIn(hash, rows, count, b, k) + 1, dims, dtypes)
  {
    if k > 0 {
      if Matches(rows[k - 1], dims, dtypes) {
        MatchHashes(hash, rows[k - 1], dims, dtypes, count);
      } else if BucketOf(hash, rows[k - 1], count) != b {
        SkipOthers(hash, rows, count, b, k - 1, dims, dtypes);
      }
    }
  }

  // Appended rows are looked at first and change nothing for keys they do not match.
  lemma {:induction false} NewestMatchAppend(rows: seq<Entry>, row: Entry, n: nat, dims: seq<int>,
                                             dtypes: seq<Option<CString>>)
    requires n <= |rows|
    ensures NewestMatch(rows + [row], n, dims, dtypes) == NewestMatch(rows, n, dims, dtypes)
  {
    if n > 0 {
      NewestMatchAppend(rows, row, n - 1, dims, dtypes);
    }
  }

  /** The online layer: `owned` is the vector that keeps nodes alive, `buckets` the atomic heads. */
  class OnlineStorage {
    const hash: HashFn
    var owned: seq<Entry>
    var buckets: seq<int>

    ghost predicate Valid()
      reads this
    {
      |buckets| == ONLINE_BUCKETS && Chained(hash, owned, buckets, |owned|)
    }

    constructor (hash: HashFn)
      ensures Valid() && owned == [] && this.hash == hash
    {
      this.hash := hash;
      owned := [];
      buckets := seq(ONLINE_BUCKETS, _ => NIL);
    }

    // The node part of insert_resolved: link to the old head, keep the node, store the new head.
    method Append(entry: Entry)
      requires Valid()
      modifies this
      ensures Valid()
      ensures owned == old(owned) + [entry.(next := old(buckets[BucketOf(hash, entry, ONLINE_BUCKETS)]))]
    {
      var b := BucketOf(hash, entry, ONLINE_BUCKETS);
      ghost var before := owned;
      var node := entry.(next := buckets[b]);
      owned := owned + [node];
      ChainedSameKeys(hash, before, owned, buckets, |before|);
      ChainedExtend(hash, owned, buckets, |before|, buckets[b := |before|]);
      buckets := buckets[b := |owned| - 1];
    }
  }

  /** TunedKernelTable: either offline rows, or an online storage over at most one offline table. */
  class KernelTable {
    const hash: HashFn
    var storageId: string
    var schema: Schema
    var entryCount: nat
    var entries: seq<Entry>
    var buckets: seq<int>
    var online: OnlineStorage?
    var offline: KernelTable?

    ghost predicate BaseValid()
      reads this
    {
      && online == null && offline == null
      && (entries != [] ==> Chained(hash, entries, buckets, |entries|))
      && entryCount == |entries|
    }

    ghost predicate LayerValid()
      reads this, online, offline
    {
      && online != null && online.hash == hash && online.Valid()
      && entries == []
      && (offline != null ==> offline.BaseValid() && offline.hash == hash && offline.schema == schema)
    }

    ghost predicate Valid()
      reads this, online, offline
    {
      BaseValid() || LayerValid()
    }

    ghost function OnlineRows(): seq<Entry>
      reads this, online
    {
      if online == null then [] else online.owned
    }

    ghost function OfflineRows(): seq<Entry>
      reads this, offline
    {
      if offline == null then entries else offline.entries
    }

    // The plain map both layers stand for: online before offline, newest first.
    ghost function Locate(dims: seq<int>, dtypes: seq<Option<CString>>): Option<Place>
      reads this, online, offline
    {
      LocateIn(OnlineRows(), OfflineRows(), dims, dtypes)
    }

    ghost function Answer(key: KeyView): Option<Place>
      requires key.Readable()
      reads this, online, offline
    {
      if key.Fits(schema)
      then Locate(Normalize(schema.Strategies(), key.Dims()), key.Dtypes())
      else None
    }

    ghost function ConfigAt(p: Place): Option<TunedConfig>
      reads this, online, offline
    {
      var rows := if p.Online? then OnlineRows() else OfflineRows();
      if p.i < |rows| then Some(rows[p.i].config) else None
    }

    // Reads a row's configuration through the pointer that find() returned.
    method Config(p: Place) returns (config: TunedConfig)
      requires ConfigAt(p).Some?
      ensures config == ConfigAt(p).value
    {
      if p.Online? {
        config := online.owned[p.i].config;
      } else if offline != null {
        config := offline.entries[p.i].config;
      } else {
        config := entries[p.i].config;
      }
    }

    constructor Empty(hash: HashFn, storageId: string, schema: Schema)
      ensures this.hash == hash && this.storageId == storageId && this.schema == schema
      ensures BaseValid() && entries == [] && buckets == [] && fresh(this)
    {
      this.hash := hash;
      this.storageId := storageId;
      this.schema := schema;
      entryCount := 0;
      entries := [];
      buckets := [];
      online := null;
      offline := null;
    }

    // Rebuilds every bucket and link from `entries`.
    method BuildIndex()
      modifies this`entries, this`buckets
      ensures Chained(hash, entries, buckets, |entries|)
      ensures SameRows(entries, old(entries))
    {
      var count := 16;
      while count < |entries| * 2
        invariant count >= 16
      {
        count := count * 2;
      }
      buckets := seq(count, _ => NIL);
      var index := 0;
      while index < |entries|
        invariant 0 <= index <= |entries| && |buckets| == count
        invariant SameRows(entries, old(entries))
        invariant Chained(hash, entries, buckets, index)
      {
        ghost var before := entries;
        var b := BucketOf(hash, entries[index], count);
        entries := entries[index := entries[index].(next := buckets[b])];
        ChainedSameKeys(hash, before, entries, buckets, index);
        ChainedExtend(hash, entries, buckets, index, buckets[b := index]);
        buckets := buckets[b := index];
        index := index + 1;
      }
    }

    /** find(): the hashed two-layer walk answers exactly what the plain map answers. */
    method Find(key: KeyView) returns (r: Option<Place>)
      requires Valid() && key.Readable()
      ensures r == Answer(key)
      decreases if offline == null then 0 else 1
    {
      if key.ndims != |schema.columns| || key.ndtypes != schema.ndtypes || |schema.columns| > MAX_COLUMNS {
        return None;
      }
      if (key.ndims > 0 && key.dims.None?) || (key.ndtypes > 0 && key.dtypes.None?) {
        return None;
      }
      var dtypes := key.Dtypes();
      var normalized := Normalize(schema.Strategies(), key.Dims());
      var code := hash(normalized, Hashed(dtypes));
      if online != null {
        var i := Walk(hash, online.owned, online.buckets, online.buckets[code % ONLINE_BUCKETS], normalized, dtypes);
        if i != NIL {
          return Some(Online(i));
        }
      }
      if offline != null {
        r := offline.Find(key);
        return;
      }
      if entries == [] {
        return None;
      }
      var i := Walk(hash, entries, buckets, buckets[code % |buckets|], normalized, dtypes);
      return if i == NIL then None else Some(Offline(i));
    }
  }

  ghost predicate SameRows(a: seq<Entry>, b: seq<Entry>) {
    |a| == |b| && forall i :: 0 <= i < |a| ==> a[i] == b[i].(next := a[i].next)
  }

  function LocateIn(onlineRows: seq<Entry>, offlineRows: seq<Entry>, dims: seq<int>,
                    dtypes: seq<Option<CString>>): (r: Option<Place>)
    ensures r.None? ==> forall e :: e in onlineRows + offlineRows ==> !Matches(e, dims, dtypes)
    ensures r.Some? && r.value.Online? ==>
              r.value.i < |onlineRows| && Matches(onlineRows[r.value.i], dims, dtypes)
    ensures r.Some? && r.value.Offline? ==>
              && r.value.i < |offlineRows| && Matches(offlineRows[r.value.i], dims, dtypes)
              && forall e :: e in onlineRows ==> !Matches(e, dims, dtypes)
  {
    var i := NewestMatch(onlineRows, |onlineRows|, dims, dtypes);
    if i != NIL then Some(Online(i))
    else
      var j := NewestMatch(offlineRows, |offlineRows|, dims, dtypes);
      if j != NIL then Some(Offline(j)) else None
  }
}
