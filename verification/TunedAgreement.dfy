/** What every run of the resolve() protocol keeps: tables and their storages stay consistent, keys
    are installed once, lock-free reads linearise, answers agree, nobody waits for ever. */
module TunedAgreement {
  import opened KeySchema
  import opened TunedIndex
  import opened TunedTable
  import opened TunedProtocol

  // ---- tables and storages

  // A table that shares a storage was published for the storage's own slot and base.
  ghost predicate TableOk(arenas: seq<Arena>, slot: Slot, t: Table) {
    t.arena.Some? ==>
      && t.arena.value < |arenas|
      && var a := arenas[t.arena.value];
         a.slot == slot && a.schema == t.schema && a.offline == t.offline && a.base == t.base
  }

  ghost predicate Unique(rows: seq<Entry>) {
    forall i, j :: 0 <= i < j < |rows| ==> !SameKey(rows[i], rows[j])
  }

  // Storages only ever gain rows at their end, and new storages come last.
  ghost predicate Grows(a: seq<Arena>, b: seq<Arena>) {
    |a| <= |b| && forall i :: 0 <= i < |a| ==>
      && b[i].slot == a[i].slot && b[i].schema == a[i].schema && b[i].offline == a[i].offline && b[i].base == a[i].base
      && a[i].rows <= b[i].rows
  }

  // The table an insertion is about to publish continues the current one.
  ghost predicate Continues(current: Option<Table>, next: Table) {
    current.Some? ==>
      && next.schema == current.value.schema && next.offline == current.value.offline && next.base == current.value.base
      && (current.value.arena.Some? ==> next == current.value)
  }

  ghost predicate HandleOk(s: State, r: Request, pc: Pc) {
    && (pc.Looked? || pc.Rechecking? ==> pc.table.Some? ==> TableOk(s.arenas, r.slot, pc.table.value))
    && (pc.Linked? ==>
          && TableOk(s.arenas, r.slot, pc.next) && pc.next.arena.Some?
          && Continues(Current(s, r.slot), pc.next)
          && r.key.Readable() && r.key.Fits(pc.next.schema)
          && AddsOne(s, r, pc.next, pc.found))
  }

  // Next to the published table, the next one answers one more key.
  ghost predicate AddsOne(s: State, r: Request, next: Table, found: Found)
    requires r.key.Readable()
  {
    && (forall k: KeyView :: k.Readable() ==>
          Lookup(s.arenas, Some(next), k) ==
          if SameNormalKey(next.schema, k, r.key) then Some(found) else Abs(s, r.slot, k))
    && (Abs(s, r.slot, r.key).Some? ==> Abs(s, r.slot, r.key) == Some(found))
  }

  ghost predicate StorageOk(s: State) {
    && (forall slot :: slot in s.published ==>
          TableOk(s.arenas, slot, s.published[slot]) && Unique(s.published[slot].offline))
    && (forall a :: 0 <= a < |s.arenas| ==> Unique(s.arenas[a].rows + s.arenas[a].offline))
    && (forall h :: 0 <= h < |s.history| ==> TableOk(s.arenas, s.history[h].0, s.history[h].1))
  }

  ghost predicate Consistent(s: State) {
    && StorageOk(s)
    && (forall tid :: tid in s.threads ==> HandleOk(s, s.threads[tid].request, s.threads[tid].pc))
  }

  ghost predicate Inv(s: State) {
    Flights(s) && Calm(s) && Consistent(s)
  }

  lemma TableOkGrows(a: seq<Arena>, b: seq<Arena>, slot: Slot, t: Table)
    requires TableOk(a, slot, t) && Grows(a, b)
    ensures TableOk(b, slot, t)
  {
  }

  // A view that misses matches no row, so a row stored under it repeats no key.
  lemma MissIsNew(schema: Schema, online: seq<Entry>, offline: seq<Entry>, key: KeyView, row: Entry)
    requires Resolvable(key) && key.Fits(schema) && PlaceRows(schema, online, offline, key).None?
    requires row.dims == Normalize(schema.Strategies(), key.Dims()) && row.dtypes == Names(key.Dtypes())
    requires Unique(online + offline)
    ensures Unique(online + [row] + offline)
  {
    forall e | e in online + offline
      ensures !SameKey(e, row) && !SameKey(row, e)
    {
      assert !Matches(e, Normalize(schema.Strategies(), key.Dims()), key.Dtypes());
    }
    var all := online + [row] + offline;
    forall i, j | 0 <= i < j < |all|
      ensures !SameKey(all[i], all[j])
    {
      var i', j' := if i < |online| then i else i - 1, if j < |online| then j else j - 1;
      if i == |online| {
        assert all[j] in online + offline;
      } else if j == |online| {
        assert all[i] in online + offline;
      } else {
        assert all[i] == (online + offline)[i'] && all[j] == (online + offline)[j'];
      }
    }
  }

  // What linking a fresh row does.
  ghost predicate LinkedRow(s: State, slot: Slot, schema: Schema, key: KeyView, found: Found, arenas': seq<Arena>,
                            next: Table)
    requires key.Readable()
  {
    && Grows(s.arenas, arenas')
    && TableOk(arenas', slot, next) && next.arena.Some? && next.schema == schema
    && Continues(Current(s, slot), next)
    && (forall a :: 0 <= a < |s.arenas| && next.arena != Some(a) ==> arenas'[a] == s.arenas[a])
    && next.arena.value <= |s.arenas|
    && |arenas'| == (if next.arena.value < |s.arenas| then |s.arenas| else next.arena.value + 1)
    && (next.arena.value < |s.arenas| ==> Current(s, slot) == Some(next))
    && (forall k: KeyView :: k.Readable() ==>
          Lookup(arenas', Some(next), k) == if SameNormalKey(schema, k, key) then Some(found) else Abs(s, slot, k))
    && Unique(arenas'[next.arena.value].rows + arenas'[next.arena.value].offline)
  }

  // The storage that gains the row, next to the table that is published now.
  lemma NextRows(s: State, slot: Slot, schema: Schema, row: Entry)
    requires StorageOk(s)
    requires slot in s.published ==> s.published[slot].schema == schema
    ensures var next := NextTable(s, slot, schema);
            var online := if slot in s.published then OnlineOf(s.arenas, s.published[slot]) else [];
            && OnlineOf(ArenasWith(s, slot, schema, row), next) == online + [row]
            && OnlineOf(s.arenas, next) == online
            && Unique(online + next.offline)
  {
    assert [] + [row] == [row];
    assert [] + NextTable(s, slot, schema).offline == NextTable(s, slot, schema).offline;
  }

  // Before the row is stored, the next table finds what the published one finds.
  lemma NextFinds(s: State, slot: Slot, schema: Schema, k: KeyView)
    requires StorageOk(s) && k.Readable()
    requires slot in s.published ==> s.published[slot].schema == schema
    ensures var next := NextTable(s, slot, schema);
            LookupIn(next, OnlineOf(s.arenas, next), k) == Abs(s, slot, k)
  {
  }

  lemma FreshFinds(s: State, slot: Slot, schema: Schema, key: KeyView, config: TunedConfig, k: KeyView)
    requires StorageOk(s) && Resolvable(key) && key.Fits(schema) && k.Readable()
    requires slot in s.published ==> s.published[slot].schema == schema
    ensures var next, arenas' := NextTable(s, slot, schema), ArenasWith(s, slot, schema, NewRow(schema, key, config));
            Lookup(arenas', Some(next), k)
              == if SameNormalKey(schema, k, key) then Some(NextFound(s, slot, schema, config)) else Abs(s, slot, k)
  {
    var row, next := NewRow(schema, key, config), NextTable(s, slot, schema);
    var online := OnlineOf(s.arenas, next);
    NextRows(s, slot, schema, row);
    NextFinds(s, slot, schema, k);
    AppendPlaces(schema, online, row, next.offline, key, k);
  }

  lemma FreshRow(s: State, slot: Slot, schema: Schema, key: KeyView, config: TunedConfig)
    requires StorageOk(s) && Resolvable(key) && key.Fits(schema)
    requires slot in s.published ==> s.published[slot].schema == schema
    requires Abs(s, slot, key).None?
    ensures LinkedRow(s, slot, schema, key, NextFound(s, slot, schema, config),
                      ArenasWith(s, slot, schema, NewRow(schema, key, config)), NextTable(s, slot, schema))
  {
    var row, next := NewRow(schema, key, config), NextTable(s, slot, schema);
    forall k: KeyView | k.Readable()
      ensures Lookup(ArenasWith(s, slot, schema, row), Some(next), k)
           == if SameNormalKey(schema, k, key) then Some(NextFound(s, slot, schema, config)) else Abs(s, slot, k)
    {
      FreshFinds(s, slot, schema, key, config, k);
    }
    NextRows(s, slot, schema, row);
    NextFinds(s, slot, schema, key);
    MissIsNew(schema, OnlineOf(s.arenas, next), next.offline, key, row);
  }

  // ---- one step, seen through handles

  ghost predicate LinksFresh(s: State, a: Action) {
    && a.Link? && Enabled(s, a)
    && Judge(s, s.threads[a.tid].request, s.threads[a.tid].pc.resolved) == Fresh
  }

  // Every other step leaves the storages alone; only publications move the snapshot.
  lemma TablesElsewhere(s: State, a: Action)
    requires Enabled(s, a) && !LinksFresh(s, a)
    ensures Apply(s, a).arenas == s.arenas
    ensures !a.Publish? && !a.Load? ==> Apply(s, a).published == s.published && Apply(s, a).history == s.history
  {
  }

  // What a thread that links a fresh row does to its own place and to the shared state.
  lemma FreshView(s: State, a: Action)
    requires LinksFresh(s, a)
    ensures a.tid in s.threads && s.threads[a.tid].pc.Locked? && Resolvable(s.threads[a.tid].request.key)
    ensures var r, pc := s.threads[a.tid].request, s.threads[a.tid].pc;
            var schema := Schema(pc.resolved.columns, r.key.ndtypes);
            && |schema.columns| == r.key.ndims
            && Apply(s, a).arenas == ArenasWith(s, r.slot, schema, NewRow(schema, r.key, pc.resolved.config))
            && Apply(s, a).threads == s.threads[a.tid := s.threads[a.tid].(pc :=
                 Linked(pc.token, pc.promise, pc.call, NextTable(s, r.slot, schema),
                        NextFound(s, r.slot, schema, pc.resolved.config)))]
            && Apply(s, a).published == s.published && Apply(s, a).history == s.history
  {
  }

  lemma JudgedFresh(s: State, r: Request, resolved: Resolved)
    requires r.key.Readable() && Judge(s, r, resolved) == Fresh
    ensures r.slot in s.published ==> s.published[r.slot].schema == Schema(resolved.columns, r.key.ndtypes)
    ensures Abs(s, r.slot, r.key).None?
  {
  }

  lemma NextSchema(s: State, slot: Slot, schema: Schema)
    requires slot in s.published ==> s.published[slot].schema == schema
    ensures NextTable(s, slot, schema).schema == schema
  {
  }

  lemma FreshStep(s: State, a: Action)
    requires Inv(s) && LinksFresh(s, a)
    ensures var r, pc' := s.threads[a.tid].request, Apply(s, a).threads[a.tid].pc;
            && pc'.Linked? && Resolvable(r.key) && Abs(s, r.slot, r.key).None?
            && LinkedRow(s, r.slot, pc'.next.schema, r.key, pc'.found, Apply(s, a).arenas, pc'.next)
            && r.key.Fits(pc'.next.schema)
            && Apply(s, a).published == s.published && Apply(s, a).history == s.history
  {
    FreshView(s, a);
    var r, pc := s.threads[a.tid].request, s.threads[a.tid].pc;
    var schema := Schema(pc.resolved.columns, r.key.ndtypes);
    JudgedFresh(s, r, pc.resolved);
    NextSchema(s, r.slot, schema);
    FreshRow(s, r.slot, schema, r.key, pc.resolved.config);
  }

  lemma StepGrows(s: State, a: Action)
    requires Inv(s) && Enabled(s, a)
    ensures Grows(s.arenas, Apply(s, a).arenas)
  {
    if LinksFresh(s, a) {
      FreshStep(s, a);
    } else {
      TablesElsewhere(s, a);
    }
  }

  lemma SameKeySameAnswer(t: Table, online: seq<Entry>, k: KeyView, key: KeyView)
    requires k.Readable() && key.Readable() && SameNormalKey(t.schema, k, key)
    ensures LookupIn(t, online, k) == LookupIn(t, online, key)
  {
  }

  // A handle to the very table that gained a row.
  lemma GainingHandle(s: State, s': State, slot: Slot, next: Table, key: KeyView, found: Found, k: KeyView)
    requires StorageOk(s) && key.Readable() && k.Readable() && Abs(s, slot, key).None?
    requires LinkedRow(s, slot, next.schema, key, found, s'.arenas, next) && s'.published == s.published
    requires slot in s.published && s.published[slot] == next
    ensures var before, after := Lookup(s.arenas, Some(next), k), Lookup(s'.arenas, Some(next), k);
            && (before.Some? ==> after == before)
            && (after != before ==> after == Abs(s', slot, k) && SameNormalKey(next.schema, k, key))
  {
    if SameNormalKey(next.schema, k, key) {
      SameKeySameAnswer(next, OnlineOf(s.arenas, next), k, key);
    }
  }

  lemma FreshStepHandle(s: State, a: Action, slot: Slot, t: Table, k: KeyView)
    requires Inv(s) && LinksFresh(s, a) && TableOk(s.arenas, slot, t) && k.Readable()
    ensures var before, after := Lookup(s.arenas, Some(t), k), Lookup(Apply(s, a).arenas, Some(t), k);
            && (before.Some? ==> after == before)
            && (after != before ==> after == Abs(Apply(s, a), slot, k) && slot == s.threads[a.tid].request.slot
                                    && SameNormalKey(t.schema, k, s.threads[a.tid].request.key))
  {
    FreshStep(s, a);
    HandleBeside(s, Apply(s, a), s.threads[a.tid].request, Apply(s, a).threads[a.tid].pc, slot, t, k);
  }

  lemma HandleBeside(s: State, s': State, r: Request, pc': Pc, slot: Slot, t: Table, k: KeyView)
    requires StorageOk(s) && r.key.Readable() && k.Readable() && Abs(s, r.slot, r.key).None? && pc'.Linked?
    requires LinkedRow(s, r.slot, pc'.next.schema, r.key, pc'.found, s'.arenas, pc'.next)
    requires s'.published == s.published && TableOk(s.arenas, slot, t)
    ensures var before, after := Lookup(s.arenas, Some(t), k), Lookup(s'.arenas, Some(t), k);
            && (before.Some? ==> after == before)
            && (after != before ==> after == Abs(s', slot, k) && slot == r.slot && SameNormalKey(t.schema, k, r.key))
  {
    if t.arena == pc'.next.arena {
      assert s.published[r.slot] == pc'.next;
      assert TableOk(s.arenas, r.slot, pc'.next);
      assert t == pc'.next;
      GainingHandle(s, s', r.slot, pc'.next, r.key, pc'.found, k);
    }
  }

  /** A handle answers a key the same way for ever once it answers it at all; and when an answer
      does appear, the published map gives that very answer at that moment. */
  lemma HandleStep(s: State, a: Action, slot: Slot, t: Table, k: KeyView)
    requires Inv(s) && Enabled(s, a) && TableOk(s.arenas, slot, t) && k.Readable()
    ensures var before, after := Lookup(s.arenas, Some(t), k), Lookup(Apply(s, a).arenas, Some(t), k);
            (before.Some? ==> after == before) && (after != before ==> after == Abs(Apply(s, a), slot, k))
  {
    if LinksFresh(s, a) {
      FreshStepHandle(s, a, slot, t, k);
    } else {
      TablesElsewhere(s, a);
    }
  }

  // ---- consistency is kept

  lemma StorageKept(s: State, a: Action)
    requires Inv(s) && Enabled(s, a)
    ensures StorageOk(Apply(s, a))
  {
    if LinksFresh(s, a) {
      FreshStep(s, a);
      var r, pc' := s.threads[a.tid].request, Apply(s, a).threads[a.tid].pc;
      StorageLinked(s, Apply(s, a), r.slot, r.key, pc'.found, pc'.next);
    } else {
      TablesElsewhere(s, a);
      if a.Publish? {
        var r, pc := s.threads[a.tid].request, s.threads[a.tid].pc;
        assert HandleOk(s, r, pc);
        var arena := s.arenas[pc.next.arena.value];
        UniqueSuffix(arena.rows, arena.offline);
        StoragePublished(s, Apply(s, a), r.slot, pc.next);
      } else if a.Load? {
        StoragePublished(s, Apply(s, a), a.slot, Table(a.schema, a.rows, |s.history|, None));
      }
    }
  }

  lemma StorageLinked(s: State, s': State, slot: Slot, key: KeyView, found: Found, next: Table)
    requires StorageOk(s) && key.Readable() && LinkedRow(s, slot, next.schema, key, found, s'.arenas, next)
    requires s'.published == s.published && s'.history == s.history
    ensures StorageOk(s')
  {
    forall i | 0 <= i < |s'.arenas|
      ensures Unique(s'.arenas[i].rows + s'.arenas[i].offline)
    {
      if next.arena != Some(i) {
        assert s'.arenas[i] == s.arenas[i];
      }
    }
  }

  lemma StoragePublished(s: State, s': State, slot: Slot, t: Table)
    requires StorageOk(s) && TableOk(s.arenas, slot, t) && Unique(t.offline)
    requires s'.arenas == s.arenas && s'.published == s.published[slot := t] && s'.history == s.history + [(slot, t)]
    ensures StorageOk(s')
  {
  }

  lemma UniqueSuffix(a: seq<Entry>, b: seq<Entry>)
    requires Unique(a + b)
    ensures Unique(b)
  {
    forall i, j | 0 <= i < j < |b|
      ensures !SameKey(b[i], b[j])
    {
      assert (a + b)[|a| + i] == b[i] && (a + b)[|a| + j] == b[j];
    }
  }

  // The only tables a thread picks up are published ones.
  lemma HandleOkNew(s: State, s': State, a: Action, r: Request, pc: Pc)
    requires StorageOk(s) && r.key.Readable() && Ready(s, a, r, pc) && s'.arenas == s.arenas
    requires a.Link? ==> Judge(s, r, pc.resolved) != Fresh
    ensures HandleOk(s', r, NewPc(s, a, r, pc))
  {
  }

  lemma FreshAddsOne(s: State, s': State, r: Request, next: Table, found: Found)
    requires StorageOk(s) && r.key.Readable() && r.key.Fits(next.schema) && Abs(s, r.slot, r.key).None?
    requires LinkedRow(s, r.slot, next.schema, r.key, found, s'.arenas, next) && s'.published == s.published
    ensures AddsOne(s', r, next, found)
  {
    assert SameNormalKey(next.schema, r.key, r.key);
    if next.arena.value < |s.arenas| {
      assert Current(s', r.slot) == Some(next);
      forall k: KeyView | k.Readable() && SameNormalKey(next.schema, k, r.key)
        ensures Abs(s', r.slot, k) == Some(found)
      {
      }
    } else {
      forall k: KeyView | k.Readable()
        ensures Abs(s', r.slot, k) == Abs(s, r.slot, k)
      {
      }
    }
  }

  lemma HandleOkActor(s: State, a: Action)
    requires Inv(s) && Enabled(s, a) && !a.Load? && !a.Spawn?
    ensures HandleOk(Apply(s, a), s.threads[a.tid].request, Apply(s, a).threads[a.tid].pc)
  {
    var r := s.threads[a.tid].request;
    if LinksFresh(s, a) {
      FreshStep(s, a);
      var pc' := Apply(s, a).threads[a.tid].pc;
      FreshAddsOne(s, Apply(s, a), r, pc'.next, pc'.found);
    } else {
      TablesElsewhere(s, a);
      HandleOkNew(s, Apply(s, a), a, r, s.threads[a.tid].pc);
    }
  }

  // While one thread holds load_mu_, nobody else links or publishes.
  lemma HolderOnly(s: State, a: Action, u: Tid)
    requires Calm(s) && Enabled(s, a) && u in s.threads && Holding(s.threads[u].pc)
    requires a.Load? || a.Spawn? || a.tid != u
    ensures !a.Load? && !a.Publish? && !a.Link?
  {
    assert Sane(s, u, s.threads[u].request, s.threads[u].pc);
    if !a.Load? && !a.Spawn? {
      assert Sane(s, a.tid, s.threads[a.tid].request, s.threads[a.tid].pc);
    }
  }

  lemma HolderAlone(s: State, a: Action, u: Tid)
    requires Inv(s) && Enabled(s, a) && u in s.threads && Holding(s.threads[u].pc)
    requires a.Load? || a.Spawn? || a.tid != u
    ensures Apply(s, a).published == s.published && Apply(s, a).arenas == s.arenas
  {
    HolderOnly(s, a, u);
    TablesElsewhere(s, a);
  }

  lemma HandleOkOther(s: State, a: Action, u: Tid)
    requires Inv(s) && Enabled(s, a) && u in s.threads
    requires a.Load? || a.Spawn? || a.tid != u
    ensures HandleOk(Apply(s, a), s.threads[u].request, s.threads[u].pc)
  {
    var r, pc := s.threads[u].request, s.threads[u].pc;
    assert HandleOk(s, r, pc);
    if pc.Linked? {
      HolderAlone(s, a, u);
      assert AddsOne(Apply(s, a), r, pc.next, pc.found) by {
        assert AddsOne(s, r, pc.next, pc.found);
        assert forall k: KeyView :: k.Readable() ==> Abs(Apply(s, a), r.slot, k) == Abs(s, r.slot, k);
      }
    } else if (pc.Looked? || pc.Rechecking?) && pc.table.Some? {
      StepGrows(s, a);
      TableOkGrows(s.arenas, Apply(s, a).arenas, r.slot, pc.table.value);
    }
  }

  lemma HandleOkKept(s: State, a: Action, tid: Tid)
    requires Inv(s) && Enabled(s, a) && tid in Apply(s, a).threads
    ensures var th := Apply(s, a).threads[tid]; HandleOk(Apply(s, a), th.request, th.pc)
  {
    if a.Load? || a.Spawn? || a.tid != tid {
      ThreadAfter(s, a, tid);
      if tid in s.threads {
        HandleOkOther(s, a, tid);
      }
    } else {
      ApplyView(s, a);
      HandleOkActor(s, a);
    }
  }

  lemma ConsistentKept(s: State, a: Action)
    requires Inv(s) && Enabled(s, a)
    ensures Consistent(Apply(s, a))
  {
    StorageKept(s, a);
    var s' := Apply(s, a);
    forall tid | tid in s'.threads
      ensures HandleOk(s', s'.threads[tid].request, s'.threads[tid].pc)
    {
      HandleOkKept(s, a, tid);
    }
  }

  /** Every step keeps the invariant. */
  lemma InvKept(s: State, a: Action)
    requires Inv(s) && Enabled(s, a)
    ensures Inv(Apply(s, a))
  {
    FlightsKept(s, a);
    CalmKept(s, a);
    ConsistentKept(s, a);
  }
}
