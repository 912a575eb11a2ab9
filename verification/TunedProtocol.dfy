/** resolve() and find() as a step machine over any number of threads (src/tuned_config.cpp, lines
    746-759 and 856-1000). Every access to shared state is one step: the snapshot pointer, a bucket
    head, each of the two mutexes, the pending-request map, each promise. A chain walk is decided by
    the head it starts from (TunedIndex.Walk), so it belongs to the step that reads the head. */
module TunedProtocol {
  import opened KeySchema
  import opened TunedIndex
  import opened TunedTable

  type Tid = nat

  // A published kernel: its schema, the offline rows below, and the online storage above, if any. The
  // offline rows belong to the table that publication number `base` brought.
  datatype Table = Table(schema: Schema, offline: seq<Entry>, base: nat, arena: Option<nat>)

  // One online storage, with the slot and the base it was created for.
  datatype Arena = Arena(slot: Slot, schema: Schema, offline: seq<Entry>, base: nat, rows: seq<Entry>)

  // Where a configuration lives: a node of a storage, or an offline row of a publication.
  datatype Address = Node(arena: nat, row: nat) | Row(base: nat, row: nat)

  // The pointer that find() and resolve() return, and what it points to.
  datatype Found = Found(at: Address, config: TunedConfig)

  // `text` is the key of inflight_; the rest remembers what it was printed from.
  datatype Token = Token(text: string, slot: Slot, dims: seq<int>, dtypes: seq<Option<CString>>)

  // inflight_key prints a null dtype as nothing.
  function Shown(dtypes: seq<Option<CString>>): (r: seq<string>)
    ensures |r| == |dtypes|
  {
    seq(|dtypes|, i requires 0 <= i < |dtypes| => if dtypes[i].Some? then dtypes[i].value else "")
  }

  function TokenText(slot: Slot, dims: seq<int>, dtypes: seq<Option<CString>>): string {
    Identity.FlightToken(slot.storageId, slot.device, dims, Shown(dtypes))
  }

  function TokenOf(slot: Slot, dims: seq<int>, dtypes: seq<Option<CString>>): Token {
    Token(TokenText(slot, dims, dtypes), slot, dims, dtypes)
  }

  datatype Error = Frozen | InvalidArgument | KeySchemaMismatch | ResolverThrew | InsertFailed(why: InsertError)

  datatype Outcome = Value(found: Option<Found>) | Raised(error: Error)

  datatype Reply = Declines | Throws | Answers(resolved: Resolved)

  // A call of find() (resolves is false) or of resolve(), with or without an installed resolver.
  datatype Request = Request(kernelId: string, slot: Slot, key: KeyView, resolves: bool, resolver: bool)

  datatype Pc =
    | Start
    | Looked(table: Option<Table>)                      // snapshot read, bucket not yet
    | Missed                                            // before the freeze check
    | Allowed                                           // after it
    | Bound(token: Token)                               // token computed, before resolve_mu_
    | Waiting(token: Token, promise: nat)
    | Owning(token: Token, promise: nat)                // token emplaced
    | Rechecking(token: Token, promise: nat, table: Option<Table>)
    | Asking(token: Token, promise: nat, call: nat)     // inside the resolver
    | Answered(token: Token, promise: nat, call: nat, resolved: Resolved)
    | Locked(token: Token, promise: nat, call: nat, resolved: Resolved)
    | Linked(token: Token, promise: nat, call: nat, next: Table, found: Found)
    | Leaving(token: Token, promise: nat, outcome: Outcome)   // before the erase
    | Fulfilling(token: Token, promise: nat, outcome: Outcome)              // erased, promise still open
    | Done(outcome: Outcome, origin: Option<nat>)

  datatype Thread = Thread(request: Request, pc: Pc)

  datatype Promise = Promise(token: Token, outcome: Option<Outcome>)

  datatype Status = Running | Declined | Failed | Installed

  // One invocation of the resolver (history).
  datatype Call = Call(token: Token, status: Status)

  datatype State = State(
    published: map<Slot, Table>,
    arenas: seq<Arena>,
    loadLock: Option<Tid>,
    inflight: map<string, nat>,
    promises: seq<Promise>,
    threads: map<Tid, Thread>,
    calls: seq<Call>,
    history: seq<(Slot, Table)>)

  datatype Action =
    | Spawn(tid: Tid, request: Request)
    | ReadSnapshot(tid: Tid)
    | Scan(tid: Tid)
    | CheckFreeze(tid: Tid, frozen: bool)
    | MakeToken(tid: Tid)
    | Enter(tid: Tid)
    | Await(tid: Tid)
    | ReadAgain(tid: Tid)
    | ScanAgain(tid: Tid)
    | Hear(tid: Tid, reply: Reply)
    | Lock(tid: Tid)
    | Link(tid: Tid)
    | Publish(tid: Tid)
    | Erase(tid: Tid)
    | Fulfil(tid: Tid)
    | Load(slot: Slot, schema: Schema, rows: seq<Entry>)

  // The argument checks at the top of resolve().
  predicate Resolvable(key: KeyView) {
    && key.Readable() && key.ndims <= MAX_COLUMNS
    && (key.ndims > 0 ==> key.dims.Some?) && (key.ndtypes > 0 ==> key.dtypes.Some?)
    && forall i :: 0 <= i < key.ndtypes ==> key.Dtypes()[i].Some?
  }

  ghost function Current(s: State, slot: Slot): Option<Table> {
    if slot in s.published then Some(s.published[slot]) else None
  }

  ghost function OnlineOf(arenas: seq<Arena>, t: Table): seq<Entry> {
    if t.arena.Some? && t.arena.value < |arenas| then arenas[t.arena.value].rows else []
  }

  // What a handle answers, given the online rows there are.
  ghost function Lookup(arenas: seq<Arena>, t: Option<Table>, key: KeyView): Option<Found>
    requires key.Readable()
  {
    if t.None? then None else LookupIn(t.value, OnlineOf(arenas, t.value), key)
  }

  ghost function LookupIn(t: Table, online: seq<Entry>, key: KeyView): Option<Found>
    requires key.Readable()
  {
    match PlaceRows(t.schema, online, t.offline, key)
    case None => None
    case Some(Online(i)) => Some(Found(Node(if t.arena.Some? then t.arena.value else 0, i), online[i].config))
    case Some(Offline(i)) => Some(Found(Row(t.base, i), t.offline[i].config))
  }

  // Its configuration is the one the tables of TunedTable answer.
  lemma LookupAnswers(t: Table, online: seq<Entry>, key: KeyView)
    requires key.Readable()
    ensures AnswerRows(t.schema, online, t.offline, key)
         == if LookupIn(t, online, key).None? then None else Some(LookupIn(t, online, key).value.config)
  {
  }

  // The abstract map: what the published table answers right now.
  ghost function Abs(s: State, slot: Slot, key: KeyView): Option<Found>
    requires key.Readable()
  {
    Lookup(s.arenas, Current(s, slot), key)
  }

  ghost function Rated(calls: seq<Call>, call: nat, status: Status): seq<Call> {
    if call < |calls| then calls[call := calls[call].(status := status)] else calls
  }

  // The two checks insert_resolved makes before taking load_mu_.
  function Objection(r: Request, resolved: Resolved): Option<InsertError> {
    if |resolved.columns| != r.key.ndims || r.key.ndims > MAX_COLUMNS then Some(IncompatibleWidth)
    else if resolved.cacheNamespace != ""
            && Identity.ScopedKernelId(r.kernelId, resolved.cacheNamespace) != r.slot.storageId
    then Some(OtherNamespace)
    else None
  }

  // What insert_resolved decides once it holds load_mu_.
  datatype Verdict = Conflict | Already(found: Found) | Fresh

  ghost function Judge(s: State, r: Request, resolved: Resolved): Verdict
    requires r.key.Readable()
  {
    var schema := Schema(resolved.columns, r.key.ndtypes);
    if r.slot in s.published && s.published[r.slot].schema != schema then Conflict
    else
      var hit := Abs(s, r.slot, r.key);
      if hit.Some? then Already(hit.value) else Fresh
  }

  ghost function NewRow(schema: Schema, key: KeyView, config: TunedConfig): Entry
    requires Resolvable(key) && |schema.columns| == key.ndims
  {
    Entry(Normalize(schema.Strategies(), key.Dims()), Names(key.Dtypes()), config, NIL)
  }

  // The stored row goes to the current arena, or to a new one over the current offline rows.
  ghost function NextTable(s: State, slot: Slot, schema: Schema): Table {
    var current := Current(s, slot);
    if current.Some? && current.value.arena.Some? then current.value
    else if current.Some? then Table(schema, current.value.offline, current.value.base, Some(|s.arenas|))
    else Table(schema, [], 0, Some(|s.arenas|))
  }

  // Where the row will be, and what it says.
  ghost function NextFound(s: State, slot: Slot, schema: Schema, config: TunedConfig): Found {
    var next := NextTable(s, slot, schema);
    Found(Node(next.arena.value, |OnlineOf(s.arenas, next)|), config)
  }

  ghost function ArenasWith(s: State, slot: Slot, schema: Schema, row: Entry): seq<Arena> {
    var next := NextTable(s, slot, schema);
    var a := next.arena.value;
    if a < |s.arenas| then s.arenas[a := s.arenas[a].(rows := s.arenas[a].rows + [row])]
    else s.arenas + [Arena(slot, schema, next.offline, next.base, [row])]
  }

  // ---- the steps: where the acting thread goes, and what it does to the shared state

  ghost predicate Enabled(s: State, a: Action) {
    if a.Load? then s.loadLock.None? && Loadable(a.schema, a.rows)
    else if a.Spawn? then a.tid !in s.threads && a.request.key.Readable()
    else
      && a.tid in s.threads
      && s.threads[a.tid].request.key.Readable()
      && Ready(s, a, s.threads[a.tid].request, s.threads[a.tid].pc)
  }

  ghost predicate Ready(s: State, a: Action, r: Request, pc: Pc) {
    match a
    case Spawn(_, _) => false
    case Load(_, _, _) => false
    case ReadSnapshot(_) => pc.Start?
    case Scan(_) => pc.Looked?
    case CheckFreeze(_, _) => pc.Missed?
    case MakeToken(_) => pc.Allowed? && Resolvable(r.key)
    case Enter(_) => pc.Bound?
    case Await(_) => pc.Waiting? && pc.promise < |s.promises| && s.promises[pc.promise].outcome.Some?
    case ReadAgain(_) => pc.Owning?
    case ScanAgain(_) => pc.Rechecking?
    case Hear(_, _) => pc.Asking?
    case Lock(_) => pc.Answered? && (s.loadLock.None? || Objection(r, pc.resolved).Some?)
    case Link(_) => pc.Locked? && Resolvable(r.key) && Objection(r, pc.resolved).None?
    case Publish(_) => pc.Linked?
    case Erase(_) => pc.Leaving?
    case Fulfil(_) => pc.Fulfilling? && pc.promise < |s.promises|
  }

  ghost function NewPc(s: State, a: Action, r: Request, pc: Pc): Pc
    requires r.key.Readable() && Ready(s, a, r, pc)
  {
    match a
    case ReadSnapshot(_) => Looked(Current(s, r.slot))
    case Scan(_) =>
      var hit := Lookup(s.arenas, pc.table, r.key);
      if hit.Some? || !r.resolves || !r.resolver then Done(Value(hit), None) else Missed
    case CheckFreeze(_, frozen) => if frozen then Done(Raised(Frozen), None) else Allowed
    case MakeToken(_) => TokenPc(s, r)
    case Enter(_) =>
      if pc.token.text in s.inflight then Waiting(pc.token, s.inflight[pc.token.text])
      else Owning(pc.token, |s.promises|)
    case Await(_) => Done(s.promises[pc.promise].outcome.value, Some(pc.promise))
    case ReadAgain(_) => Rechecking(pc.token, pc.promise, Current(s, r.slot))
    case ScanAgain(_) =>
      var hit := Lookup(s.arenas, pc.table, r.key);
      if hit.Some? then Leaving(pc.token, pc.promise, Value(hit)) else Asking(pc.token, pc.promise, |s.calls|)
    case Hear(_, Declines) => Leaving(pc.token, pc.promise, Value(None))
    case Hear(_, Throws) => Leaving(pc.token, pc.promise, Raised(ResolverThrew))
    case Hear(_, Answers(resolved)) => Answered(pc.token, pc.promise, pc.call, resolved)
    case Lock(_) =>
      var objection := Objection(r, pc.resolved);
      if objection.Some? then Leaving(pc.token, pc.promise, Raised(InsertFailed(objection.value)))
      else Locked(pc.token, pc.promise, pc.call, pc.resolved)
    case Link(_) => LinkPc(s, r, pc)
    case Publish(_) => Leaving(pc.token, pc.promise, Value(Some(pc.found)))
    case Erase(_) => Fulfilling(pc.token, pc.promise, pc.outcome)
    case Fulfil(_) => Done(pc.outcome, Some(pc.promise))
  }

  // kernel() gives the bound schema; without one the raw dimensions make the token.
  ghost function TokenPc(s: State, r: Request): Pc
    requires Resolvable(r.key)
  {
    if r.slot !in s.published then Bound(TokenOf(r.slot, r.key.Dims(), r.key.Dtypes()))
    else
      var schema := s.published[r.slot].schema;
      if |schema.columns| != r.key.ndims || schema.ndtypes != r.key.ndtypes then Done(Raised(KeySchemaMismatch), None)
      else Bound(TokenOf(r.slot, Normalize(schema.Strategies(), r.key.Dims()), r.key.Dtypes()))
  }

  ghost function LinkPc(s: State, r: Request, pc: Pc): Pc
    requires pc.Locked? && r.key.Readable()
  {
    match Judge(s, r, pc.resolved)
    case Conflict => Leaving(pc.token, pc.promise, Raised(InsertFailed(SchemaMismatch)))
    case Already(found) => Leaving(pc.token, pc.promise, Value(Some(found)))
    case Fresh =>
      var schema := Schema(pc.resolved.columns, r.key.ndtypes);
      Linked(pc.token, pc.promise, pc.call, NextTable(s, r.slot, schema),
             NextFound(s, r.slot, schema, pc.resolved.config))
  }

  // The shared state after the step; `threads` is updated by Apply.
  ghost function Effect(s: State, a: Action, r: Request, pc: Pc): State
    requires r.key.Readable() && Ready(s, a, r, pc)
  {
    match a
    case Enter(_) =>
      if pc.token.text in s.inflight then s
      else s.(promises := s.promises + [Promise(pc.token, None)], inflight := s.inflight[pc.token.text := |s.promises|])
    case ScanAgain(_) =>
      if Lookup(s.arenas, pc.table, r.key).Some? then s else s.(calls := s.calls + [Call(pc.token, Running)])
    case Hear(_, Declines) => s.(calls := Rated(s.calls, pc.call, Declined))
    case Hear(_, Throws) => s.(calls := Rated(s.calls, pc.call, Failed))
    case Lock(tid) =>
      if Objection(r, pc.resolved).Some? then s.(calls := Rated(s.calls, pc.call, Failed))
      else s.(loadLock := Some(tid))
    case Link(_) => LinkEffect(s, r, pc)
    case Publish(_) =>
      s.(published := s.published[r.slot := pc.next], history := s.history + [(r.slot, pc.next)],
         loadLock := None, calls := Rated(s.calls, pc.call, Installed))
    case Erase(_) => s.(inflight := s.inflight - {pc.token.text})
    case Fulfil(_) =>
      s.(promises := s.promises[pc.promise := s.promises[pc.promise].(outcome := Some(pc.outcome))])
    case _ => s
  }

  ghost function LinkEffect(s: State, r: Request, pc: Pc): State
    requires pc.Locked? && Resolvable(r.key) && Objection(r, pc.resolved).None?
  {
    match Judge(s, r, pc.resolved)
    case Conflict => s.(loadLock := None, calls := Rated(s.calls, pc.call, Failed))
    case Already(_) => s.(loadLock := None, calls := Rated(s.calls, pc.call, Installed))
    case Fresh =>
      var schema := Schema(pc.resolved.columns, r.key.ndtypes);
      s.(arenas := ArenasWith(s, r.slot, schema, NewRow(schema, r.key, pc.resolved.config)))
  }

  ghost function Apply(s: State, a: Action): State
    requires Enabled(s, a)
  {
    match a
    case Spawn(tid, r) =>
      var pc := if r.resolves && !Resolvable(r.key) then Done(Raised(InvalidArgument), None) else Start;
      s.(threads := s.threads[tid := Thread(r, pc)])
    case Load(slot, schema, rows) =>
      var t := Table(schema, rows, |s.history|, None);
      s.(published := s.published[slot := t], history := s.history + [(slot, t)])
    case _ =>
      var th := s.threads[a.tid];
      Effect(s, a, th.request, th.pc).(threads := s.threads[a.tid := th.(pc := NewPc(s, a, th.request, th.pc))])
  }

  // Everything but `threads` is Effect's work.
  lemma ApplyView(s: State, a: Action)
    requires Enabled(s, a) && !a.Load? && !a.Spawn?
    ensures a.tid in s.threads && s.threads[a.tid].request.key.Readable()
    ensures Ready(s, a, s.threads[a.tid].request, s.threads[a.tid].pc)
    ensures var th := s.threads[a.tid];
            && Apply(s, a).threads == s.threads[a.tid := th.(pc := NewPc(s, a, th.request, th.pc))]
            && Apply(s, a) == Effect(s, a, th.request, th.pc).(threads := Apply(s, a).threads)
  {
  }

  // A thread that does not act stays as it is.
  lemma ThreadAfter(s: State, a: Action, t: Tid)
    requires Enabled(s, a) && t in Apply(s, a).threads && (a.Load? || a.Spawn? || a.tid != t)
    ensures t in s.threads ==> Apply(s, a).threads[t] == s.threads[t]
    ensures t !in s.threads ==> a.Spawn? && t == a.tid
  {
  }

  // ---- who owns what

  // Between the emplace and the erase.
  predicate Owns(pc: Pc) {
    pc.Owning? || pc.Rechecking? || pc.Asking? || pc.Answered? || pc.Locked? || pc.Linked? || pc.Leaving?
  }

  // Between the emplace and set_value / set_exception.
  predicate Responsible(pc: Pc) {
    Owns(pc) || pc.Fulfilling?
  }

  ghost predicate OwnerOf(s: State, tid: Tid, text: string) {
    tid in s.threads && Owns(s.threads[tid].pc) && s.threads[tid].pc.token.text == text
  }

  ghost predicate ResponsibleFor(s: State, tid: Tid, promise: nat) {
    tid in s.threads && Responsible(s.threads[tid].pc) && s.threads[tid].pc.promise == promise
  }

  // What one thread's position says about tokens and promises.
  ghost predicate Placed(s: State, pc: Pc) {
    && (Owns(pc) ==> pc.token.text in s.inflight && s.inflight[pc.token.text] == pc.promise)
    && (Responsible(pc) ==> pc.promise < |s.promises| && s.promises[pc.promise] == Promise(pc.token, None))
    && (pc.Waiting? ==> pc.promise < |s.promises| && s.promises[pc.promise].token.text == pc.token.text)
    && (pc.Done? && pc.origin.Some? ==>
          pc.origin.value < |s.promises| && s.promises[pc.origin.value].outcome == Some(pc.outcome))
  }

  /** Single flight: a token text is pending exactly while one thread owns it, and an open promise always
      has a living thread that will close it. */
  ghost predicate Flights(s: State) {
    && (forall tid :: tid in s.threads ==> Placed(s, s.threads[tid].pc))
    && (forall text :: text in s.inflight ==> exists tid :: OwnerOf(s, tid, text))
    && (forall t, u, p :: ResponsibleFor(s, t, p) && ResponsibleFor(s, u, p) ==> t == u)
    && (forall p :: 0 <= p < |s.promises| && s.promises[p].outcome.None? ==> exists tid :: ResponsibleFor(s, tid, p))
  }

  // A step that moves one thread and touches neither the pending requests nor the promises.
  ghost predicate Quiet(s: State, s': State, tid: Tid) {
    && tid in s.threads && tid in s'.threads && s'.inflight == s.inflight && s'.promises == s.promises
    && s'.threads == s.threads[tid := s'.threads[tid]]
    && var pc, pc' := s.threads[tid].pc, s'.threads[tid].pc;
       && Owns(pc) == Owns(pc') && Responsible(pc) == Responsible(pc')
       && (Responsible(pc) ==> pc.token == pc'.token && pc.promise == pc'.promise)
       && Placed(s, pc')
  }

  lemma QuietFlights(s: State, s': State, tid: Tid)
    requires Flights(s) && tid in s'.threads && Quiet(s, s', tid)
    ensures Flights(s')
  {
    forall text | text in s'.inflight
      ensures exists t :: OwnerOf(s', t, text)
    {
      var t :| OwnerOf(s, t, text);
      assert OwnerOf(s', t, text);
    }
    assert forall t, p :: ResponsibleFor(s', t, p) <==> ResponsibleFor(s, t, p);
  }

  lemma EnterFlights(s: State, tid: Tid)
    requires Flights(s) && Enabled(s, Action.Enter(tid))
    ensures Flights(Apply(s, Action.Enter(tid)))
  {
    var s', token := Apply(s, Action.Enter(tid)), s.threads[tid].pc.token;
    if token.text in s.inflight {
      var t :| OwnerOf(s, t, token.text);
      assert Placed(s, s.threads[t].pc);
      QuietFlights(s, s', tid);
    } else {
      EmplaceFlights(s, s', tid, token);
    }
  }

  // The first thread to bring a token owns it, and a new promise.
  lemma EmplaceFlights(s: State, s': State, tid: Tid, token: Token)
    requires Flights(s) && tid in s.threads && s.threads[tid].pc.Bound? && token.text !in s.inflight
    requires s'.promises == s.promises + [Promise(token, None)] && s'.inflight == s.inflight[token.text := |s.promises|]
    requires s'.threads == s.threads[tid := s.threads[tid].(pc := Owning(token, |s.promises|))]
    ensures Flights(s')
  {
    forall k | k in s'.inflight
      ensures exists t :: OwnerOf(s', t, k)
    {
      if k == token.text {
        assert OwnerOf(s', tid, k);
      } else {
        var t :| OwnerOf(s, t, k);
        assert OwnerOf(s', t, k);
      }
    }
    forall p | 0 <= p < |s'.promises| && s'.promises[p].outcome.None?
      ensures exists t :: ResponsibleFor(s', t, p)
    {
      if p == |s.promises| {
        assert ResponsibleFor(s', tid, p);
      } else {
        var t :| ResponsibleFor(s, t, p);
        assert ResponsibleFor(s', t, p);
      }
    }
    forall t, p: nat | ResponsibleFor(s', t, p)
      ensures if t == tid then p == |s.promises| else ResponsibleFor(s, t, p) && p < |s.promises|
    {
      if t != tid {
        assert Placed(s, s.threads[t].pc);
      }
    }
    forall t | t in s'.threads
      ensures Placed(s', s'.threads[t].pc)
    {
      if t != tid {
        assert Placed(s, s.threads[t].pc);
      }
    }
  }

  lemma EraseFlights(s: State, tid: Tid)
    requires Flights(s) && Enabled(s, Action.Erase(tid))
    ensures Flights(Apply(s, Action.Erase(tid)))
  {
    ErasedFlights(s, Apply(s, Action.Erase(tid)), tid);
  }

  lemma ErasedFlights(s: State, s': State, tid: Tid)
    requires Flights(s) && tid in s.threads && s.threads[tid].pc.Leaving? && s'.promises == s.promises
    requires s'.inflight == s.inflight - {s.threads[tid].pc.token.text}
    requires var pc := s.threads[tid].pc;
             s'.threads == s.threads[tid := s.threads[tid].(pc := Fulfilling(pc.token, pc.promise, pc.outcome))]
    ensures Flights(s')
  {
    var text := s.threads[tid].pc.token.text;
    assert Placed(s, s.threads[tid].pc);
    forall t | t in s'.threads
      ensures Placed(s', s'.threads[t].pc)
    {
      assert Placed(s, s.threads[t].pc);
      if t != tid && OwnerOf(s, t, text) {
        assert ResponsibleFor(s, t, s.inflight[text]) && ResponsibleFor(s, tid, s.inflight[text]);
      }
    }
    forall k | k in s'.inflight
      ensures exists t :: OwnerOf(s', t, k)
    {
      var t :| OwnerOf(s, t, k);
      assert OwnerOf(s', t, k);
    }
    assert forall t, p :: ResponsibleFor(s', t, p) <==> ResponsibleFor(s, t, p);
  }

  lemma FulfilFlights(s: State, tid: Tid)
    requires Flights(s) && Enabled(s, Action.Fulfil(tid))
    ensures Flights(Apply(s, Action.Fulfil(tid)))
  {
    FulfilledFlights(s, Apply(s, Action.Fulfil(tid)), tid);
  }

  lemma FulfilledFlights(s: State, s': State, tid: Tid)
    requires Flights(s) && tid in s.threads && s.threads[tid].pc.Fulfilling? && s'.inflight == s.inflight
    requires var pc := s.threads[tid].pc;
             && pc.promise < |s.promises|
             && s'.promises == s.promises[pc.promise := s.promises[pc.promise].(outcome := Some(pc.outcome))]
             && s'.threads == s.threads[tid := s.threads[tid].(pc := Done(pc.outcome, Some(pc.promise)))]
    ensures Flights(s')
  {
    var mine := s.threads[tid].pc.promise;
    assert Placed(s, s.threads[tid].pc) && ResponsibleFor(s, tid, mine);
    forall t | t in s'.threads
      ensures Placed(s', s'.threads[t].pc)
    {
      assert Placed(s, s.threads[t].pc);
      if t != tid && Responsible(s.threads[t].pc) {
        assert ResponsibleFor(s, t, s.threads[t].pc.promise);
      }
    }
    forall k | k in s'.inflight
      ensures exists t :: OwnerOf(s', t, k)
    {
      var t :| OwnerOf(s, t, k);
      assert OwnerOf(s', t, k);
    }
    assert forall t, p :: ResponsibleFor(s', t, p) <==> t != tid && ResponsibleFor(s, t, p);
    forall p | 0 <= p < |s'.promises| && s'.promises[p].outcome.None?
      ensures exists t :: ResponsibleFor(s', t, p)
    {
      var t :| ResponsibleFor(s, t, p);
      assert ResponsibleFor(s', t, p);
    }
  }

  predicate Early(a: Action) {
    a.ReadSnapshot? || a.Scan? || a.CheckFreeze? || a.MakeToken? || a.Await? || a.ReadAgain?
  }

  predicate Late(a: Action) {
    a.ScanAgain? || a.Hear? || a.Lock? || a.Link? || a.Publish?
  }

  // No early or late step touches the pending requests or the promises...
  lemma EffectQuiet(s: State, a: Action, r: Request, pc: Pc)
    requires r.key.Readable() && Ready(s, a, r, pc) && (Early(a) || Late(a))
    ensures Effect(s, a, r, pc).inflight == s.inflight && Effect(s, a, r, pc).promises == s.promises
  {
  }

  // ... or changes what its thread is responsible for.
  lemma NewPcQuiet(s: State, a: Action, r: Request, pc: Pc)
    requires r.key.Readable() && Ready(s, a, r, pc) && (Early(a) || Late(a)) && Placed(s, pc)
    ensures var pc' := NewPc(s, a, r, pc);
            && Owns(pc) == Owns(pc') && Responsible(pc) == Responsible(pc') && Placed(s, pc')
            && (Responsible(pc) ==> pc.token == pc'.token && pc.promise == pc'.promise)
  {
  }

  lemma SameFlights(s: State, s': State)
    requires Flights(s) && s'.inflight == s.inflight && s'.promises == s.promises
    requires forall t :: t in s.threads ==> t in s'.threads && s'.threads[t] == s.threads[t]
    requires forall t :: t in s'.threads && t !in s.threads ==>
               !Responsible(s'.threads[t].pc) && Placed(s, s'.threads[t].pc)
    ensures Flights(s')
  {
    forall k | k in s'.inflight
      ensures exists t :: OwnerOf(s', t, k)
    {
      var t :| OwnerOf(s, t, k);
      assert OwnerOf(s', t, k);
    }
    assert forall t, p :: ResponsibleFor(s', t, p) <==> ResponsibleFor(s, t, p);
  }

  lemma ArrivalFlights(s: State, a: Action)
    requires Flights(s) && Enabled(s, a) && (a.Spawn? || a.Load?)
    ensures Flights(Apply(s, a))
  {
    SameFlights(s, Apply(s, a));
  }

  lemma FlightsKept(s: State, a: Action)
    requires Flights(s) && Enabled(s, a)
    ensures Flights(Apply(s, a))
  {
    if a.Spawn? || a.Load? {
      ArrivalFlights(s, a);
    } else if a.Enter? {
      EnterFlights(s, a.tid);
    } else if a.Erase? {
      EraseFlights(s, a.tid);
    } else if a.Fulfil? {
      FulfilFlights(s, a.tid);
    } else {
      EffectQuiet(s, a, s.threads[a.tid].request, s.threads[a.tid].pc);
      NewPcQuiet(s, a, s.threads[a.tid].request, s.threads[a.tid].pc);
      QuietFlights(s, Apply(s, a), a.tid);
    }
  }

  // ---- requests, the publication lock and the resolver calls

  predicate HasToken(pc: Pc) {
    pc.Bound? || pc.Waiting? || Responsible(pc)
  }

  // Inside insert_resolved with load_mu_ held.
  predicate Holding(pc: Pc) {
    pc.Locked? || pc.Linked?
  }

  // From the resolver's invocation to the end of its answer's insertion.
  predicate InCall(pc: Pc) {
    pc.Asking? || pc.Answered? || pc.Locked? || pc.Linked?
  }

  ghost predicate Sane(s: State, tid: Tid, r: Request, pc: Pc) {
    && r.key.Readable()
    && (!pc.Done? && r.resolves ==> Resolvable(r.key))
    && (pc.Missed? || pc.Allowed? || HasToken(pc) ==> r.resolves)
    && (HasToken(pc) ==>
          pc.token.slot == r.slot && Resolvable(r.key) && pc.token.dtypes == r.key.Dtypes()
              && |pc.token.dims| == r.key.ndims
          && pc.token == TokenOf(pc.token.slot, pc.token.dims, pc.token.dtypes))
    && (pc.Locked? ==> Objection(r, pc.resolved).None?)
    && (Holding(pc) ==> s.loadLock == Some(tid))
    && (InCall(pc) ==> pc.call < |s.calls| && s.calls[pc.call] == Call(pc.token, Running))
  }

  ghost predicate Calm(s: State) {
    && (forall tid :: tid in s.threads ==> Sane(s, tid, s.threads[tid].request, s.threads[tid].pc))
    && (s.loadLock.Some? ==> s.loadLock.value in s.threads && Holding(s.threads[s.loadLock.value].pc))
  }

  lemma SaneActor(s: State, a: Action, r: Request, pc: Pc)
    requires r.key.Readable() && Ready(s, a, r, pc) && Sane(s, a.tid, r, pc)
    ensures Sane(Effect(s, a, r, pc), a.tid, r, NewPc(s, a, r, pc))
  {
    if InCall(pc) {
      SaneInCall(s, a, r, pc);
    } else {
      SaneOutsideCall(s, a, r, pc);
    }
  }

  lemma SaneInCall(s: State, a: Action, r: Request, pc: Pc)
    requires r.key.Readable() && Ready(s, a, r, pc) && Sane(s, a.tid, r, pc) && InCall(pc)
    ensures Sane(Effect(s, a, r, pc), a.tid, r, NewPc(s, a, r, pc))
  {
    if a.Link? {
      SaneLink(s, a, r, pc);
    } else if a.Hear? {
      SaneHear(s, a, r, pc);
    }
  }

  lemma SaneLink(s: State, a: Action, r: Request, pc: Pc)
    requires r.key.Readable() && Ready(s, a, r, pc) && Sane(s, a.tid, r, pc) && a.Link?
    ensures Sane(Effect(s, a, r, pc), a.tid, r, NewPc(s, a, r, pc))
  {
    var pc', s' := NewPc(s, a, r, pc), Effect(s, a, r, pc);
    assert pc' == LinkPc(s, r, pc) && s' == LinkEffect(s, r, pc);
    if Judge(s, r, pc.resolved).Fresh? {
      assert pc'.Linked? && pc'.token == pc.token && pc'.call == pc.call;
      assert s'.calls == s.calls && s'.loadLock == s.loadLock;
    }
  }

  lemma SaneHear(s: State, a: Action, r: Request, pc: Pc)
    requires r.key.Readable() && Ready(s, a, r, pc) && Sane(s, a.tid, r, pc) && a.Hear?
    ensures Sane(Effect(s, a, r, pc), a.tid, r, NewPc(s, a, r, pc))
  {
  }

  lemma SaneOutsideCall(s: State, a: Action, r: Request, pc: Pc)
    requires r.key.Readable() && Ready(s, a, r, pc) && Sane(s, a.tid, r, pc) && !InCall(pc)
    ensures Sane(Effect(s, a, r, pc), a.tid, r, NewPc(s, a, r, pc))
  {
    if a.MakeToken? {
      SaneToken(s, r);
    } else if a.ScanAgain? {
      SaneRecheck(s, a, r, pc);
    } else if a.Erase? || a.Fulfil? {
      SaneEnd(s, a, r, pc);
    } else if a.Scan? {
      SaneScan(s, a, r, pc);
    } else if a.Enter? {
      SaneEnter(s, a, r, pc);
    } else {
      SaneElse(s, a, r, pc);
    }
  }

  lemma SaneScan(s: State, a: Action, r: Request, pc: Pc)
    requires r.key.Readable() && Ready(s, a, r, pc) && Sane(s, a.tid, r, pc) && a.Scan?
    ensures Sane(Effect(s, a, r, pc), a.tid, r, NewPc(s, a, r, pc))
  {
  }

  lemma SaneEnter(s: State, a: Action, r: Request, pc: Pc)
    requires r.key.Readable() && Ready(s, a, r, pc) && Sane(s, a.tid, r, pc) && a.Enter?
    ensures Sane(Effect(s, a, r, pc), a.tid, r, NewPc(s, a, r, pc))
  {
  }

  lemma SaneElse(s: State, a: Action, r: Request, pc: Pc)
    requires r.key.Readable() && Ready(s, a, r, pc) && Sane(s, a.tid, r, pc)
    requires a.ReadSnapshot? || a.CheckFreeze? || a.Await? || a.ReadAgain?
    ensures Sane(Effect(s, a, r, pc), a.tid, r, NewPc(s, a, r, pc))
  {
  }

  lemma SaneRecheck(s: State, a: Action, r: Request, pc: Pc)
    requires r.key.Readable() && Ready(s, a, r, pc) && Sane(s, a.tid, r, pc) && a.ScanAgain?
    ensures Sane(Effect(s, a, r, pc), a.tid, r, NewPc(s, a, r, pc))
  {
  }

  lemma SaneEnd(s: State, a: Action, r: Request, pc: Pc)
    requires r.key.Readable() && Ready(s, a, r, pc) && Sane(s, a.tid, r, pc) && (a.Erase? || a.Fulfil?)
    ensures Sane(Effect(s, a, r, pc), a.tid, r, NewPc(s, a, r, pc))
  {
  }

  lemma SaneToken(s: State, r: Request)
    requires Resolvable(r.key) && r.resolves
    ensures forall tid :: Sane(s, tid, r, TokenPc(s, r))
  {
  }

  // What a step may do to load_mu_: nothing; free it, as its holder; take it, when it is free.
  ghost predicate LockMoves(s: State, tid: Tid, pc: Pc, lock': Option<Tid>, pc': Pc) {
    || (lock' == s.loadLock && Holding(pc) == Holding(pc'))
    || (lock' == None && Holding(pc) && !Holding(pc'))
    || (lock' == Some(tid) && s.loadLock == None && Holding(pc'))
  }

  lemma LinkLock(s: State, a: Action, r: Request, pc: Pc)
    requires r.key.Readable() && Ready(s, a, r, pc) && a.Link?
    ensures LockMoves(s, a.tid, pc, Effect(s, a, r, pc).loadLock, NewPc(s, a, r, pc))
  {
    var verdict := Judge(s, r, pc.resolved);
    assert verdict.Fresh? ==> Effect(s, a, r, pc).loadLock == s.loadLock && NewPc(s, a, r, pc).Linked?;
    assert !verdict.Fresh? ==> Effect(s, a, r, pc).loadLock == None && NewPc(s, a, r, pc).Leaving?;
  }

  lemma LockEffect(s: State, a: Action, r: Request, pc: Pc)
    requires r.key.Readable() && Ready(s, a, r, pc) && Sane(s, a.tid, r, pc)
    ensures LockMoves(s, a.tid, pc, Effect(s, a, r, pc).loadLock, NewPc(s, a, r, pc))
  {
    if a.Link? {
      LinkLock(s, a, r, pc);
    }
  }

  lemma CallsEffect(s: State, a: Action, r: Request, pc: Pc)
    requires r.key.Readable() && Ready(s, a, r, pc) && Sane(s, a.tid, r, pc)
    ensures var calls' := Effect(s, a, r, pc).calls;
            || calls' == s.calls
            || calls' == s.calls + [Call(pc.token, Running)]
            || (InCall(pc) && exists status :: calls' == Rated(s.calls, pc.call, status))
  {
  }

  lemma SameOwner(s: State, t: Tid, u: Tid)
    requires Flights(s) && t in s.threads && u in s.threads
    requires Owns(s.threads[t].pc) && Owns(s.threads[u].pc) && s.threads[t].pc.token.text == s.threads[u].pc.token.text
    ensures t == u
  {
    assert Placed(s, s.threads[t].pc) && Placed(s, s.threads[u].pc);
    assert ResponsibleFor(s, t, s.threads[t].pc.promise) && ResponsibleFor(s, u, s.threads[t].pc.promise);
  }

  // What one thread's step leaves to the others.
  lemma SaneBeside(s: State, s': State, tid: Tid, pc: Pc, pc': Pc, u: Tid, r: Request, other: Pc)
    requires Sane(s, u, r, other) && u != tid && (Holding(pc) ==> s.loadLock == Some(tid))
    requires || (s'.loadLock == s.loadLock)
             || (s'.loadLock == None && Holding(pc))
             || (s'.loadLock == Some(tid) && s.loadLock == None)
    requires || s'.calls == s.calls
             || (|s'.calls| == |s.calls| + 1 && s'.calls[..|s.calls|] == s.calls)
             || (InCall(pc) && (InCall(other) ==> pc.call != other.call)
                 && exists status :: s'.calls == Rated(s.calls, pc.call, status))
    ensures Sane(s', u, r, other)
  {
    if |s'.calls| == |s.calls| + 1 && s'.calls[..|s.calls|] == s.calls && InCall(other) {
      assert s'.calls[other.call] == s'.calls[..|s.calls|][other.call];
    }
  }

  lemma OwnCalls(s: State, t: Tid, u: Tid)
    requires Flights(s) && Calm(s) && t in s.threads && u in s.threads && t != u
    requires InCall(s.threads[t].pc) && InCall(s.threads[u].pc)
    ensures s.threads[t].pc.call != s.threads[u].pc.call
  {
    assert Sane(s, t, s.threads[t].request, s.threads[t].pc) && Sane(s, u, s.threads[u].request, s.threads[u].pc);
    if s.threads[t].pc.call == s.threads[u].pc.call {
      SameOwner(s, t, u);
    }
  }

  lemma SaneOther(s: State, a: Action, u: Tid)
    requires Flights(s) && Calm(s) && Enabled(s, a) && !a.Load? && !a.Spawn?
    requires u in s.threads && u != a.tid
    ensures Sane(Apply(s, a), u, s.threads[u].request, s.threads[u].pc)
  {
    var th, other := s.threads[a.tid], s.threads[u];
    LockEffect(s, a, th.request, th.pc);
    CallsEffect(s, a, th.request, th.pc);
    if InCall(th.pc) && InCall(other.pc) {
      OwnCalls(s, a.tid, u);
    }
    ApplyView(s, a);
    SaneBeside(s, Apply(s, a), a.tid, th.pc, NewPc(s, a, th.request, th.pc), u, other.request, other.pc);
  }

  lemma ArrivalCalm(s: State, a: Action)
    requires Calm(s) && Enabled(s, a) && (a.Load? || a.Spawn?)
    ensures Calm(Apply(s, a))
  {
    forall t | t in s.threads
      ensures Sane(Apply(s, a), t, s.threads[t].request, s.threads[t].pc)
    {
      assert Sane(s, t, s.threads[t].request, s.threads[t].pc);
    }
  }

  lemma SaneFields(s: State, s': State, tid: Tid, r: Request, pc: Pc)
    requires Sane(s, tid, r, pc) && s'.loadLock == s.loadLock && s'.calls == s.calls
    ensures Sane(s', tid, r, pc)
  {
  }

  lemma SaneActed(s: State, a: Action)
    requires Calm(s) && Enabled(s, a) && !a.Load? && !a.Spawn?
    ensures var th := Apply(s, a).threads[a.tid]; Sane(Apply(s, a), a.tid, th.request, th.pc)
  {
    var r, pc := s.threads[a.tid].request, s.threads[a.tid].pc;
    SaneActor(s, a, r, pc);
    ApplyView(s, a);
    SaneFields(Effect(s, a, r, pc), Apply(s, a), a.tid, r, NewPc(s, a, r, pc));
  }

  lemma SaneKept(s: State, a: Action, t: Tid)
    requires Flights(s) && Calm(s) && Enabled(s, a) && !a.Load? && !a.Spawn? && t in s.threads
    ensures t in Apply(s, a).threads
    ensures Sane(Apply(s, a), t, Apply(s, a).threads[t].request, Apply(s, a).threads[t].pc)
  {
    ApplyView(s, a);
    if t == a.tid {
      SaneActed(s, a);
    } else {
      SaneOther(s, a, t);
    }
  }

  lemma LockKept(s: State, a: Action)
    requires Calm(s) && Enabled(s, a) && !a.Load? && !a.Spawn?
    ensures var s' := Apply(s, a);
            s'.loadLock.Some? ==> s'.loadLock.value in s'.threads && Holding(s'.threads[s'.loadLock.value].pc)
  {
    assert Sane(s, a.tid, s.threads[a.tid].request, s.threads[a.tid].pc);
    LockEffect(s, a, s.threads[a.tid].request, s.threads[a.tid].pc);
  }

  lemma CalmKept(s: State, a: Action)
    requires Flights(s) && Calm(s) && Enabled(s, a)
    ensures Calm(Apply(s, a))
  {
    if a.Load? || a.Spawn? {
      ArrivalCalm(s, a);
    } else {
      forall t | t in s.threads
        ensures Sane(Apply(s, a), t, Apply(s, a).threads[t].request, Apply(s, a).threads[t].pc)
      {
        SaneKept(s, a, t);
      }
      LockKept(s, a);
    }
  }
}
