/** Theorems about whole runs of the resolve() protocol: linearisable reads, agreement of all answers,
    one resolver call per success, retention, and release of every waiter. */
module TunedRuns {
  import opened KeySchema
  import opened TunedIndex
  import opened TunedTable
  import opened TunedProtocol
  import opened TunedAgreement
  import Identity

  // states[i] --actions[i]--> states[i + 1]
  ghost predicate Run(states: seq<State>, actions: seq<Action>) {
    && |states| == |actions| + 1
    && forall i :: 0 <= i < |actions| ==>
        Enabled(states[i], actions[i]) && states[i + 1] == Apply(states[i], actions[i])
  }

  ghost predicate Initial(s: State) {
    s == State(map[], [], None, map[], [], map[], [], [])
  }

  lemma InitialInv(s: State)
    requires Initial(s)
    ensures Inv(s)
  {
  }

  lemma RunPrefix(states: seq<State>, actions: seq<Action>)
    requires Run(states, actions) && |actions| > 0
    ensures Run(states[..|actions|], actions[..|actions| - 1])
  {
  }

  /** The invariant holds in every state of every run. */
  lemma {:induction false} RunInv(states: seq<State>, actions: seq<Action>)
    requires Run(states, actions) && Inv(states[0])
    ensures forall i :: 0 <= i < |states| ==> Inv(states[i])
  {
    if |actions| > 0 {
      RunPrefix(states, actions);
      RunInv(states[..|actions|], actions[..|actions| - 1]);
      InvKept(states[|actions| - 1], actions[|actions| - 1]);
    }
  }

  lemma {:induction false} HandleStaysOk(states: seq<State>, actions: seq<Action>, slot: Slot, t: Table)
    requires Run(states, actions) && Inv(states[0]) && TableOk(states[0].arenas, slot, t)
    ensures TableOk(states[|actions|].arenas, slot, t)
  {
    if |actions| > 0 {
      RunPrefix(states, actions);
      HandleStaysOk(states[..|actions|], actions[..|actions| - 1], slot, t);
      RunInv(states, actions);
      StepGrows(states[|actions| - 1], actions[|actions| - 1]);
      TableOkGrows(states[|actions| - 1].arenas, states[|actions|].arenas, slot, t);
    }
  }

  /** Lock-free reads linearise. A table handle is taken from the snapshot in the first state and
      consulted in the last one, with anything at all happening in between, loads included: the
      answer is the one the published map gave at some moment of that interval. */
  lemma {:induction false} ReadLinearises(states: seq<State>, actions: seq<Action>, slot: Slot, key: KeyView)
    requires Run(states, actions) && Inv(states[0]) && key.Readable()
    ensures exists i :: 0 <= i < |states| &&
              Abs(states[i], slot, key) == Lookup(states[|actions|].arenas, Current(states[0], slot), key)
  {
    var t := Current(states[0], slot);
    if |actions| == 0 {
      assert Abs(states[0], slot, key) == Lookup(states[0].arenas, t, key);
    } else {
      var n := |actions| - 1;
      RunPrefix(states, actions);
      ReadLinearises(states[..n + 1], actions[..n], slot, key);
      var i :| 0 <= i < n + 1 && Abs(states[..n + 1][i], slot, key) == Lookup(states[n].arenas, t, key);
      assert Abs(states[i], slot, key) == Lookup(states[n].arenas, t, key);
      RunInv(states, actions);
      if t.Some? {
        HandleStaysOk(states[..n + 1], actions[..n], slot, t.value);
        HandleStep(states[n], actions[n], slot, t.value, key);
        if Lookup(states[n + 1].arenas, t, key) != Lookup(states[n].arenas, t, key) {
          assert Abs(states[n + 1], slot, key) == Lookup(states[n + 1].arenas, t, key);
        }
      }
    }
  }

  /** A handle kept across any run answers a key the same way for ever once it has answered it. */
  lemma {:induction false} HandleIsStable(states: seq<State>, actions: seq<Action>, slot: Slot, t: Table, key: KeyView)
    requires Run(states, actions) && Inv(states[0]) && TableOk(states[0].arenas, slot, t) && key.Readable()
    requires Lookup(states[0].arenas, Some(t), key).Some?
    ensures Lookup(states[|actions|].arenas, Some(t), key) == Lookup(states[0].arenas, Some(t), key)
  {
    if |actions| > 0 {
      var n := |actions| - 1;
      RunPrefix(states, actions);
      HandleIsStable(states[..n + 1], actions[..n], slot, t, key);
      RunInv(states, actions);
      HandleStaysOk(states[..n + 1], actions[..n], slot, t);
      HandleStep(states[n], actions[n], slot, t, key);
    }
  }

  // ---- agreement within one generation of a kernel (no load of it)

  function ViewOf(token: Token): (k: KeyView)
    ensures k.Readable()
  {
    KeyView(|token.dims|, Some(token.dims), |token.dtypes|, Some(token.dtypes))
  }

  // The token was made from this key, either before or after the schema was bound.
  ghost predicate TokenMatches(s: State, slot: Slot, key: KeyView, token: Token)
    requires Resolvable(key)
  {
    && token.slot == slot && |token.dims| == key.ndims && token.dtypes == key.Dtypes()
    && (|| token.dims == key.Dims()
        || (&& slot in s.published && |s.published[slot].schema.columns| == key.ndims
            && token.dims == Normalize(s.published[slot].schema.Strategies(), key.Dims())))
  }

  ghost predicate Agrees(s: State, slot: Slot, key: KeyView, outcome: Outcome)
    requires key.Readable()
  {
    outcome.Value? && outcome.found.Some? ==> Abs(s, slot, key) == outcome.found
  }

  ghost predicate SettledPc(s: State, r: Request, pc: Pc)
    requires r.key.Readable()
  {
    && (HasToken(pc) ==> Resolvable(r.key) && TokenMatches(s, r.slot, r.key, pc.token))
    && (pc.Looked? || pc.Rechecking? ==> pc.table.Some? ==>
          r.slot in s.published && Continues(pc.table, s.published[r.slot]))
    && (pc.Leaving? || pc.Fulfilling? || pc.Done? ==> Agrees(s, r.slot, r.key, pc.outcome))
    && (pc.Waiting? ==> pc.promise < |s.promises| && s.promises[pc.promise].token == pc.token)
  }

  // Whatever any thread or promise of this kernel holds, the published map answers too.
  ghost predicate Settled(s: State, slot: Slot) {
    && (forall tid :: tid in s.threads && s.threads[tid].request.slot == slot ==>
          s.threads[tid].request.key.Readable() && SettledPc(s, s.threads[tid].request, s.threads[tid].pc))
    && (forall p :: 0 <= p < |s.promises| && s.promises[p].token.slot == slot && s.promises[p].outcome.Some? ==>
          Agrees(s, slot, ViewOf(s.promises[p].token), s.promises[p].outcome.value))
  }

  // A key and its token are answered alike: normalising twice changes nothing.
  lemma TokenAnswers(s: State, slot: Slot, key: KeyView, token: Token)
    requires Resolvable(key) && TokenMatches(s, slot, key, token)
    ensures Abs(s, slot, ViewOf(token)) == Abs(s, slot, key)
  {
    if slot in s.published && |s.published[slot].schema.columns| == key.ndims {
      NormalizeSeqIdempotent(s.published[slot].schema.Strategies(), key.Dims());
    }
  }

  // Token texts of two requests are equal only if everything they are printed from is, whatever the
  // dimensions are normalised to.
  ghost predicate RequestsApart(q: Request, r: Request) {
    q.resolves && r.resolves && Resolvable(q.key) && Resolvable(r.key) ==>
      forall d: seq<int>, e: seq<int> ::
        |d| == q.key.ndims && |e| == r.key.ndims
        && TokenText(q.slot, d, q.key.Dtypes()) == TokenText(r.slot, e, r.key.Dtypes()) ==>
          q.slot == r.slot && d == e && q.key.Dtypes() == r.key.Dtypes()
  }

  // The requests for this kernel are apart from all requests.
  ghost predicate Apart(s: State, slot: Slot) {
    forall t, u :: t in s.threads && u in s.threads && s.threads[t].request.slot == slot ==>
      RequestsApart(s.threads[t].request, s.threads[u].request)
  }

  /** With storage ids of the default scheme, requests are apart. */
  lemma ScopedRequestsApart(q: Request, r: Request, k1: string, n1: string, k2: string, n2: string)
    requires q.key.Readable() && r.key.Readable() && Resolvable(q.key) && Resolvable(r.key)
    requires Identity.KernelName(k1) && q.slot.storageId == Identity.ScopedKernelId(k1, n1)
    requires Identity.KernelName(k2) && r.slot.storageId == Identity.ScopedKernelId(k2, n2)
    requires Identity.DtypeNames(Shown(q.key.Dtypes())) && Identity.DtypeNames(Shown(r.key.Dtypes()))
    ensures RequestsApart(q, r)
  {
    forall d: seq<int>, e: seq<int> | TokenText(q.slot, d, q.key.Dtypes()) == TokenText(r.slot, e, r.key.Dtypes())
      ensures q.slot == r.slot && d == e && q.key.Dtypes() == r.key.Dtypes()
    {
      Identity.FlightTokenInjective(k1, n1, q.slot.device, d, Shown(q.key.Dtypes()),
                                    k2, n2, r.slot.device, e, Shown(r.key.Dtypes()));
      ShownInjective(q.key.Dtypes(), r.key.Dtypes());
    }
  }

  /** With any storage ids they are, if no dtype ends like a device. */
  lemma SafeRequestsApart(q: Request, r: Request)
    requires q.key.Readable() && r.key.Readable() && Resolvable(q.key) && Resolvable(r.key)
    requires Identity.DtypeNames(Shown(q.key.Dtypes())) && Identity.DtypeNames(Shown(r.key.Dtypes()))
    requires forall i :: 0 <= i < q.key.ndtypes ==> !Identity.EndsLikeDevice(Shown(q.key.Dtypes())[i])
    requires forall i :: 0 <= i < r.key.ndtypes ==> !Identity.EndsLikeDevice(Shown(r.key.Dtypes())[i])
    ensures RequestsApart(q, r)
  {
    forall d: seq<int>, e: seq<int> | TokenText(q.slot, d, q.key.Dtypes()) == TokenText(r.slot, e, r.key.Dtypes())
      ensures q.slot == r.slot && d == e && q.key.Dtypes() == r.key.Dtypes()
    {
      Identity.FlightTokenInjectiveAnyId(q.slot.storageId, q.slot.device, d, Shown(q.key.Dtypes()),
                                         r.slot.storageId, r.slot.device, e, Shown(r.key.Dtypes()));
      ShownInjective(q.key.Dtypes(), r.key.Dtypes());
    }
  }

  lemma ShownInjective(a: seq<Option<CString>>, b: seq<Option<CString>>)
    requires Shown(a) == Shown(b)
    requires (forall i :: 0 <= i < |a| ==> a[i].Some?) && (forall i :: 0 <= i < |b| ==> b[i].Some?)
    ensures a == b
  {
    assert |a| == |Shown(a)| == |b|;
    forall i | 0 <= i < |a|
      ensures a[i] == b[i]
    {
      assert Shown(a)[i] == Shown(b)[i];
    }
  }

  // Tokens of this kernel's threads share a text only with equal tokens.
  ghost predicate Separated(s: State, slot: Slot) {
    forall t, u :: t in s.threads && u in s.threads && s.threads[t].request.slot == slot
                   && HasToken(s.threads[t].pc) && HasToken(s.threads[u].pc)
                   && s.threads[t].pc.token.text == s.threads[u].pc.token.text ==>
      s.threads[t].pc.token == s.threads[u].pc.token
  }

  lemma ApartSeparates(s: State, slot: Slot)
    requires Calm(s) && Apart(s, slot)
    ensures Separated(s, slot)
  {
    forall t, u | t in s.threads && u in s.threads && s.threads[t].request.slot == slot
                  && HasToken(s.threads[t].pc) && HasToken(s.threads[u].pc)
                  && s.threads[t].pc.token.text == s.threads[u].pc.token.text
      ensures s.threads[t].pc.token == s.threads[u].pc.token
    {
      TokensApart(s, t, u);
    }
  }

  lemma TokensApart(s: State, t: Tid, u: Tid)
    requires Calm(s) && t in s.threads && u in s.threads
    requires RequestsApart(s.threads[t].request, s.threads[u].request)
    requires HasToken(s.threads[t].pc) && HasToken(s.threads[u].pc)
    requires s.threads[t].pc.token.text == s.threads[u].pc.token.text
    ensures s.threads[t].pc.token == s.threads[u].pc.token
  {
    var a, b := s.threads[t], s.threads[u];
    assert Sane(s, t, a.request, a.pc) && Sane(s, u, b.request, b.pc);
    assert TokenText(a.request.slot, a.pc.token.dims, a.request.key.Dtypes())
        == TokenText(b.request.slot, b.pc.token.dims, b.request.key.Dtypes());
  }

  // Threads and their requests never go away.
  lemma ApartBefore(s: State, a: Action, slot: Slot)
    requires Enabled(s, a) && Apart(Apply(s, a), slot)
    ensures Apart(s, slot)
  {
    forall t | t in s.threads
      ensures t in Apply(s, a).threads && Apply(s, a).threads[t].request == s.threads[t].request
    {
      if !a.Load? && !a.Spawn? {
        ApplyView(s, a);
      }
    }
  }

  // Who finds a token pending waits for a promise that was made for that very token.
  lemma PendingIsOwn(s: State, slot: Slot, tid: Tid)
    requires Flights(s) && Separated(s, slot) && tid in s.threads && s.threads[tid].request.slot == slot
    requires s.threads[tid].pc.Bound? && s.threads[tid].pc.token.text in s.inflight
    ensures var p := s.inflight[s.threads[tid].pc.token.text];
            p < |s.promises| && s.promises[p].token == s.threads[tid].pc.token
  {
    var text := s.threads[tid].pc.token.text;
    var owner :| OwnerOf(s, owner, text);
    assert Placed(s, s.threads[owner].pc);
  }

  // What a step does to the storages and to the snapshot.
  datatype Change =
    | NoChange
    | LinkChange(r: Request, next: Table, found: Found)
    | PublishChange(r: Request, next: Table, found: Found)
    | LoadChange(slot: Slot, table: Table)

  ghost predicate Changed(s: State, s': State, c: Change) {
    match c
    case NoChange => s'.arenas == s.arenas && s'.published == s.published
    case LinkChange(r, next, found) =>
      && Resolvable(r.key) && r.key.Fits(next.schema) && Abs(s, r.slot, r.key).None?
      && LinkedRow(s, r.slot, next.schema, r.key, found, s'.arenas, next) && s'.published == s.published
    case PublishChange(r, next, found) =>
      && Resolvable(r.key) && r.key.Fits(next.schema)
      && AddsOne(s, r, next, found) && Continues(Current(s, r.slot), next)
      && s'.arenas == s.arenas && s'.published == s.published[r.slot := next]
    case LoadChange(slot, table) => s'.arenas == s.arenas && s'.published == s.published[slot := table]
  }

  ghost function ChangeOf(s: State, a: Action): Change
    requires Enabled(s, a)
  {
    if a.Load? then LoadChange(a.slot, Table(a.schema, a.rows, |s.history|, None))
    else if a.Publish? then
      var pc := s.threads[a.tid].pc;
      PublishChange(s.threads[a.tid].request, pc.next, pc.found)
    else if LinksFresh(s, a) then
      var r, pc := s.threads[a.tid].request, s.threads[a.tid].pc;
      var schema := Schema(pc.resolved.columns, r.key.ndtypes);
      LinkChange(r, NextTable(s, r.slot, schema), NextFound(s, r.slot, schema, pc.resolved.config))
    else NoChange
  }

  lemma LinkChanges(s: State, a: Action)
    requires Inv(s) && LinksFresh(s, a)
    ensures Changed(s, Apply(s, a), ChangeOf(s, a)) && ChangeOf(s, a).LinkChange?
    ensures ChangeOf(s, a).r == s.threads[a.tid].request
  {
    FreshStep(s, a);
    FreshView(s, a);
  }

  // What publishing does, for the thread and for everyone.
  lemma PublishView(s: State, a: Action)
    requires Enabled(s, a) && a.Publish?
    ensures s.threads[a.tid].pc.Linked? && s.threads[a.tid].request.key.Readable()
    ensures var r, pc := s.threads[a.tid].request, s.threads[a.tid].pc;
            && Apply(s, a).threads == s.threads[a.tid := s.threads[a.tid].(pc :=
                 Leaving(pc.token, pc.promise, Value(Some(pc.found))))]
            && Apply(s, a).arenas == s.arenas && Apply(s, a).published == s.published[r.slot := pc.next]
            && Apply(s, a).history == s.history + [(r.slot, pc.next)]
            && ChangeOf(s, a) == PublishChange(r, pc.next, pc.found)
  {
  }

  lemma PublishChanges(s: State, a: Action)
    requires Inv(s) && Enabled(s, a) && a.Publish?
    ensures Changed(s, Apply(s, a), ChangeOf(s, a))
  {
    PublishView(s, a);
    PublisherOk(s, a.tid);
  }

  lemma PublisherOk(s: State, tid: Tid)
    requires Inv(s) && tid in s.threads && s.threads[tid].pc.Linked?
    ensures var r, pc := s.threads[tid].request, s.threads[tid].pc;
            && Resolvable(r.key) && r.key.Fits(pc.next.schema)
            && AddsOne(s, r, pc.next, pc.found) && Continues(Current(s, r.slot), pc.next)
  {
    var r, pc := s.threads[tid].request, s.threads[tid].pc;
    assert HandleOk(s, r, pc) && Sane(s, tid, r, pc);
  }

  lemma StepChanges(s: State, a: Action)
    requires Inv(s) && Enabled(s, a)
    ensures Changed(s, Apply(s, a), ChangeOf(s, a))
  {
    if LinksFresh(s, a) {
      LinkChanges(s, a);
    } else if a.Publish? {
      PublishChanges(s, a);
    } else {
      OtherChanges(s, a);
    }
  }

  lemma OtherChanges(s: State, a: Action)
    requires Enabled(s, a) && !LinksFresh(s, a) && !a.Publish?
    ensures Changed(s, Apply(s, a), ChangeOf(s, a))
  {
    TablesElsewhere(s, a);
  }

  // Publishing changes the answer of the inserted key only, and only from a miss.
  lemma AbsPublish(s: State, r: Request, next: Table, found: Found, k: KeyView)
    requires r.key.Readable() && k.Readable() && AddsOne(s, r, next, found) && Continues(Current(s, r.slot), next)
    ensures Abs(s, r.slot, k).Some? ==> Lookup(s.arenas, Some(next), k) == Abs(s, r.slot, k)
    ensures Lookup(s.arenas, Some(next), k) != Abs(s, r.slot, k) ==> SameNormalKey(next.schema, k, r.key)
  {
    if SameNormalKey(next.schema, k, r.key) && r.slot in s.published {
      SameKeySameAnswer(s.published[r.slot], OnlineOf(s.arenas, s.published[r.slot]), k, r.key);
    }
  }

  // Linking changes it too, if the storage is already published.
  lemma AbsLink(s: State, s': State, c: Change, slot: Slot, k: KeyView)
    requires StorageOk(s) && Changed(s, s', c) && c.LinkChange? && k.Readable()
    ensures Abs(s, slot, k).Some? ==> Abs(s', slot, k) == Abs(s, slot, k)
    ensures Abs(s', slot, k) != Abs(s, slot, k) ==>
              c.r.slot == slot && slot in s'.published && SameNormalKey(s'.published[slot].schema, k, c.r.key)
  {
    if slot in s.published && s.published[slot].arena == c.next.arena {
      assert s.published[c.r.slot] == c.next;
      assert TableOk(s.arenas, c.r.slot, c.next) && TableOk(s.arenas, slot, s.published[slot]);
      if SameNormalKey(c.next.schema, k, c.r.key) {
        SameKeySameAnswer(c.next, OnlineOf(s.arenas, c.next), k, c.r.key);
      }
    }
  }

  // Which change can alter the published answer for a key, and how.
  lemma AbsStep(s: State, s': State, c: Change, slot: Slot, k: KeyView)
    requires StorageOk(s) && Changed(s, s', c) && k.Readable() && !(c.LoadChange? && c.slot == slot)
    ensures Abs(s, slot, k).Some? ==> Abs(s', slot, k) == Abs(s, slot, k)
    ensures Abs(s', slot, k) != Abs(s, slot, k) ==>
              && (c.LinkChange? || c.PublishChange?) && c.r.slot == slot && slot in s'.published
              && c.r.key.Readable() && SameNormalKey(s'.published[slot].schema, k, c.r.key)
  {
    match c
    case LinkChange(_, _, _) => AbsLink(s, s', c, slot, k);
    case PublishChange(r, next, found) => AbsPublish(s, r, next, found, k);
    case _ =>
  }

  // The published table of a kernel only ever continues itself.
  lemma PublishedContinues(s: State, s': State, c: Change, slot: Slot)
    requires Changed(s, s', c) && !(c.LoadChange? && c.slot == slot) && slot in s.published
    ensures slot in s'.published && Continues(Some(s.published[slot]), s'.published[slot])
  {
  }

  // Promises are only ever added, and keep their tokens.
  ghost predicate PromisesStay(s: State, s': State) {
    |s.promises| <= |s'.promises| && forall p :: 0 <= p < |s.promises| ==> s'.promises[p].token == s.promises[p].token
  }

  lemma EffectPromises(s: State, a: Action, r: Request, pc: Pc)
    requires r.key.Readable() && Ready(s, a, r, pc)
    ensures PromisesStay(s, Effect(s, a, r, pc))
  {
  }

  lemma StepPromises(s: State, a: Action)
    requires Enabled(s, a)
    ensures PromisesStay(s, Apply(s, a))
  {
    if !a.Load? && !a.Spawn? {
      ApplyView(s, a);
      EffectPromises(s, a, s.threads[a.tid].request, s.threads[a.tid].pc);
    }
  }

  lemma SettledUnderChange(s: State, s': State, c: Change, r: Request, pc: Pc)
    requires PromisesStay(s, s') && StorageOk(s) && Changed(s, s', c) && !(c.LoadChange? && c.slot == r.slot)
    requires r.key.Readable() && SettledPc(s, r, pc)
    ensures SettledPc(s', r, pc)
  {
    AbsStep(s, s', c, r.slot, r.key);
    if r.slot in s.published {
      PublishedContinues(s, s', c, r.slot);
    }
  }

  lemma MatchSame(e: Entry, f: Entry, dims: seq<int>, dtypes: seq<Option<CString>>)
    requires Matches(e, dims, dtypes) && Matches(f, dims, dtypes)
    ensures SameKey(e, f)
  {
    assert e.dtypes == f.dtypes;
  }

  lemma NotBothMatch(e: Entry, f: Entry, dims: seq<int>, dtypes: seq<Option<CString>>)
    requires !SameKey(e, f)
    ensures !(Matches(e, dims, dtypes) && Matches(f, dims, dtypes))
  {
    if Matches(e, dims, dtypes) && Matches(f, dims, dtypes) {
      MatchSame(e, f, dims, dtypes);
    }
  }

  // An offline answer is the answer: no online row repeats an offline key.
  lemma OfflineAnswerStands(t: Table, next: Table, online: seq<Entry>, key: KeyView)
    requires Unique(online + next.offline) && Continues(Some(t), next) && key.Readable()
    requires LookupIn(t, [], key).Some?
    ensures LookupIn(next, online, key) == LookupIn(t, [], key)
  {
    var dims, dtypes := Normalize(t.schema.Strategies(), key.Dims()), key.Dtypes();
    var j := NewestMatch(t.offline, |t.offline|, dims, dtypes);
    var all := online + next.offline;
    assert forall m :: 0 <= m < |online| ==> all[m] == online[m];
    assert all[|online| + j] == t.offline[j];
    forall m | 0 <= m < |online|
      ensures !Matches(online[m], dims, dtypes)
    {
      NotBothMatch(online[m], t.offline[j], dims, dtypes);
    }
  }

  lemma PublishedUnique(s: State, slot: Slot)
    requires StorageOk(s) && slot in s.published
    ensures var t := s.published[slot]; Unique(OnlineOf(s.arenas, t) + t.offline)
  {
    var t := s.published[slot];
    if t.arena.None? {
      assert [] + t.offline == t.offline;
    } else {
      assert Unique(s.arenas[t.arena.value].rows + s.arenas[t.arena.value].offline);
    }
  }

  // What an older handle answers, the published table answers too.
  lemma OlderAgrees(s: State, slot: Slot, t: Table, key: KeyView)
    requires StorageOk(s) && slot in s.published && Continues(Some(t), s.published[slot]) && key.Readable()
    requires Lookup(s.arenas, Some(t), key).Some?
    ensures Abs(s, slot, key) == Lookup(s.arenas, Some(t), key)
  {
    if t.arena.None? {
      var p := s.published[slot];
      PublishedUnique(s, slot);
      OfflineAnswerStands(t, p, OnlineOf(s.arenas, p), key);
    }
  }

  lemma SettledScan(s: State, r: Request, t: Option<Table>)
    requires StorageOk(s) && r.key.Readable()
    requires t.Some? ==> r.slot in s.published && Continues(t, s.published[r.slot])
    ensures Agrees(s, r.slot, r.key, Value(Lookup(s.arenas, t, r.key)))
  {
    if Lookup(s.arenas, t, r.key).Some? {
      OlderAgrees(s, r.slot, t.value, r.key);
    }
  }

  lemma SettledToken(s: State, r: Request)
    requires Resolvable(r.key) && r.resolves
    ensures SettledPc(s, r, TokenPc(s, r))
  {
  }

  // The acting thread, for every step that leaves the tables alone.
  lemma SettledQuietActor(s: State, a: Action, r: Request, pc: Pc)
    requires !a.Load? && !a.Publish? && (a.Link? && pc.Locked? && r.key.Readable() ==>
               Judge(s, r, pc.resolved) != Fresh)
    requires StorageOk(s) && Sane(s, a.tid, r, pc) && Ready(s, a, r, pc) && SettledPc(s, r, pc)
    requires a.Await? ==> Agrees(s, r.slot, r.key, s.promises[pc.promise].outcome.value)
    requires a.Enter? && pc.token.text in s.inflight ==>
               s.inflight[pc.token.text] < |s.promises| && s.promises[s.inflight[pc.token.text]].token == pc.token
    ensures SettledPc(s, r, NewPc(s, a, r, pc))
  {
    if a.Scan? || a.ScanAgain? {
      SettledScan(s, r, pc.table);
    } else if a.MakeToken? {
      SettledToken(s, r);
    }
  }

  // The acting thread, when it links or publishes its row.
  lemma SettledInserter(s: State, s': State, c: Change, r: Request, pc: Pc, pc': Pc)
    requires StorageOk(s) && Changed(s, s', c) && (c.LinkChange? || c.PublishChange?) && c.r == r
    requires r.key.Readable() && SettledPc(s, r, pc)
    requires HasToken(pc) && HasToken(pc') && pc'.token == pc.token
    requires c.LinkChange? ==> pc'.Linked?
    requires c.PublishChange? ==> pc'.Leaving? && pc'.outcome == Value(Some(c.found))
    ensures SettledPc(s', r, pc')
  {
    if r.slot in s.published {
      PublishedContinues(s, s', c, r.slot);
    }
    if c.PublishChange? {
      assert SameNormalKey(c.next.schema, r.key, r.key);
    }
  }

  lemma SettledPublishStep(s: State, a: Action)
    requires Inv(s) && Enabled(s, a) && a.Publish? && s.threads[a.tid].request.key.Readable()
    requires SettledPc(s, s.threads[a.tid].request, s.threads[a.tid].pc)
    ensures SettledPc(Apply(s, a), s.threads[a.tid].request, Apply(s, a).threads[a.tid].pc)
  {
    PublishView(s, a);
    PublishChanges(s, a);
    SettledInserter(s, Apply(s, a), ChangeOf(s, a), s.threads[a.tid].request, s.threads[a.tid].pc,
                    Apply(s, a).threads[a.tid].pc);
  }

  lemma SettledLinkStep(s: State, a: Action)
    requires Inv(s) && LinksFresh(s, a) && s.threads[a.tid].request.key.Readable()
    requires SettledPc(s, s.threads[a.tid].request, s.threads[a.tid].pc)
    ensures SettledPc(Apply(s, a), s.threads[a.tid].request, Apply(s, a).threads[a.tid].pc)
  {
    FreshView(s, a);
    LinkChanges(s, a);
    SettledInserter(s, Apply(s, a), ChangeOf(s, a), s.threads[a.tid].request, s.threads[a.tid].pc,
                    Apply(s, a).threads[a.tid].pc);
  }

  lemma ActorSettled(s: State, slot: Slot, tid: Tid)
    requires Inv(s) && Settled(s, slot) && tid in s.threads && s.threads[tid].request.slot == slot
    ensures s.threads[tid].request.key.Readable()
    ensures SettledPc(s, s.threads[tid].request, s.threads[tid].pc)
    ensures Sane(s, tid, s.threads[tid].request, s.threads[tid].pc)
  {
  }

  lemma AwaitedAgrees(s: State, slot: Slot, tid: Tid)
    requires Inv(s) && Settled(s, slot) && tid in s.threads && s.threads[tid].request.slot == slot
    requires s.threads[tid].pc.Waiting?
    requires var p := s.threads[tid].pc.promise; p < |s.promises| && s.promises[p].outcome.Some?
    ensures Agrees(s, slot, s.threads[tid].request.key, s.promises[s.threads[tid].pc.promise].outcome.value)
  {
    var r, pc := s.threads[tid].request, s.threads[tid].pc;
    assert Sane(s, tid, r, pc) && SettledPc(s, r, pc) && Placed(s, pc);
    TokenAnswers(s, slot, r.key, pc.token);
  }

  lemma SettledQuietStep(s: State, a: Action)
    requires Inv(s) && Enabled(s, a) && !a.Load? && !a.Spawn? && !a.Publish? && !LinksFresh(s, a)
    requires Settled(s, s.threads[a.tid].request.slot) && Separated(s, s.threads[a.tid].request.slot)
    ensures SettledPc(s, s.threads[a.tid].request, NewPc(s, a, s.threads[a.tid].request, s.threads[a.tid].pc))
  {
    var r, pc := s.threads[a.tid].request, s.threads[a.tid].pc;
    ActorSettled(s, r.slot, a.tid);
    if a.Await? {
      AwaitedAgrees(s, r.slot, a.tid);
    } else if a.Enter? && pc.token.text in s.inflight {
      PendingIsOwn(s, r.slot, a.tid);
    }
    SettledQuietActor(s, a, r, pc);
  }

  lemma SettledQuietApplied(s: State, a: Action)
    requires Inv(s) && Enabled(s, a) && !a.Load? && !a.Spawn? && !a.Publish? && !LinksFresh(s, a)
    requires Settled(s, s.threads[a.tid].request.slot) && Separated(s, s.threads[a.tid].request.slot)
    ensures SettledPc(Apply(s, a), s.threads[a.tid].request, Apply(s, a).threads[a.tid].pc)
  {
    SettledQuietStep(s, a);
    OtherChanges(s, a);
    StepPromises(s, a);
    ApplyView(s, a);
    var r := s.threads[a.tid].request;
    SettledUnderChange(s, Apply(s, a), ChangeOf(s, a), r, NewPc(s, a, r, s.threads[a.tid].pc));
  }

  lemma SettledActor(s: State, a: Action)
    requires Inv(s) && Enabled(s, a) && !a.Load? && !a.Spawn?
    requires Settled(s, s.threads[a.tid].request.slot) && Separated(s, s.threads[a.tid].request.slot)
    ensures SettledPc(Apply(s, a), s.threads[a.tid].request, Apply(s, a).threads[a.tid].pc)
  {
    if a.Publish? {
      ActorSettled(s, s.threads[a.tid].request.slot, a.tid);
      SettledPublishStep(s, a);
    } else if LinksFresh(s, a) {
      ActorSettled(s, s.threads[a.tid].request.slot, a.tid);
      SettledLinkStep(s, a);
    } else {
      SettledQuietApplied(s, a);
    }
  }

  lemma SettledOther(s: State, a: Action, slot: Slot, tid: Tid)
    requires Inv(s) && Enabled(s, a) && Settled(s, slot) && !(a.Load? && a.slot == slot)
    requires tid in s.threads && s.threads[tid].request.slot == slot
    ensures s.threads[tid].request.key.Readable()
    ensures SettledPc(Apply(s, a), s.threads[tid].request, s.threads[tid].pc)
  {
    ActorSettled(s, slot, tid);
    StepChanges(s, a);
    StepPromises(s, a);
    SettledUnderChange(s, Apply(s, a), ChangeOf(s, a), s.threads[tid].request, s.threads[tid].pc);
  }

  // Only the fulfilling thread closes a promise, with its own outcome.
  lemma PromiseStep(s: State, a: Action, p: nat)
    requires Flights(s) && Enabled(s, a) && p < |Apply(s, a).promises| && Apply(s, a).promises[p].outcome.Some?
    ensures p < |s.promises| && Apply(s, a).promises[p].token == s.promises[p].token
    ensures Apply(s, a).promises[p] != s.promises[p] ==>
              && a.Fulfil? && s.threads[a.tid].pc.promise == p && s.promises[p].token == s.threads[a.tid].pc.token
              && Apply(s, a).promises[p].outcome == Some(s.threads[a.tid].pc.outcome)
  {
    if !a.Load? && !a.Spawn? {
      ApplyView(s, a);
      assert Placed(s, s.threads[a.tid].pc);
      EffectPromise(s, a, s.threads[a.tid].request, s.threads[a.tid].pc, p);
    }
  }

  lemma EffectPromise(s: State, a: Action, r: Request, pc: Pc, p: nat)
    requires r.key.Readable() && Ready(s, a, r, pc) && Placed(s, pc)
    requires p < |Effect(s, a, r, pc).promises| && Effect(s, a, r, pc).promises[p].outcome.Some?
    ensures p < |s.promises| && Effect(s, a, r, pc).promises[p].token == s.promises[p].token
    ensures Effect(s, a, r, pc).promises[p] != s.promises[p] ==>
              && a.Fulfil? && pc.promise == p && s.promises[p].token == pc.token
              && Effect(s, a, r, pc).promises[p].outcome == Some(pc.outcome)
  {
  }

  lemma SettledPromise(s: State, a: Action, slot: Slot, p: nat)
    requires Inv(s) && Enabled(s, a) && Settled(s, slot)
    requires p < |Apply(s, a).promises| && Apply(s, a).promises[p].outcome.Some?
    requires Apply(s, a).promises[p].token.slot == slot
    ensures Agrees(s, slot, ViewOf(Apply(s, a).promises[p].token), Apply(s, a).promises[p].outcome.value)
  {
    PromiseStep(s, a, p);
    if Apply(s, a).promises[p] != s.promises[p] {
      var r, pc := s.threads[a.tid].request, s.threads[a.tid].pc;
      assert Sane(s, a.tid, r, pc);
      TokenAnswers(s, slot, r.key, pc.token);
    }
  }

  lemma SettledThread(s: State, a: Action, slot: Slot, tid: Tid)
    requires Inv(s) && Enabled(s, a) && Settled(s, slot) && Separated(s, slot) && !(a.Load? && a.slot == slot)
    requires tid in Apply(s, a).threads && Apply(s, a).threads[tid].request.slot == slot
    ensures Apply(s, a).threads[tid].request.key.Readable()
    ensures SettledPc(Apply(s, a), Apply(s, a).threads[tid].request, Apply(s, a).threads[tid].pc)
  {
    if a.Load? || a.Spawn? || a.tid != tid {
      ThreadAfter(s, a, tid);
      if tid in s.threads {
        SettledOther(s, a, slot, tid);
      }
    } else {
      ApplyView(s, a);
      SettledActor(s, a);
    }
  }

  lemma SettledPromiseKept(s: State, a: Action, slot: Slot, p: nat)
    requires Inv(s) && Enabled(s, a) && Settled(s, slot) && !(a.Load? && a.slot == slot)
    requires p < |Apply(s, a).promises| && Apply(s, a).promises[p].outcome.Some?
    requires Apply(s, a).promises[p].token.slot == slot
    ensures Agrees(Apply(s, a), slot, ViewOf(Apply(s, a).promises[p].token), Apply(s, a).promises[p].outcome.value)
  {
    SettledPromise(s, a, slot, p);
    var promise := Apply(s, a).promises[p];
    if promise.outcome.value.Value? && promise.outcome.value.found.Some? {
      AnswerStays(s, a, slot, ViewOf(promise.token));
    }
  }

  // What a kernel answers it keeps answering, until it is loaded anew.
  lemma AnswerStays(s: State, a: Action, slot: Slot, k: KeyView)
    requires Inv(s) && Enabled(s, a) && !(a.Load? && a.slot == slot) && k.Readable() && Abs(s, slot, k).Some?
    ensures Abs(Apply(s, a), slot, k) == Abs(s, slot, k)
  {
    StepChanges(s, a);
    AbsStep(s, Apply(s, a), ChangeOf(s, a), slot, k);
  }

  lemma SettledKept(s: State, a: Action, slot: Slot)
    requires Inv(s) && Enabled(s, a) && Settled(s, slot) && Separated(s, slot) && !(a.Load? && a.slot == slot)
    ensures Settled(Apply(s, a), slot)
  {
    var s' := Apply(s, a);
    forall tid | tid in s'.threads && s'.threads[tid].request.slot == slot
      ensures s'.threads[tid].request.key.Readable() && SettledPc(s', s'.threads[tid].request, s'.threads[tid].pc)
    {
      SettledThread(s, a, slot, tid);
    }
    forall p | 0 <= p < |s'.promises| && s'.promises[p].token.slot == slot && s'.promises[p].outcome.Some?
      ensures Agrees(s', slot, ViewOf(s'.promises[p].token), s'.promises[p].outcome.value)
    {
      SettledPromiseKept(s, a, slot, p);
    }
  }

  ghost predicate NoLoad(actions: seq<Action>, slot: Slot) {
    forall i :: 0 <= i < |actions| ==> !(actions[i].Load? && actions[i].slot == slot)
  }

  lemma {:induction false} SettledRun(states: seq<State>, actions: seq<Action>, slot: Slot)
    requires Run(states, actions) && Inv(states[0]) && Settled(states[0], slot) && NoLoad(actions, slot)
    requires Apart(states[|actions|], slot)
    ensures Settled(states[|actions|], slot)
  {
    if |actions| > 0 {
      var n := |actions| - 1;
      RunPrefix(states, actions);
      ApartBefore(states[n], actions[n], slot);
      SettledRun(states[..n + 1], actions[..n], slot);
      RunInv(states, actions);
      ApartSeparates(states[n], slot);
      SettledKept(states[n], actions[n], slot);
    }
  }

  // No thread has called for this kernel yet, and no promise was made for it.
  ghost predicate Untouched(s: State, slot: Slot) {
    && (forall tid :: tid in s.threads ==> s.threads[tid].request.slot != slot)
    && (forall p :: 0 <= p < |s.promises| ==> s.promises[p].token.slot != slot)
    && (forall i :: 0 <= i < |s.calls| ==> s.calls[i].token.slot != slot)
  }

  // This thread's find() or resolve() returned this pointer.
  ghost predicate Returned(s: State, slot: Slot, tid: Tid, found: Found) {
    && tid in s.threads && s.threads[tid].request.slot == slot
    && s.threads[tid].pc.Done? && s.threads[tid].pc.outcome == Value(Some(found))
  }

  /** Agreement. Over any run without a load of the kernel, under every interleaving of find() and
      resolve(): if no two requests share a token text by accident, all pointers ever returned for keys
      that normalise alike are the same entry, and the published table still answers it. */
  lemma AllAnswersAgree(states: seq<State>, actions: seq<Action>, slot: Slot, t: Tid, u: Tid, c: Found, d: Found)
    requires Run(states, actions) && Inv(states[0]) && Untouched(states[0], slot) && NoLoad(actions, slot)
    requires Apart(states[|actions|], slot)
    requires Returned(states[|actions|], slot, t, c) && Returned(states[|actions|], slot, u, d)
    ensures var s, k := states[|actions|], states[|actions|].threads[t].request.key;
            && slot in s.published && k.Readable() && s.threads[u].request.key.Readable()
            && Abs(s, slot, k) == Some(c)
            && (SameNormalKey(s.published[slot].schema, k, s.threads[u].request.key) ==> c == d)
  {
    SettledRun(states, actions, slot);
    var s := states[|actions|];
    assert SettledPc(s, s.threads[t].request, s.threads[t].pc);
    assert SettledPc(s, s.threads[u].request, s.threads[u].pc);
    var table, k, l := s.published[slot], s.threads[t].request.key, s.threads[u].request.key;
    if SameNormalKey(table.schema, k, l) {
      SameKeySameAnswer(table, OnlineOf(s.arenas, table), k, l);
    }
  }

  /** At most one answer is ever installed for a key: no storage repeats a key, over its own rows and
      the offline rows below it, in any state of any run. */
  lemma KeysInstalledOnce(states: seq<State>, actions: seq<Action>, i: nat, slot: Slot)
    requires Run(states, actions) && Initial(states[0]) && i < |states| && slot in states[i].published
    ensures var t := states[i].published[slot]; Unique(OnlineOf(states[i].arenas, t) + t.offline)
  {
    InitialInv(states[0]);
    RunInv(states, actions);
    assert StorageOk(states[i]);
    PublishedUnique(states[i], slot);
  }

  // ---- retention

  // The returned address leads to the returned configuration, and a table of the history owns it.
  ghost predicate Kept(s: State, found: Found) {
    match found.at
    case Node(arena, row) =>
      && arena < |s.arenas| && row < |s.arenas[arena].rows| && s.arenas[arena].rows[row].config == found.config
      && exists h :: 0 <= h < |s.history| && s.history[h].1.arena == Some(arena)
    case Row(base, row) =>
      && base < |s.history| && row < |s.history[base].1.offline|
          && s.history[base].1.offline[row].config == found.config
  }

  ghost predicate Published(s: State, slot: Slot, t: Table) {
    exists h :: 0 <= h < |s.history| && s.history[h] == (slot, t)
  }

  // The offline rows are those of the publication they are said to come from.
  ghost predicate Rooted(s: State, t: Table) {
    t.offline != [] ==> t.base < |s.history| && s.history[t.base].1.offline == t.offline
  }

  ghost predicate KeptPc(s: State, r: Request, pc: Pc) {
    && ((pc.Looked? || pc.Rechecking?) && pc.table.Some? ==> Published(s, r.slot, pc.table.value))
    && (pc.Linked? ==> Rooted(s, pc.next))
    && ((pc.Leaving? || pc.Fulfilling? || pc.Done?) && pc.outcome.Value? && pc.outcome.found.Some? ==>
          Kept(s, pc.outcome.found.value))
  }

  ghost predicate KeptOutcome(s: State, outcome: Option<Outcome>) {
    outcome.Some? && outcome.value.Value? && outcome.value.found.Some? ==> Kept(s, outcome.value.found.value)
  }

  // Every pointer anyone holds leads into the history.
  ghost predicate AllKept(s: State) {
    && (forall slot :: slot in s.published ==> Published(s, slot, s.published[slot]))
    && (forall h :: 0 <= h < |s.history| ==> Rooted(s, s.history[h].1))
    && (forall tid :: tid in s.threads ==> KeptPc(s, s.threads[tid].request, s.threads[tid].pc))
    && (forall p :: 0 <= p < |s.promises| ==> KeptOutcome(s, s.promises[p].outcome))
  }

  // One step's effect on the snapshots: none, or one more, published and remembered together.
  ghost predicate Remembers(s: State, s': State) {
    || (s'.published == s.published && s'.history == s.history)
    || (&& |s'.history| == |s.history| + 1 && s.history <= s'.history
        && s'.published == s.published[s'.history[|s.history|].0 := s'.history[|s.history|].1])
  }

  lemma StepRemembers(s: State, a: Action)
    requires Inv(s) && Enabled(s, a)
    ensures Remembers(s, Apply(s, a))
  {
    if LinksFresh(s, a) {
      FreshStep(s, a);
    } else if a.Publish? {
      PublishView(s, a);
    } else if !a.Load? {
      TablesElsewhere(s, a);
    }
  }

  lemma KeptGrows(s: State, s': State, found: Found)
    requires Kept(s, found) && Grows(s.arenas, s'.arenas) && s.history <= s'.history
    ensures Kept(s', found)
  {
    if found.at.Node? {
      var h :| 0 <= h < |s.history| && s.history[h].1.arena == Some(found.at.arena);
      assert s'.history[h] == s.history[h];
    } else {
      assert s'.history[found.at.base] == s.history[found.at.base];
    }
  }

  lemma RootedGrows(s: State, s': State, t: Table)
    requires Rooted(s, t) && s.history <= s'.history
    ensures Rooted(s', t)
  {
    if t.offline != [] {
      assert s'.history[t.base] == s.history[t.base];
    }
  }

  /** An entry handed out stays at its address, unchanged, in every later step. */
  lemma EntryStays(s: State, a: Action, found: Found)
    requires Inv(s) && Enabled(s, a) && Kept(s, found)
    ensures Kept(Apply(s, a), found)
  {
    StepGrows(s, a);
    StepRemembers(s, a);
    KeptGrows(s, Apply(s, a), found);
  }

  lemma KeptStays(s: State, a: Action, r: Request, pc: Pc)
    requires Inv(s) && Enabled(s, a) && KeptPc(s, r, pc)
    ensures KeptPc(Apply(s, a), r, pc)
  {
    StepRemembers(s, a);
    if (pc.Leaving? || pc.Fulfilling? || pc.Done?) && pc.outcome.Value? && pc.outcome.found.Some? {
      EntryStays(s, a, pc.outcome.found.value);
    } else if (pc.Looked? || pc.Rechecking?) && pc.table.Some? {
      var h :| 0 <= h < |s.history| && s.history[h] == (r.slot, pc.table.value);
      assert Apply(s, a).history[h] == (r.slot, pc.table.value);
    } else if pc.Linked? {
      RootedGrows(s, Apply(s, a), pc.next);
    }
  }

  // What a published table answers is kept.
  lemma AnswerKept(s: State, slot: Slot, t: Table, key: KeyView)
    requires Published(s, slot, t) && Rooted(s, t) && key.Readable() && Lookup(s.arenas, Some(t), key).Some?
    ensures Kept(s, Lookup(s.arenas, Some(t), key).value)
  {
    var h :| 0 <= h < |s.history| && s.history[h] == (slot, t);
    assert s.history[h].1.arena == t.arena;
  }

  lemma PublishedRooted(s: State, slot: Slot, t: Table)
    requires AllKept(s) && Published(s, slot, t)
    ensures Rooted(s, t)
  {
  }

  lemma KeptScan(s: State, slot: Slot, t: Option<Table>, key: KeyView)
    requires AllKept(s) && key.Readable() && (t.Some? ==> Published(s, slot, t.value))
    requires Lookup(s.arenas, t, key).Some?
    ensures Kept(s, Lookup(s.arenas, t, key).value)
  {
    PublishedRooted(s, slot, t.value);
    AnswerKept(s, slot, t.value, key);
  }

  lemma NextRooted(s: State, slot: Slot, schema: Schema)
    requires AllKept(s)
    ensures Rooted(s, NextTable(s, slot, schema))
  {
    if slot in s.published {
      PublishedRooted(s, slot, s.published[slot]);
    }
  }

  lemma KeptQuietActor(s: State, a: Action, r: Request, pc: Pc)
    requires !a.Load? && !a.Publish? && r.key.Readable() && Ready(s, a, r, pc) && AllKept(s) && KeptPc(s, r, pc)
    requires a.Await? ==> KeptOutcome(s, s.promises[pc.promise].outcome)
    ensures KeptPc(s, r, NewPc(s, a, r, pc))
  {
    if a.Scan? || a.ScanAgain? {
      if Lookup(s.arenas, pc.table, r.key).Some? {
        KeptScan(s, r.slot, pc.table, r.key);
      }
    } else if a.Link? {
      KeptLink(s, r, pc);
    }
  }

  lemma KeptLink(s: State, r: Request, pc: Pc)
    requires pc.Locked? && r.key.Readable() && AllKept(s)
    ensures KeptPc(s, r, LinkPc(s, r, pc))
  {
    if Abs(s, r.slot, r.key).Some? {
      KeptScan(s, r.slot, Current(s, r.slot), r.key);
    }
    NextRooted(s, r.slot, Schema(pc.resolved.columns, r.key.ndtypes));
  }

  lemma KeptPublisher(s: State, a: Action)
    requires Inv(s) && AllKept(s) && Enabled(s, a) && a.Publish?
    ensures KeptPc(Apply(s, a), s.threads[a.tid].request, Apply(s, a).threads[a.tid].pc)
  {
    var s', r, pc := Apply(s, a), s.threads[a.tid].request, s.threads[a.tid].pc;
    PublishView(s, a);
    PublisherOk(s, a.tid);
    assert KeptPc(s, r, pc);
    RootedGrows(s, s', pc.next);
    assert s'.history[|s.history|] == (r.slot, pc.next);
    assert SameNormalKey(pc.next.schema, r.key, r.key);
    AnswerKept(s', r.slot, pc.next, r.key);
  }

  lemma KeptThread(s: State, a: Action, tid: Tid)
    requires Inv(s) && AllKept(s) && Enabled(s, a) && tid in Apply(s, a).threads
    ensures KeptPc(Apply(s, a), Apply(s, a).threads[tid].request, Apply(s, a).threads[tid].pc)
  {
    if a.Load? || a.Spawn? || a.tid != tid {
      ThreadAfter(s, a, tid);
      if tid in s.threads {
        KeptStays(s, a, s.threads[tid].request, s.threads[tid].pc);
      }
    } else if a.Publish? {
      PublishView(s, a);
      KeptPublisher(s, a);
    } else {
      KeptActor(s, a);
    }
  }

  lemma KeptActor(s: State, a: Action)
    requires Inv(s) && AllKept(s) && Enabled(s, a) && !a.Load? && !a.Spawn? && !a.Publish?
    ensures KeptPc(Apply(s, a), Apply(s, a).threads[a.tid].request, Apply(s, a).threads[a.tid].pc)
  {
    var r, pc := s.threads[a.tid].request, s.threads[a.tid].pc;
    ApplyView(s, a);
    KeptQuietActor(s, a, r, pc);
    KeptStays(s, a, r, NewPc(s, a, r, pc));
  }

  lemma KeptPromise(s: State, a: Action, p: nat)
    requires Inv(s) && AllKept(s) && Enabled(s, a) && p < |Apply(s, a).promises|
    ensures KeptOutcome(Apply(s, a), Apply(s, a).promises[p].outcome)
  {
    if Apply(s, a).promises[p].outcome.Some? {
      PromiseStep(s, a, p);
      if Apply(s, a).promises[p] != s.promises[p] {
        assert KeptPc(s, s.threads[a.tid].request, s.threads[a.tid].pc);
      }
      var outcome := Apply(s, a).promises[p].outcome.value;
      if outcome.Value? && outcome.found.Some? {
        EntryStays(s, a, outcome.found.value);
      }
    }
  }

  lemma PublishedKept(s: State, s': State, slot: Slot)
    requires Remembers(s, s') && slot in s'.published
    requires slot in s.published ==> Published(s, slot, s.published[slot])
    ensures Published(s', slot, s'.published[slot])
  {
    if slot in s.published && s'.published[slot] == s.published[slot] {
      var h :| 0 <= h < |s.history| && s.history[h] == (slot, s.published[slot]);
      assert s'.history[h] == (slot, s'.published[slot]);
    } else {
      assert s'.history[|s.history|] == (slot, s'.published[slot]);
    }
  }

  // The newest publication is rooted: an insertion's in its predecessor's root, a load's in itself.
  lemma HistoryRooted(s: State, a: Action, h: nat)
    requires Inv(s) && AllKept(s) && Enabled(s, a) && h < |Apply(s, a).history|
    ensures Rooted(Apply(s, a), Apply(s, a).history[h].1)
  {
    StepRemembers(s, a);
    if h < |s.history| {
      RootedGrows(s, Apply(s, a), s.history[h].1);
    } else if a.Publish? {
      PublishView(s, a);
      assert KeptPc(s, s.threads[a.tid].request, s.threads[a.tid].pc);
      RootedGrows(s, Apply(s, a), s.threads[a.tid].pc.next);
    } else {
      NewestIsLoad(s, a);
    }
  }

  lemma NewestIsLoad(s: State, a: Action)
    requires Inv(s) && Enabled(s, a) && !a.Publish? && |Apply(s, a).history| > |s.history|
    ensures a.Load? && Apply(s, a).history == s.history + [(a.slot, Table(a.schema, a.rows, |s.history|, None))]
  {
    if LinksFresh(s, a) {
      FreshStep(s, a);
    } else {
      TablesElsewhere(s, a);
    }
  }

  lemma AllKeptStep(s: State, a: Action)
    requires Inv(s) && AllKept(s) && Enabled(s, a)
    ensures AllKept(Apply(s, a))
  {
    var s' := Apply(s, a);
    StepRemembers(s, a);
    forall slot | slot in s'.published
      ensures Published(s', slot, s'.published[slot])
    {
      PublishedKept(s, s', slot);
    }
    forall h | 0 <= h < |s'.history|
      ensures Rooted(s', s'.history[h].1)
    {
      HistoryRooted(s, a, h);
    }
    forall tid | tid in s'.threads
      ensures KeptPc(s', s'.threads[tid].request, s'.threads[tid].pc)
    {
      KeptThread(s, a, tid);
    }
    forall p | 0 <= p < |s'.promises|
      ensures KeptOutcome(s', s'.promises[p].outcome)
    {
      KeptPromise(s, a, p);
    }
  }

  lemma {:induction false} AllKeptRun(states: seq<State>, actions: seq<Action>)
    requires Run(states, actions) && Inv(states[0]) && AllKept(states[0])
    ensures AllKept(states[|actions|])
  {
    if |actions| > 0 {
      var n := |actions| - 1;
      RunPrefix(states, actions);
      AllKeptRun(states[..n + 1], actions[..n]);
      RunInv(states, actions);
      AllKeptStep(states[n], actions[n]);
    }
  }

  lemma {:induction false} EntryStaysRun(states: seq<State>, actions: seq<Action>, found: Found)
    requires Run(states, actions) && Inv(states[0]) && Kept(states[0], found)
    ensures Kept(states[|actions|], found)
  {
    if |actions| > 0 {
      var n := |actions| - 1;
      RunPrefix(states, actions);
      EntryStaysRun(states[..n + 1], actions[..n], found);
      RunInv(states, actions);
      EntryStays(states[n], actions[n], found);
    }
  }

  lemma RunSplit(states: seq<State>, actions: seq<Action>, i: nat)
    requires Run(states, actions) && i <= |actions|
    ensures Run(states[..i + 1], actions[..i]) && states[..i + 1][i] == states[i]
    ensures Run(states[i..], actions[i..]) && states[i..][|actions[i..]|] == states[|actions|]
  {
  }

  lemma InitialKept(states: seq<State>, actions: seq<Action>)
    requires Run(states, actions) && Initial(states[0])
    ensures Inv(states[|actions|]) && AllKept(states[|actions|])
  {
    InitialInv(states[0]);
    RunInv(states, actions);
    AllKeptRun(states, actions);
  }

  /** Retention. A pointer returned at any moment of a run leads to its configuration in a table of the
      history, then and for ever after, through every load, insertion and publication. */
  lemma ReturnedStaysKept(states: seq<State>, actions: seq<Action>, i: nat, slot: Slot, tid: Tid, found: Found)
    requires Run(states, actions) && Initial(states[0]) && i <= |actions| && Returned(states[i], slot, tid, found)
    ensures Kept(states[i], found) && Kept(states[|actions|], found)
  {
    RunSplit(states, actions, i);
    InitialKept(states[..i + 1], actions[..i]);
    assert KeptPc(states[i], states[i].threads[tid].request, states[i].threads[tid].pc);
    EntryStaysRun(states[i..], actions[i..], found);
  }
}
