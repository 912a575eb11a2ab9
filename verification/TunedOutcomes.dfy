/** Why find() and resolve() return what they return (src/tuned_config.cpp, lines 789-804 and 923-1000):
    every pointer, miss and exception of every run has its cause in the run. */
module TunedOutcomes {
  import opened KeySchema
  import opened TunedIndex
  import opened TunedTable
  import opened TunedProtocol
  import opened TunedAgreement
  import opened TunedRuns
  import opened TunedFlights

  // tid has called and has not returned.
  ghost predicate During(s: State, tid: Tid) {
    tid in s.threads && !s.threads[tid].pc.Done?
  }

  // ---- causes; n is how many steps the run has made

  // At some moment of tid's call the published table answered its key with f.
  ghost predicate Seen(states: seq<State>, n: nat, tid: Tid, r: Request, f: Option<Found>)
    requires n < |states| && r.key.Readable()
  {
    exists i :: 0 <= i <= n && During(states[i], tid) && Abs(states[i], r.slot, r.key) == f
  }

  // The call was looking for something to resolve, and missed.
  ghost predicate Cold(states: seq<State>, n: nat, tid: Tid, r: Request)
    requires n < |states| && r.key.Readable()
  {
    r.resolves && r.resolver && Seen(states, n, tid, r, None)
  }

  ghost predicate Did(actions: seq<Action>, n: nat, a: Action)
    requires n <= |actions|
  {
    exists i :: 0 <= i < n && actions[i] == a
  }

  // After missing, the call was not refused for being frozen.
  ghost predicate Admitted(states: seq<State>, actions: seq<Action>, n: nat, tid: Tid, r: Request)
    requires n < |states| && n <= |actions| && r.key.Readable()
  {
    Cold(states, n, tid, r) && Did(actions, n, Action.CheckFreeze(tid, false))
  }

  // The thread responsible for promise p made this step.
  ghost predicate OwnerDid(s: State, a: Action, p: nat, reply: Reply) {
    a.Hear? && a.reply == reply && ResponsibleFor(s, a.tid, p)
  }

  // An answer that must not be stored, and why.
  ghost predicate Unacceptable(s: State, r: Request, resolved: Resolved, why: InsertError) {
    match why
    case IncompatibleWidth => WrongWidth(r.key, resolved)
    case OtherNamespace => !WrongWidth(r.key, resolved) && WrongNamespace(r.kernelId, r.slot, resolved)
    case SchemaMismatch =>
      Acceptable(r, resolved) && r.slot in s.published
      && (s.published[r.slot].schema.columns != resolved.columns || s.published[r.slot].schema.ndtypes != r.key.ndtypes)
  }

  ghost predicate OwnerRefused(s: State, actions: seq<Action>, n: nat, p: nat, tid: Tid, resolved: Resolved,
                               why: InsertError)
    requires n <= |actions|
  {
    && ResponsibleFor(s, tid, p) && Did(actions, n, Action.Hear(tid, Answers(resolved)))
    && Unacceptable(s, s.threads[tid].request, resolved, why)
  }

  // The table answers the key of the thread that is responsible for p with f.
  ghost predicate OwnerSees(s: State, tid: Tid, p: nat, f: Found) {
    && ResponsibleFor(s, tid, p) && s.threads[tid].request.key.Readable()
    && Abs(s, s.threads[tid].request.slot, s.threads[tid].request.key) == Some(f)
  }

  // Why promise p carries this outcome.
  ghost predicate Caused(states: seq<State>, actions: seq<Action>, n: nat, p: nat, outcome: Outcome)
    requires n < |states| && n <= |actions|
  {
    match outcome
    case Value(Some(f)) => exists i, tid :: 0 <= i <= n && OwnerSees(states[i], tid, p, f)
    case Value(None) => exists i :: 0 <= i < n && OwnerDid(states[i], actions[i], p, Declines)
    case Raised(ResolverThrew) => exists i :: 0 <= i < n && OwnerDid(states[i], actions[i], p, Throws)
    case Raised(InsertFailed(why)) =>
      exists i, tid, resolved :: 0 <= i < n && OwnerRefused(states[i], actions, n, p, tid, resolved, why)
    case Raised(_) => false
  }

  // Why a call that waited for no promise returned this outcome.
  ghost predicate CausedDirectly(states: seq<State>, actions: seq<Action>, n: nat, tid: Tid, r: Request,
                                 outcome: Outcome)
    requires n < |states| && n <= |actions| && r.key.Readable()
  {
    match outcome
    case Value(f) => Seen(states, n, tid, r, f) && (f.None? ==> !r.resolves || !r.resolver)
    case Raised(InvalidArgument) => r.resolves && Malformed(r.key)
    case Raised(Frozen) => Cold(states, n, tid, r) && Did(actions, n, Action.CheckFreeze(tid, true))
    case Raised(KeySchemaMismatch) =>
      && Admitted(states, actions, n, tid, r)
      && exists i :: 0 <= i <= n && During(states[i], tid) && Misfits(states[i], r)
    case Raised(_) => false
  }

  // An argument that resolve() must not look at: too wide, a missing array, or a null dtype.
  predicate Malformed(key: KeyView)
    requires key.Readable()
  {
    || key.ndims > 32 || (key.ndims > 0 && key.dims == None) || (key.ndtypes > 0 && key.dtypes == None)
    || (key.dtypes.Some? && None in key.dtypes.value)
  }

  ghost predicate Misfits(s: State, r: Request) {
    r.slot in s.published
    && (|s.published[r.slot].schema.columns| != r.key.ndims || s.published[r.slot].schema.ndtypes != r.key.ndtypes)
  }

  // The call held promise p, as its owner or as a waiter; it was made for the call's own token text.
  ghost predicate Held(s: State, tid: Tid, p: nat) {
    && tid in s.threads && (s.threads[tid].pc.Waiting? || Responsible(s.threads[tid].pc))
    && s.threads[tid].pc.promise == p < |s.promises| && s.promises[p].token.text == s.threads[tid].pc.token.text
  }

  ghost predicate HeldOnce(states: seq<State>, n: nat, tid: Tid, p: nat)
    requires n < |states|
  {
    exists i :: 0 <= i <= n && Held(states[i], tid, p)
  }

  // ---- the trail that leads to every position

  // The handle is the snapshot of some moment since which the call has been going on.
  ghost predicate Picked(states: seq<State>, n: nat, tid: Tid, r: Request, table: Option<Table>)
    requires n < |states|
  {
    exists j :: 0 <= j <= n && table == Current(states[j], r.slot)
                && forall k :: j <= k <= n ==> During(states[k], tid)
  }

  ghost predicate PickedFor(states: seq<State>, n: nat, tid: Tid, r: Request, table: Option<Table>, p: nat)
    requires n < |states|
  {
    exists j :: 0 <= j <= n && table == Current(states[j], r.slot)
                && forall k :: j <= k <= n ==> ResponsibleFor(states[k], tid, p) && states[k].threads[tid].request == r
  }

  // What the resolver answered may be stored: its width and its namespace are the request's.
  predicate Acceptable(r: Request, resolved: Resolved) {
    !WrongWidth(r.key, resolved) && !WrongNamespace(r.kernelId, r.slot, resolved)
  }

  ghost predicate FromAnswer(actions: seq<Action>, n: nat, tid: Tid, r: Request, next: Table, found: Found,
                             resolved: Resolved)
    requires n <= |actions|
  {
    && Did(actions, n, Action.Hear(tid, Answers(resolved))) && Acceptable(r, resolved)
    && next.schema == Schema(resolved.columns, r.key.ndtypes) && found.config == resolved.config
  }

  // Past the freeze check.
  ghost predicate LateTrail(states: seq<State>, actions: seq<Action>, n: nat, tid: Tid, r: Request, pc: Pc)
    requires n < |states| && n <= |actions|
  {
    match pc
    case Rechecking(_, p, table) => PickedFor(states, n, tid, r, table, p)
    case Answered(_, _, _, resolved) => Did(actions, n, Action.Hear(tid, Answers(resolved)))
    case Locked(_, _, _, resolved) => Did(actions, n, Action.Hear(tid, Answers(resolved))) && Acceptable(r, resolved)
    case Linked(_, _, _, next, found) => exists resolved :: FromAnswer(actions, n, tid, r, next, found, resolved)
    case Leaving(_, p, outcome) => Caused(states, actions, n, p, outcome)
    case Fulfilling(_, p, outcome) => Caused(states, actions, n, p, outcome)
    case Done(outcome, Some(p)) => HeldOnce(states, n, tid, p) && Caused(states, actions, n, p, outcome)
    case _ => true
  }

  ghost predicate Trail(states: seq<State>, actions: seq<Action>, n: nat, tid: Tid, r: Request, pc: Pc)
    requires n < |states| && n <= |actions| && r.key.Readable()
  {
    match pc
    case Start => true
    case Looked(table) => Picked(states, n, tid, r, table)
    case Missed => Cold(states, n, tid, r)
    case Done(outcome, None) => CausedDirectly(states, actions, n, tid, r, outcome)
    case _ => Admitted(states, actions, n, tid, r) && LateTrail(states, actions, n, tid, r, pc)
  }

  ghost predicate ThreadOk(states: seq<State>, actions: seq<Action>, n: nat, tid: Tid)
    requires n < |states| && n <= |actions| && tid in states[n].threads
  {
    && states[n].threads[tid].request.key.Readable()
    && Trail(states, actions, n, tid, states[n].threads[tid].request, states[n].threads[tid].pc)
  }

  ghost predicate PromiseOk(states: seq<State>, actions: seq<Action>, n: nat, p: nat)
    requires n < |states| && n <= |actions| && p < |states[n].promises|
  {
    states[n].promises[p].outcome.Some? ==> Caused(states, actions, n, p, states[n].promises[p].outcome.value)
  }

  ghost predicate Trails(states: seq<State>, actions: seq<Action>, n: nat)
    requires n < |states| && n <= |actions|
  {
    && (forall tid :: tid in states[n].threads ==> ThreadOk(states, actions, n, tid))
    && (forall p :: 0 <= p < |states[n].promises| ==> PromiseOk(states, actions, n, p))
  }

  // ---- causes stay causes

  lemma DidStays(actions: seq<Action>, n: nat, a: Action)
    requires n < |actions| && Did(actions, n, a)
    ensures Did(actions, n + 1, a)
  {
  }

  lemma SeenStays(states: seq<State>, n: nat, tid: Tid, r: Request, f: Option<Found>)
    requires n + 1 < |states| && r.key.Readable() && Seen(states, n, tid, r, f)
    ensures Seen(states, n + 1, tid, r, f)
  {
  }

  lemma AdmittedStays(states: seq<State>, actions: seq<Action>, n: nat, tid: Tid, r: Request)
    requires n + 1 < |states| && n < |actions| && r.key.Readable() && Admitted(states, actions, n, tid, r)
    ensures Admitted(states, actions, n + 1, tid, r)
  {
    SeenStays(states, n, tid, r, None);
    DidStays(actions, n, Action.CheckFreeze(tid, false));
  }

  lemma CausedStays(states: seq<State>, actions: seq<Action>, n: nat, p: nat, outcome: Outcome)
    requires n + 1 < |states| && n < |actions| && Caused(states, actions, n, p, outcome)
    ensures Caused(states, actions, n + 1, p, outcome)
  {
    match outcome
    case Raised(InsertFailed(why)) =>
      var i, tid, resolved :| 0 <= i < n && OwnerRefused(states[i], actions, n, p, tid, resolved, why);
      DidStays(actions, n, Action.Hear(tid, Answers(resolved)));
      assert OwnerRefused(states[i], actions, n + 1, p, tid, resolved, why);
    case _ =>
  }

  lemma CausedDirectlyStays(states: seq<State>, actions: seq<Action>, n: nat, tid: Tid, r: Request, outcome: Outcome)
    requires n + 1 < |states| && n < |actions| && r.key.Readable()
    requires CausedDirectly(states, actions, n, tid, r, outcome)
    ensures CausedDirectly(states, actions, n + 1, tid, r, outcome)
  {
    match outcome
    case Value(f) => SeenStays(states, n, tid, r, f);
    case Raised(Frozen) =>
      SeenStays(states, n, tid, r, None);
      DidStays(actions, n, Action.CheckFreeze(tid, true));
    case Raised(KeySchemaMismatch) => AdmittedStays(states, actions, n, tid, r);
    case Raised(_) =>
  }

  // A thread that another one's step leaves where it was keeps its trail.
  lemma LateTrailStays(states: seq<State>, actions: seq<Action>, n: nat, tid: Tid, r: Request, pc: Pc)
    requires n + 1 < |states| && n < |actions| && LateTrail(states, actions, n, tid, r, pc)
    requires tid in states[n + 1].threads && states[n + 1].threads[tid] == Thread(r, pc)
    ensures LateTrail(states, actions, n + 1, tid, r, pc)
  {
    match pc
    case Answered(_, _, _, resolved) => DidStays(actions, n, Action.Hear(tid, Answers(resolved)));
    case Locked(_, _, _, resolved) => DidStays(actions, n, Action.Hear(tid, Answers(resolved)));
    case Linked(_, _, _, next, found) =>
      var resolved :| FromAnswer(actions, n, tid, r, next, found, resolved);
      DidStays(actions, n, Action.Hear(tid, Answers(resolved)));
      assert FromAnswer(actions, n + 1, tid, r, next, found, resolved);
    case Leaving(_, p, outcome) => CausedStays(states, actions, n, p, outcome);
    case Fulfilling(_, p, outcome) => CausedStays(states, actions, n, p, outcome);
    case Done(outcome, Some(p)) => CausedStays(states, actions, n, p, outcome);
    case _ =>
  }

  lemma TrailStays(states: seq<State>, actions: seq<Action>, n: nat, tid: Tid, r: Request, pc: Pc)
    requires n + 1 < |states| && n < |actions| && r.key.Readable() && Trail(states, actions, n, tid, r, pc)
    requires tid in states[n + 1].threads && states[n + 1].threads[tid] == Thread(r, pc)
    ensures Trail(states, actions, n + 1, tid, r, pc)
  {
    match pc
    case Start =>
    case Looked(_) =>
    case Missed => SeenStays(states, n, tid, r, None);
    case Done(outcome, None) => CausedDirectlyStays(states, actions, n, tid, r, outcome);
    case _ =>
      AdmittedStays(states, actions, n, tid, r);
      LateTrailStays(states, actions, n, tid, r, pc);
  }

  // ---- a thread's own steps

  // The thread's next position, as its step from state n makes it.
  ghost predicate Moves(states: seq<State>, actions: seq<Action>, n: nat, r: Request, pc: Pc, pc': Pc) {
    && n + 1 < |states| && n < |actions| && Enabled(states[n], actions[n])
    && !actions[n].Load? && !actions[n].Spawn?
    && states[n].threads[actions[n].tid] == Thread(r, pc) && r.key.Readable() && Ready(states[n], actions[n], r, pc)
    && pc' == NewPc(states[n], actions[n], r, pc)
    && actions[n].tid in states[n + 1].threads && states[n + 1].threads[actions[n].tid] == Thread(r, pc')
  }

  lemma InvAt(states: seq<State>, actions: seq<Action>, n: nat)
    requires Run(states, actions) && Inv(states[0]) && n < |states|
    ensures Inv(states[n])
  {
    RunInv(states, actions);
  }

  lemma RunPart(states: seq<State>, actions: seq<Action>, j: nat, n: nat) returns (part: seq<State>, steps: seq<Action>)
    requires Run(states, actions) && j <= n < |states|
    ensures Run(part, steps) && |part| == n - j + 1 && part[0] == states[j] && part[n - j] == states[n]
    ensures forall k :: 0 <= k < |part| ==> part[k] == states[j + k]
  {
    part, steps := states[j..n + 1], actions[j..n];
    forall k | 0 <= k < |steps|
      ensures Enabled(part[k], steps[k]) && part[k + 1] == Apply(part[k], steps[k])
    {
      assert part[k] == states[j + k] && part[k + 1] == states[j + k + 1] && steps[k] == actions[j + k];
    }
  }

  // What a look-up through the snapshot of `first`, decided in `last`, finds is the answer of `now`.
  ghost predicate ReadAt(first: State, last: State, now: State, slot: Slot, key: KeyView)
    requires key.Readable()
  {
    Lookup(last.arenas, Current(first, slot), key) == Abs(now, slot, key)
  }

  lemma ReadInPart(part: seq<State>, steps: seq<Action>, slot: Slot, key: KeyView) returns (k: nat)
    requires Run(part, steps) && Inv(part[0]) && key.Readable()
    ensures k < |part| && ReadAt(part[0], part[|part| - 1], part[k], slot, key)
  {
    ReadLinearises(part, steps, slot, key);
    k :| 0 <= k < |part| && Abs(part[k], slot, key) == Lookup(part[|steps|].arenas, Current(part[0], slot), key);
  }

  lemma ReadBetween(states: seq<State>, actions: seq<Action>, j: nat, n: nat, slot: Slot, key: KeyView) returns (i: nat)
    requires Run(states, actions) && Inv(states[0]) && j <= n < |states| && key.Readable()
    ensures j <= i <= n && ReadAt(states[j], states[n], states[i], slot, key)
  {
    InvAt(states, actions, j);
    var part, steps := RunPart(states, actions, j, n);
    var k := ReadInPart(part, steps, slot, key);
    i := j + k;
    assert states[i] == part[k] && states[n] == part[|part| - 1] && states[j] == part[0];
  }

  lemma ScanTrail(states: seq<State>, actions: seq<Action>, n: nat, r: Request, pc: Pc, pc': Pc)
    requires Run(states, actions) && Inv(states[0]) && Moves(states, actions, n, r, pc, pc')
    requires actions[n].Scan? && Trail(states, actions, n, actions[n].tid, r, pc)
    ensures Trail(states, actions, n + 1, actions[n].tid, r, pc')
  {
    var tid, hit := actions[n].tid, Lookup(states[n].arenas, pc.table, r.key);
    var j :| 0 <= j <= n && pc.table == Current(states[j], r.slot)
             && forall k :: j <= k <= n ==> During(states[k], tid);
    var i := ReadBetween(states, actions, j, n, r.slot, r.key);
    assert During(states[i], tid) && Abs(states[i], r.slot, r.key) == hit;
    assert Seen(states, n + 1, tid, r, hit);
  }

  lemma PickTrail(states: seq<State>, actions: seq<Action>, n: nat, r: Request, pc: Pc, pc': Pc)
    requires Moves(states, actions, n, r, pc, pc') && actions[n].ReadSnapshot?
    requires states[n + 1].published == states[n].published
    ensures Trail(states, actions, n + 1, actions[n].tid, r, pc')
  {
    assert Current(states[n + 1], r.slot) == pc'.table;
  }

  lemma FreezeTrail(states: seq<State>, actions: seq<Action>, n: nat, r: Request, pc: Pc, pc': Pc)
    requires Moves(states, actions, n, r, pc, pc') && actions[n].CheckFreeze?
    requires Trail(states, actions, n, actions[n].tid, r, pc)
    ensures Trail(states, actions, n + 1, actions[n].tid, r, pc')
  {
    SeenStays(states, n, actions[n].tid, r, None);
    assert Did(actions, n + 1, actions[n]);
  }

  lemma TokenTrail(states: seq<State>, actions: seq<Action>, n: nat, r: Request, pc: Pc, pc': Pc)
    requires Moves(states, actions, n, r, pc, pc') && actions[n].MakeToken?
    requires Trail(states, actions, n, actions[n].tid, r, pc)
    ensures Trail(states, actions, n + 1, actions[n].tid, r, pc')
  {
    AdmittedStays(states, actions, n, actions[n].tid, r);
    if pc'.Done? {
      assert During(states[n], actions[n].tid) && Misfits(states[n], r);
    }
  }

  // Past the freeze check, and not there because of anything before it.
  predicate IsLate(pc: Pc) {
    !pc.Start? && !pc.Looked? && !pc.Missed? && (pc.Done? ==> pc.origin.Some?)
  }

  lemma LateStep(s: State, a: Action, r: Request, pc: Pc)
    requires r.key.Readable() && Ready(s, a, r, pc)
    requires a.Enter? || a.Await? || a.ReadAgain? || Late(a) || a.Erase? || a.Fulfil?
    ensures IsLate(pc) && IsLate(NewPc(s, a, r, pc))
  {
  }

  lemma AwaitTrail(states: seq<State>, actions: seq<Action>, n: nat, r: Request, pc: Pc, pc': Pc)
    requires Moves(states, actions, n, r, pc, pc') && actions[n].Await? && Trails(states, actions, n)
    requires Placed(states[n], pc)
    ensures LateTrail(states, actions, n + 1, actions[n].tid, r, pc')
  {
    assert PromiseOk(states, actions, n, pc.promise);
    CausedStays(states, actions, n, pc.promise, pc'.outcome);
    assert Held(states[n], actions[n].tid, pc.promise);
  }

  lemma PickAgainTrail(states: seq<State>, actions: seq<Action>, n: nat, r: Request, pc: Pc, pc': Pc)
    requires Moves(states, actions, n, r, pc, pc') && actions[n].ReadAgain?
    requires states[n + 1].published == states[n].published
    ensures LateTrail(states, actions, n + 1, actions[n].tid, r, pc')
  {
    assert Current(states[n + 1], r.slot) == pc'.table;
    assert PickedFor(states, n + 1, actions[n].tid, r, pc'.table, pc'.promise);
  }

  // What the owner's second look-up finds, it saw.
  lemma OwnerSaw(states: seq<State>, actions: seq<Action>, n: nat, tid: Tid, r: Request, table: Option<Table>, p: nat)
    requires Run(states, actions) && Inv(states[0]) && n < |states| && r.key.Readable()
    requires PickedFor(states, n, tid, r, table, p) && Lookup(states[n].arenas, table, r.key).Some?
    ensures Caused(states, actions, n, p, Value(Lookup(states[n].arenas, table, r.key)))
  {
    var j :| 0 <= j <= n && table == Current(states[j], r.slot)
             && forall k :: j <= k <= n ==> ResponsibleFor(states[k], tid, p) && states[k].threads[tid].request == r;
    var i := ReadBetween(states, actions, j, n, r.slot, r.key);
    assert OwnerSees(states[i], tid, p, Lookup(states[n].arenas, table, r.key).value);
  }

  lemma ScanAgainTrail(states: seq<State>, actions: seq<Action>, n: nat, r: Request, pc: Pc, pc': Pc)
    requires Moves(states, actions, n, r, pc, pc') && actions[n].ScanAgain?
    requires Lookup(states[n].arenas, pc.table, r.key).Some? ==>
               Caused(states, actions, n, pc.promise, Value(Lookup(states[n].arenas, pc.table, r.key)))
    ensures LateTrail(states, actions, n + 1, actions[n].tid, r, pc')
  {
    if Lookup(states[n].arenas, pc.table, r.key).Some? {
      CausedStays(states, actions, n, pc.promise, pc'.outcome);
    }
  }

  lemma HearTrail(states: seq<State>, actions: seq<Action>, n: nat, r: Request, pc: Pc, pc': Pc)
    requires Moves(states, actions, n, r, pc, pc') && actions[n].Hear?
    ensures LateTrail(states, actions, n + 1, actions[n].tid, r, pc')
  {
    assert Did(actions, n + 1, actions[n]);
    assert OwnerDid(states[n], actions[n], pc.promise, actions[n].reply);
  }

  lemma LockTrail(states: seq<State>, actions: seq<Action>, n: nat, r: Request, pc: Pc, pc': Pc)
    requires Moves(states, actions, n, r, pc, pc') && actions[n].Lock?
    requires LateTrail(states, actions, n, actions[n].tid, r, pc)
    ensures LateTrail(states, actions, n + 1, actions[n].tid, r, pc')
  {
    DidStays(actions, n, Action.Hear(actions[n].tid, Answers(pc.resolved)));
    if pc'.Leaving? {
      assert OwnerRefused(states[n], actions, n + 1, pc.promise, actions[n].tid, pc.resolved, pc'.outcome.error.why);
    }
  }

  lemma LinkTrail(states: seq<State>, actions: seq<Action>, n: nat, r: Request, pc: Pc, pc': Pc)
    requires Moves(states, actions, n, r, pc, pc') && actions[n].Link?
    requires LateTrail(states, actions, n, actions[n].tid, r, pc)
    ensures LateTrail(states, actions, n + 1, actions[n].tid, r, pc')
  {
    var tid, p := actions[n].tid, pc.promise;
    DidStays(actions, n, Action.Hear(tid, Answers(pc.resolved)));
    match Judge(states[n], r, pc.resolved)
    case Conflict =>
      assert OwnerRefused(states[n], actions, n + 1, p, tid, pc.resolved, SchemaMismatch);
    case Already(found) =>
      assert OwnerSees(states[n], tid, p, found);
    case Fresh =>
      assert FromAnswer(actions, n + 1, tid, r, pc'.next, pc'.found, pc.resolved);
  }

  // What was published answers the key from then on.
  lemma AddedIsSeen(s: State, s': State, tid: Tid, r: Request, pc: Pc)
    requires pc.Linked? && r.key.Readable() && r.key.Fits(pc.next.schema) && AddsOne(s, r, pc.next, pc.found)
    requires s'.arenas == s.arenas && s'.published == s.published[r.slot := pc.next]
    requires tid in s'.threads && s'.threads[tid].request == r && ResponsibleFor(s', tid, pc.promise)
    ensures OwnerSees(s', tid, pc.promise, pc.found)
  {
    assert SameNormalKey(pc.next.schema, r.key, r.key);
  }

  lemma PublishedIsSeen(s: State, a: Action, s': State, r: Request, pc: Pc)
    requires Inv(s) && Enabled(s, a) && a.Publish? && pc.Linked? && s.threads[a.tid] == Thread(r, pc)
    requires s' == Apply(s, a)
    ensures OwnerSees(s', a.tid, pc.promise, pc.found)
  {
    PublishView(s, a);
    PublisherOk(s, a.tid);
    assert ResponsibleFor(s', a.tid, pc.promise);
    AddedIsSeen(s, s', a.tid, r, pc);
  }

  lemma PublishTrail(states: seq<State>, actions: seq<Action>, n: nat, r: Request, pc: Pc, pc': Pc)
    requires Moves(states, actions, n, r, pc, pc') && actions[n].Publish?
    requires OwnerSees(states[n + 1], actions[n].tid, pc.promise, pc.found)
    ensures LateTrail(states, actions, n + 1, actions[n].tid, r, pc')
  {
  }

  lemma EndTrail(states: seq<State>, actions: seq<Action>, n: nat, r: Request, pc: Pc, pc': Pc)
    requires Moves(states, actions, n, r, pc, pc') && (actions[n].Erase? || actions[n].Fulfil?)
    requires Placed(states[n], pc) && LateTrail(states, actions, n, actions[n].tid, r, pc)
    ensures LateTrail(states, actions, n + 1, actions[n].tid, r, pc')
  {
    CausedStays(states, actions, n, pc.promise, pc.outcome);
    assert Held(states[n], actions[n].tid, pc.promise);
  }

  // ---- every position of every run has its trail

  lemma StepMoves(states: seq<State>, actions: seq<Action>, n: nat)
    requires Run(states, actions) && n < |actions| && !actions[n].Load? && !actions[n].Spawn?
    ensures actions[n].tid in states[n].threads && actions[n].tid in states[n + 1].threads
    ensures var (was, now) := (states[n].threads[actions[n].tid], states[n + 1].threads[actions[n].tid]);
            now.request == was.request && Moves(states, actions, n, was.request, was.pc, now.pc)
  {
    ApplyView(states[n], actions[n]);
  }

  lemma ScanAgainActor(states: seq<State>, actions: seq<Action>, n: nat, r: Request, pc: Pc, pc': Pc)
    requires Run(states, actions) && Inv(states[0]) && Moves(states, actions, n, r, pc, pc')
    requires actions[n].ScanAgain? && LateTrail(states, actions, n, actions[n].tid, r, pc)
    ensures LateTrail(states, actions, n + 1, actions[n].tid, r, pc')
  {
    if Lookup(states[n].arenas, pc.table, r.key).Some? {
      OwnerSaw(states, actions, n, actions[n].tid, r, pc.table, pc.promise);
    }
    ScanAgainTrail(states, actions, n, r, pc, pc');
  }

  lemma PublishActor(states: seq<State>, actions: seq<Action>, n: nat, r: Request, pc: Pc, pc': Pc)
    requires Run(states, actions) && Moves(states, actions, n, r, pc, pc') && Inv(states[n]) && actions[n].Publish?
    ensures LateTrail(states, actions, n + 1, actions[n].tid, r, pc')
  {
    PublishedIsSeen(states[n], actions[n], states[n + 1], r, pc);
    PublishTrail(states, actions, n, r, pc, pc');
  }

  lemma LateActor(states: seq<State>, actions: seq<Action>, n: nat, r: Request, pc: Pc, pc': Pc)
    requires Run(states, actions) && Inv(states[0]) && Moves(states, actions, n, r, pc, pc') && Inv(states[n])
    requires Late(actions[n]) && LateTrail(states, actions, n, actions[n].tid, r, pc)
    ensures LateTrail(states, actions, n + 1, actions[n].tid, r, pc')
  {
    if actions[n].ScanAgain? {
      ScanAgainActor(states, actions, n, r, pc, pc');
    } else if actions[n].Hear? {
      HearTrail(states, actions, n, r, pc, pc');
    } else if actions[n].Lock? {
      LockTrail(states, actions, n, r, pc, pc');
    } else if actions[n].Link? {
      LinkTrail(states, actions, n, r, pc, pc');
    } else {
      PublishActor(states, actions, n, r, pc, pc');
    }
  }

  lemma PastActor(states: seq<State>, actions: seq<Action>, n: nat, r: Request, pc: Pc, pc': Pc)
    requires Run(states, actions) && Inv(states[0]) && Moves(states, actions, n, r, pc, pc') && Inv(states[n])
    requires Trails(states, actions, n)
    requires actions[n].Enter? || actions[n].Await? || actions[n].ReadAgain? || Late(actions[n])
             || actions[n].Erase? || actions[n].Fulfil?
    ensures Trail(states, actions, n + 1, actions[n].tid, r, pc')
  {
    LateStep(states[n], actions[n], r, pc);
    assert ThreadOk(states, actions, n, actions[n].tid);
    AdmittedStays(states, actions, n, actions[n].tid, r);
    assert Placed(states[n], pc);
    if actions[n].Await? {
      AwaitTrail(states, actions, n, r, pc, pc');
    } else if actions[n].ReadAgain? {
      TablesElsewhere(states[n], actions[n]);
      PickAgainTrail(states, actions, n, r, pc, pc');
    } else if actions[n].Erase? || actions[n].Fulfil? {
      EndTrail(states, actions, n, r, pc, pc');
    } else if Late(actions[n]) {
      LateActor(states, actions, n, r, pc, pc');
    }
  }

  lemma EarlyActor(states: seq<State>, actions: seq<Action>, n: nat, r: Request, pc: Pc, pc': Pc)
    requires Run(states, actions) && Inv(states[0]) && Moves(states, actions, n, r, pc, pc')
    requires actions[n].ReadSnapshot? || actions[n].Scan? || actions[n].CheckFreeze? || actions[n].MakeToken?
    requires Trail(states, actions, n, actions[n].tid, r, pc)
    ensures Trail(states, actions, n + 1, actions[n].tid, r, pc')
  {
    if actions[n].ReadSnapshot? {
      TablesElsewhere(states[n], actions[n]);
      PickTrail(states, actions, n, r, pc, pc');
    } else if actions[n].Scan? {
      ScanTrail(states, actions, n, r, pc, pc');
    } else if actions[n].CheckFreeze? {
      FreezeTrail(states, actions, n, r, pc, pc');
    } else {
      TokenTrail(states, actions, n, r, pc, pc');
    }
  }

  lemma ActorTrail(states: seq<State>, actions: seq<Action>, n: nat, r: Request, pc: Pc, pc': Pc)
    requires Run(states, actions) && Inv(states[0]) && Moves(states, actions, n, r, pc, pc') && Inv(states[n])
    requires Trails(states, actions, n)
    ensures Trail(states, actions, n + 1, actions[n].tid, r, pc')
  {
    var a := actions[n];
    if a.ReadSnapshot? || a.Scan? || a.CheckFreeze? || a.MakeToken? {
      assert ThreadOk(states, actions, n, a.tid);
      EarlyActor(states, actions, n, r, pc, pc');
    } else {
      PastActor(states, actions, n, r, pc, pc');
    }
  }

  lemma ThreadTrail(states: seq<State>, actions: seq<Action>, n: nat, tid: Tid)
    requires Run(states, actions) && Inv(states[0]) && n < |actions| && Inv(states[n]) && Trails(states, actions, n)
    requires tid in states[n + 1].threads
    ensures ThreadOk(states, actions, n + 1, tid)
  {
    var a := actions[n];
    if !a.Load? && !a.Spawn? && a.tid == tid {
      StepMoves(states, actions, n);
      var th := states[n].threads[tid];
      ActorTrail(states, actions, n, th.request, th.pc, states[n + 1].threads[tid].pc);
    } else {
      ThreadAfter(states[n], a, tid);
      if tid in states[n].threads {
        var th := states[n].threads[tid];
        assert ThreadOk(states, actions, n, tid);
        TrailStays(states, actions, n, tid, th.request, th.pc);
      }
    }
  }

  lemma FulfillerTrail(states: seq<State>, actions: seq<Action>, n: nat, tid: Tid)
    requires n < |states| && n <= |actions| && Trails(states, actions, n)
    requires tid in states[n].threads && states[n].threads[tid].pc.Fulfilling?
    ensures Caused(states, actions, n, states[n].threads[tid].pc.promise, states[n].threads[tid].pc.outcome)
  {
    assert ThreadOk(states, actions, n, tid);
  }

  lemma PromiseTrail(states: seq<State>, actions: seq<Action>, n: nat, p: nat)
    requires Run(states, actions) && n < |actions| && Inv(states[n]) && Trails(states, actions, n)
    requires p < |states[n + 1].promises|
    ensures PromiseOk(states, actions, n + 1, p)
  {
    var now := states[n + 1].promises[p];
    if now.outcome.Some? {
      PromiseStep(states[n], actions[n], p);
      if now != states[n].promises[p] {
        FulfillerTrail(states, actions, n, actions[n].tid);
      } else {
        assert PromiseOk(states, actions, n, p);
      }
      CausedStays(states, actions, n, p, now.outcome.value);
    }
  }

  lemma TrailsStep(states: seq<State>, actions: seq<Action>, n: nat)
    requires Run(states, actions) && Inv(states[0]) && n < |actions| && Inv(states[n]) && Trails(states, actions, n)
    ensures Trails(states, actions, n + 1)
  {
    var m := n + 1;
    forall tid | tid in states[m].threads
      ensures ThreadOk(states, actions, m, tid)
    {
      ThreadTrail(states, actions, n, tid);
    }
    forall p | 0 <= p < |states[m].promises|
      ensures PromiseOk(states, actions, m, p)
    {
      PromiseTrail(states, actions, n, p);
    }
  }

  lemma TrailsStart(states: seq<State>, actions: seq<Action>)
    requires |states| > 0 && Initial(states[0])
    ensures Trails(states, actions, 0)
  {
  }

  lemma TrailsNext(states: seq<State>, actions: seq<Action>, n: nat)
    requires Run(states, actions) && Initial(states[0]) && n < |actions| && Trails(states, actions, n)
    ensures Trails(states, actions, n + 1)
  {
    InitialInv(states[0]);
    InvAt(states, actions, n);
    TrailsStep(states, actions, n);
  }

  lemma {:induction false} TrailsRun(states: seq<State>, actions: seq<Action>, n: nat)
    requires Run(states, actions) && Initial(states[0]) && n < |states|
    ensures Trails(states, actions, n)
  {
    if n == 0 {
      TrailsStart(states, actions);
    } else {
      TrailsRun(states, actions, n - 1);
      TrailsNext(states, actions, n - 1);
    }
  }

  // ---- the theorems

  /** What find() returns, and what a resolve() returns that never waited: the pointer or the miss that the
      published table answered its key with at some moment of the call. A miss is the end only without a
      resolver to ask. An exception comes from an invalid argument; from the freeze check, of a call that
      missed; or from a bound schema that the key does not fit, again after missing, and unfrozen. */
  lemma DirectOutcome(states: seq<State>, actions: seq<Action>, n: nat, tid: Tid)
    requires Run(states, actions) && Initial(states[0]) && n < |states| && tid in states[n].threads
    requires states[n].threads[tid].pc.Done? && states[n].threads[tid].pc.origin.None?
    ensures var r := states[n].threads[tid].request;
            r.key.Readable() && CausedDirectly(states, actions, n, tid, r, states[n].threads[tid].pc.outcome)
  {
    TrailsRun(states, actions, n);
    assert ThreadOk(states, actions, n, tid);
  }

  /** What a call returns through a promise, its own or another's: a pointer that the owner's table answered the
      owner's key with while it was responsible; a miss only if the owner's resolver declined; an exception
      that the resolver threw, or the refusal of an answer that must not be stored. Such a call missed first
      and was not frozen, and the promise was made for its own token text. */
  lemma SharedOutcome(states: seq<State>, actions: seq<Action>, n: nat, tid: Tid)
    requires Run(states, actions) && Initial(states[0]) && n < |states| && tid in states[n].threads
    requires states[n].threads[tid].pc.Done? && states[n].threads[tid].pc.origin.Some?
    ensures var (r, pc) := (states[n].threads[tid].request, states[n].threads[tid].pc);
            && r.key.Readable() && Admitted(states, actions, n, tid, r) && HeldOnce(states, n, tid, pc.origin.value)
            && Caused(states, actions, n, pc.origin.value, pc.outcome)
  {
    TrailsRun(states, actions, n);
    assert ThreadOk(states, actions, n, tid);
  }

  /** Whoever is about to ask, wait, or store has missed at some moment of its call, has a resolver, and was not
      frozen when it checked. */
  lemma OnlyAdmittedResolve(states: seq<State>, actions: seq<Action>, n: nat, tid: Tid)
    requires Run(states, actions) && Initial(states[0]) && n < |states| && tid in states[n].threads
    requires HasToken(states[n].threads[tid].pc)
    ensures var r := states[n].threads[tid].request; r.key.Readable() && Admitted(states, actions, n, tid, r)
  {
    TrailsRun(states, actions, n);
    assert ThreadOk(states, actions, n, tid);
  }

  // Since its snapshot, which answers its key, the call has at most scanned.
  ghost predicate WarmAt(s: State, tid: Tid, r: Request, table: Option<Table>, found: Found) {
    && tid in s.threads && s.threads[tid].request == r && r.key.Readable()
    && (|| (s.threads[tid].pc == Looked(table) && Lookup(s.arenas, table, r.key) == Some(found))
        || s.threads[tid].pc == Done(Value(Some(found)), None))
  }

  lemma WarmStart(s: State, tid: Tid, r: Request, found: Found)
    requires Enabled(s, Action.ReadSnapshot(tid)) && s.threads[tid].request == r && r.key.Readable()
    requires Abs(s, r.slot, r.key) == Some(found)
    ensures WarmAt(Apply(s, Action.ReadSnapshot(tid)), tid, r, Current(s, r.slot), found)
  {
    ApplyView(s, Action.ReadSnapshot(tid));
    TablesElsewhere(s, Action.ReadSnapshot(tid));
  }

  lemma WarmBeside(s: State, a: Action, tid: Tid, r: Request, table: Option<Table>, found: Found)
    requires Inv(s) && Enabled(s, a) && WarmAt(s, tid, r, table, found) && (a.Load? || a.Spawn? || a.tid != tid)
    ensures WarmAt(Apply(s, a), tid, r, table, found)
  {
    ThreadStays(s, a, tid);
    if s.threads[tid].pc.Looked? {
      assert HandleOk(s, r, s.threads[tid].pc);
      HandleStep(s, a, r.slot, table.value, r.key);
    }
  }

  lemma ThreadStays(s: State, a: Action, tid: Tid)
    requires Enabled(s, a) && tid in s.threads && (a.Load? || a.Spawn? || a.tid != tid)
    ensures tid in Apply(s, a).threads && Apply(s, a).threads[tid] == s.threads[tid]
  {
    if !a.Load? && !a.Spawn? {
      ApplyView(s, a);
    }
  }

  lemma WarmScans(s: State, a: Action, r: Request, table: Option<Table>, found: Found)
    requires Enabled(s, a) && !a.Load? && !a.Spawn? && WarmAt(s, a.tid, r, table, found)
    ensures WarmAt(Apply(s, a), a.tid, r, table, found)
  {
    ApplyView(s, a);
  }

  lemma WarmStep(s: State, a: Action, tid: Tid, r: Request, table: Option<Table>, found: Found)
    requires Inv(s) && Enabled(s, a) && WarmAt(s, tid, r, table, found)
    ensures WarmAt(Apply(s, a), tid, r, table, found)
  {
    if a.Load? || a.Spawn? || a.tid != tid {
      WarmBeside(s, a, tid, r, table, found);
    } else {
      WarmScans(s, a, r, table, found);
    }
  }

  lemma WarmNext(states: seq<State>, actions: seq<Action>, n: nat, tid: Tid, r: Request, table: Option<Table>,
                 found: Found)
    requires Run(states, actions) && Inv(states[0]) && n < |actions| && WarmAt(states[n], tid, r, table, found)
    ensures WarmAt(states[n + 1], tid, r, table, found)
  {
    InvAt(states, actions, n);
    WarmStep(states[n], actions[n], tid, r, table, found);
  }

  /** A call whose own snapshot answers its key returns exactly that entry, whatever else happens and whether or
      not resolving is frozen: from then on it is at its scan, or done with that pointer. */
  lemma {:induction false} WarmReturns(states: seq<State>, actions: seq<Action>, j: nat, n: nat, tid: Tid, r: Request,
                                       found: Found)
    requires Run(states, actions) && Inv(states[0]) && j < n < |states| && actions[j] == Action.ReadSnapshot(tid)
    requires tid in states[j].threads && states[j].threads[tid].request == r && r.key.Readable()
    requires Abs(states[j], r.slot, r.key) == Some(found)
    ensures WarmAt(states[n], tid, r, Current(states[j], r.slot), found)
    decreases n
  {
    if n == j + 1 {
      WarmStart(states[j], tid, r, found);
    } else {
      WarmReturns(states, actions, j, n - 1, tid, r, found);
      WarmNext(states, actions, n - 1, tid, r, Current(states[j], r.slot), found);
    }
  }

  // ---- what is in the tables

  lemma {:induction false} RequestStays(states: seq<State>, actions: seq<Action>, i: nat, n: nat, tid: Tid)
    requires Run(states, actions) && i <= n < |states| && tid in states[i].threads
    ensures tid in states[n].threads && states[n].threads[tid].request == states[i].threads[tid].request
    decreases n
  {
    if i < n {
      RequestStays(states, actions, i, n - 1, tid);
      if !actions[n - 1].Load? && !actions[n - 1].Spawn? {
        ApplyView(states[n - 1], actions[n - 1]);
      }
    }
  }

  // The row that a request and the answer to it make.
  ghost predicate Makes(r: Request, resolved: Resolved, slot: Slot, schema: Schema, row: Entry) {
    && r.slot == slot && Resolvable(r.key) && |resolved.columns| == r.key.ndims
    && schema == Schema(resolved.columns, r.key.ndtypes)
    && row.dims == Normalize(schema.Strategies(), r.key.Dims()) && row.dtypes == Names(r.key.Dtypes())
    && row.config == resolved.config
  }

  ghost predicate HeardRow(s: State, a: Action, slot: Slot, schema: Schema, row: Entry) {
    && a.Hear? && a.reply.Answers? && a.tid in s.threads
    && Makes(s.threads[a.tid].request, a.reply.resolved, slot, schema, row)
  }

  ghost predicate RowFrom(states: seq<State>, actions: seq<Action>, n: nat, slot: Slot, schema: Schema, row: Entry)
    requires n < |states| && n <= |actions|
  {
    exists i :: 0 <= i < n && HeardRow(states[i], actions[i], slot, schema, row)
  }

  ghost predicate ArenaFrom(states: seq<State>, actions: seq<Action>, n: nat, arena: Arena)
    requires n < |states| && n <= |actions|
  {
    forall j :: 0 <= j < |arena.rows| ==> RowFrom(states, actions, n, arena.slot, arena.schema, arena.rows[j])
  }

  lemma LockedHeard(states: seq<State>, actions: seq<Action>, n: nat, tid: Tid) returns (i: nat)
    requires n < |states| && n <= |actions| && Trails(states, actions, n)
    requires tid in states[n].threads && states[n].threads[tid].pc.Locked?
    ensures i < n && actions[i] == Action.Hear(tid, Answers(states[n].threads[tid].pc.resolved))
  {
    assert ThreadOk(states, actions, n, tid);
    i :| 0 <= i < n && actions[i] == Action.Hear(tid, Answers(states[n].threads[tid].pc.resolved));
  }

  lemma HeardMakes(s: State, a: Action, r: Request, resolved: Resolved)
    requires Enabled(s, a) && a.Hear? && a.reply == Answers(resolved) && s.threads[a.tid].request == r
    requires Resolvable(r.key) && |resolved.columns| == r.key.ndims
    ensures var schema := Schema(resolved.columns, r.key.ndtypes);
            HeardRow(s, a, r.slot, schema, NewRow(schema, r.key, resolved.config))
  {
  }

  lemma NewRowFrom(states: seq<State>, actions: seq<Action>, n: nat)
    requires Run(states, actions) && n < |actions| && LinksFresh(states[n], actions[n])
    requires Trails(states, actions, n)
    ensures var th := states[n].threads[actions[n].tid];
            var schema := Schema(th.pc.resolved.columns, th.request.key.ndtypes);
            && Resolvable(th.request.key) && |schema.columns| == th.request.key.ndims
            && RowFrom(states, actions, n, th.request.slot, schema,
                       NewRow(schema, th.request.key, th.pc.resolved.config))
  {
    var th := states[n].threads[actions[n].tid];
    FreshView(states[n], actions[n]);
    var i := LockedHeard(states, actions, n, actions[n].tid);
    RequestStays(states, actions, i, n, actions[n].tid);
    HeardMakes(states[i], actions[i], th.request, th.pc.resolved);
  }

  lemma RowStays(states: seq<State>, actions: seq<Action>, n: nat, slot: Slot, schema: Schema, row: Entry)
    requires n + 1 < |states| && n < |actions| && RowFrom(states, actions, n, slot, schema, row)
    ensures RowFrom(states, actions, n + 1, slot, schema, row)
  {
  }

  lemma ArenaStays(states: seq<State>, actions: seq<Action>, n: nat, arena: Arena)
    requires n + 1 < |states| && n < |actions| && ArenaFrom(states, actions, n, arena)
    ensures ArenaFrom(states, actions, n + 1, arena)
  {
  }

  // A storage that gains one row that came from an answer.
  lemma ArenaGains(states: seq<State>, actions: seq<Action>, n: nat, arena: Arena, row: Entry)
    requires n < |states| && n <= |actions| && ArenaFrom(states, actions, n, arena)
    requires RowFrom(states, actions, n, arena.slot, arena.schema, row)
    ensures ArenaFrom(states, actions, n, arena.(rows := arena.rows + [row]))
  {
  }

  ghost predicate ArenasFrom(states: seq<State>, actions: seq<Action>, n: nat)
    requires n < |states| && n <= |actions|
  {
    forall i :: 0 <= i < |states[n].arenas| ==> ArenaFrom(states, actions, n, states[n].arenas[i])
  }

  // Every storage after an insertion is as it was, or new, or gained the one row.
  lemma ArenasWithIs(s: State, slot: Slot, schema: Schema, row: Entry, i: nat)
    requires StorageOk(s) && (slot in s.published ==> s.published[slot].schema == schema)
    requires i < |ArenasWith(s, slot, schema, row)|
    ensures var arena := ArenasWith(s, slot, schema, row)[i];
            || (i < |s.arenas| && arena == s.arenas[i])
            || (arena.slot == slot && arena.schema == schema
                && arena.rows == (if i < |s.arenas| then s.arenas[i].rows else []) + [row]
                && (i < |s.arenas| ==> s.arenas[i] == arena.(rows := s.arenas[i].rows)))
  {
  }

  lemma ArenasStep(states: seq<State>, actions: seq<Action>, n: nat)
    requires Run(states, actions) && n < |actions| && Inv(states[n]) && Trails(states, actions, n)
    requires ArenasFrom(states, actions, n)
    ensures ArenasFrom(states, actions, n + 1)
  {
    var s, m := states[n], n + 1;
    forall i | 0 <= i < |states[m].arenas|
      ensures ArenaFrom(states, actions, m, states[m].arenas[i])
    {
      if LinksFresh(s, actions[n]) {
        LinkedArena(states, actions, n, i);
      } else {
        TablesElsewhere(s, actions[n]);
        ArenaStays(states, actions, n, s.arenas[i]);
      }
    }
  }

  lemma LinkedArena(states: seq<State>, actions: seq<Action>, n: nat, i: nat)
    requires Run(states, actions) && n < |actions| && Inv(states[n]) && Trails(states, actions, n)
    requires ArenasFrom(states, actions, n) && LinksFresh(states[n], actions[n]) && i < |states[n + 1].arenas|
    ensures ArenaFrom(states, actions, n + 1, states[n + 1].arenas[i])
  {
    var s, th := states[n], states[n].threads[actions[n].tid];
    FreshView(s, actions[n]);
    JudgedFresh(s, th.request, th.pc.resolved);
    NewRowFrom(states, actions, n);
    var schema := Schema(th.pc.resolved.columns, th.request.key.ndtypes);
    var row := NewRow(schema, th.request.key, th.pc.resolved.config);
    ArenasWithIs(s, th.request.slot, schema, row, i);
    var arena := states[n + 1].arenas[i];
    if i < |s.arenas| && arena == s.arenas[i] {
      ArenaStays(states, actions, n, arena);
    } else {
      var before := if i < |s.arenas| then s.arenas[i] else arena.(rows := []);
      ArenaGains(states, actions, n, before, row);
      ArenaStays(states, actions, n, arena);
    }
  }

  lemma ArenasNext(states: seq<State>, actions: seq<Action>, n: nat)
    requires Run(states, actions) && Initial(states[0]) && n < |actions| && ArenasFrom(states, actions, n)
    ensures ArenasFrom(states, actions, n + 1)
  {
    InitialInv(states[0]);
    InvAt(states, actions, n);
    TrailsRun(states, actions, n);
    ArenasStep(states, actions, n);
  }

  lemma {:induction false} ArenasRun(states: seq<State>, actions: seq<Action>, n: nat)
    requires Run(states, actions) && Initial(states[0]) && n < |states|
    ensures ArenasFrom(states, actions, n)
  {
    if n > 0 {
      ArenasRun(states, actions, n - 1);
      ArenasNext(states, actions, n - 1);
    }
  }

  /** Nothing is stored that no resolver answered: every online row of every run is the configuration of an answer,
      under the normalised key of the request that it answered, in a storage of that request's kernel. */
  lemma RowsComeFromAnswers(states: seq<State>, actions: seq<Action>, n: nat, i: nat, j: nat)
    requires Run(states, actions) && Initial(states[0]) && n < |states|
    requires i < |states[n].arenas| && j < |states[n].arenas[i].rows|
    ensures var arena := states[n].arenas[i]; RowFrom(states, actions, n, arena.slot, arena.schema, arena.rows[j])
  {
    ArenasRun(states, actions, n);
  }

  /** Publishing an insertion makes the table answer exactly the views that normalise to the new key with the new
      entry; every other view, of this kernel and of others, keeps its answer. */
  lemma PublishAddsOne(s: State, a: Action, slot: Slot, k: KeyView)
    requires Inv(s) && Enabled(s, a) && a.Publish? && k.Readable()
    ensures s.threads[a.tid].pc.Linked? && s.threads[a.tid].request.key.Readable()
    ensures var (r, pc) := (s.threads[a.tid].request, s.threads[a.tid].pc);
            Abs(Apply(s, a), slot, k) == if slot == r.slot && SameNormalKey(pc.next.schema, k, r.key)
                                         then Some(pc.found) else Abs(s, slot, k)
  {
    PublishView(s, a);
    PublisherOk(s, a.tid);
  }

  /** A load makes the table answer from the loaded rows alone, the newest match first; other kernels keep their
      answers. */
  lemma LoadReplaces(s: State, a: Action, slot: Slot, k: KeyView)
    requires Enabled(s, a) && a.Load? && k.Readable()
    ensures var t := Apply(s, a);
            if slot != a.slot then Abs(t, slot, k) == Abs(s, slot, k)
            else match PlaceRows(a.schema, [], a.rows, k)
                 case Some(Offline(i)) => Abs(t, slot, k) == Some(Found(Row(|s.history|, i), a.rows[i].config))
                 case _ => Abs(t, slot, k) == None
  {
  }

  // ---- nobody is stuck

  // A thread's own next step, with some reply and an unfrozen check.
  function NextAction(pc: Pc, tid: Tid, frozen: bool, reply: Reply): Action {
    match pc
    case Start => Action.ReadSnapshot(tid)
    case Looked(_) => Action.Scan(tid)
    case Missed => Action.CheckFreeze(tid, frozen)
    case Allowed => Action.MakeToken(tid)
    case Bound(_) => Action.Enter(tid)
    case Waiting(_, _) => Action.Await(tid)
    case _ => OwnAction(pc, tid, reply)
  }

  lemma NextReady(s: State, tid: Tid, r: Request, pc: Pc, frozen: bool, reply: Reply)
    requires Sane(s, tid, r, pc) && !pc.Done? && !Blocked(s, r, pc) && (Responsible(pc) ==> pc.promise < |s.promises|)
    requires pc.Waiting? ==> pc.promise < |s.promises| && s.promises[pc.promise].outcome.Some?
    ensures var a := NextAction(pc, tid, frozen, reply); Ready(s, a, r, pc) && !a.Load? && !a.Spawn? && a.tid == tid
  {
    if Responsible(pc) {
      OwnReady(s, tid, r, pc, reply);
    }
  }

  lemma ReadyIsEnabled(s: State, tid: Tid, r: Request, pc: Pc, a: Action)
    requires tid in s.threads && s.threads[tid] == Thread(r, pc) && r.key.Readable()
    requires Ready(s, a, r, pc) && !a.Load? && !a.Spawn? && a.tid == tid
    ensures Enabled(s, a)
  {
  }

  /** In every reachable state a running call can make its next step, frozen or not and whatever the resolver
      replies, unless it waits for an open promise or for load_mu_. */
  lemma NobodyIsStuck(s: State, tid: Tid, r: Request, pc: Pc, frozen: bool, reply: Reply)
    requires Inv(s) && tid in s.threads && s.threads[tid] == Thread(r, pc) && !pc.Done? && !Blocked(s, r, pc)
    requires pc.Waiting? ==> pc.promise < |s.promises| && s.promises[pc.promise].outcome.Some?
    ensures Enabled(s, NextAction(pc, tid, frozen, reply))
  {
    assert Sane(s, tid, r, pc) && Placed(s, pc);
    NextReady(s, tid, r, pc, frozen, reply);
    ReadyIsEnabled(s, tid, r, pc, NextAction(pc, tid, frozen, reply));
  }

  // ---- malformed arguments

  lemma ResolvableIs(key: KeyView)
    requires key.Readable()
    ensures Resolvable(key) <==> !Malformed(key)
  {
    if key.dtypes.Some? {
      assert key.Dtypes() == key.dtypes.value;
    }
  }

  lemma SeenIsWellFormed(states: seq<State>, actions: seq<Action>, i: nat, n: nat, tid: Tid)
    requires Run(states, actions) && Inv(states[0]) && i <= n < |states| && During(states[i], tid)
    ensures tid in states[n].threads
    ensures var r := states[n].threads[tid].request; r.key.Readable() && (r.resolves ==> !Malformed(r.key))
  {
    InvAt(states, actions, i);
    RequestStays(states, actions, i, n, tid);
    var th := states[i].threads[tid];
    assert Sane(states[i], tid, th.request, th.pc);
    ResolvableIs(th.request.key);
  }

  /** resolve() throws for its argument exactly when that is malformed, and at once. */
  lemma MalformedIsRefused(states: seq<State>, actions: seq<Action>, n: nat, tid: Tid)
    requires Run(states, actions) && Initial(states[0]) && n < |states| && tid in states[n].threads
    ensures var (r, pc) := (states[n].threads[tid].request, states[n].threads[tid].pc);
            r.key.Readable() && (pc == Done(Raised(InvalidArgument), None) <==> r.resolves && Malformed(r.key))
  {
    InitialInv(states[0]);
    TrailsRun(states, actions, n);
    assert ThreadOk(states, actions, n, tid);
    var r, pc := states[n].threads[tid].request, states[n].threads[tid].pc;
    if pc != Done(Raised(InvalidArgument), None) {
      var i := WasRunning(states, actions, n, tid, r, pc);
      SeenIsWellFormed(states, actions, i, n, tid);
    }
  }

  // Whoever has not been refused at once has been running.
  lemma WasRunning(states: seq<State>, actions: seq<Action>, n: nat, tid: Tid, r: Request, pc: Pc) returns (i: nat)
    requires n < |states| && n <= |actions| && r.key.Readable() && Trail(states, actions, n, tid, r, pc)
    requires tid in states[n].threads && states[n].threads[tid] == Thread(r, pc)
    requires pc != Done(Raised(InvalidArgument), None)
    ensures i <= n && During(states[i], tid)
  {
    if !pc.Done? {
      i := n;
    } else if pc.origin.None? && pc.outcome.Value? {
      i :| 0 <= i <= n && During(states[i], tid) && Abs(states[i], r.slot, r.key) == pc.outcome.found;
    } else {
      assert Cold(states, n, tid, r);
      i :| 0 <= i <= n && During(states[i], tid) && Abs(states[i], r.slot, r.key) == None;
    }
  }
}
