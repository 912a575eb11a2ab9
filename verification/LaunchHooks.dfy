/** Launch hooks (src/launch_hooks.cpp, lines 29-78) and the launches that use them
    (include/triton_jit/triton_kernel.h, lines 129-190), under any number of threads. Setters race on one
    shared pointer with a compare-and-swap loop; a launch reads the pointer once. */
module LaunchHooks {

  datatype Option<+T> = None | Some(value: T)

  // A hook, or the empty std::function.
  type Hook = Option<nat>

  datatype Hooks = Hooks(enter: Hook, exit: Hook)

  const NO_HOOKS := Hooks(None, None)

  // shared_ptr<const LaunchHooksState>: null or an object; pointers compare by identity.
  datatype Pointer = Null | Object(id: nat)

  datatype Update = SetEnter(hook: Hook) | SetExit(hook: Hook) | Clear

  // The atomic meaning of an update.
  function Updated(u: Update, h: Hooks): Hooks {
    match u
    case SetEnter(hook) => h.(enter := hook)
    case SetExit(hook) => h.(exit := hook)
    case Clear => NO_HOOKS
  }

  function UpdatedAll(log: seq<Update>): Hooks {
    if log == [] then NO_HOOKS else Updated(log[|log| - 1], UpdatedAll(log[..|log| - 1]))
  }

  datatype Event = EnterRan(hook: nat, threw: bool) | BackendLaunched(ok: bool) | ExitRan(hook: nat)

  // Where a thread is. `since` is how many updates had taken effect when its call began.
  datatype Pc =
    | Idle
    | Setting(u: Update, since: nat)                                    // before the first load
    | Loaded(u: Update, since: nat, current: Pointer)
    | Built(u: Update, since: nat, current: Pointer, desired: Pointer)
    | SetDone(u: Update, since: nat, at: nat)                           // `at`: its place in the log
    | Launching(since: nat)
    | Entered(since: nat, at: nat, hooks: Pointer, trace: seq<Event>)
    | Launched(since: nat, at: nat, hooks: Pointer, trace: seq<Event>, ok: bool)
    | LaunchDone(since: nat, at: nat, hooks: Pointer, trace: seq<Event>)

  // Objects are immutable once built. The log records updates in the order in which they took effect.
  datatype State = State(objects: seq<Hooks>, shared: Pointer, threads: map<nat, Pc>, log: seq<Update>) {
    function Pc(tid: nat): Pc {
      if tid in threads then threads[tid] else Idle
    }

    function At(tid: nat, pc: Pc): State {
      this.(threads := threads[tid := pc])
    }

    predicate Allocated(p: Pointer) {
      p.Null? || p.id < |objects|
    }

    // What a snapshot shows.
    function Visible(p: Pointer): Hooks
      requires Allocated(p)
    {
      if p.Null? then NO_HOOKS else objects[p.id]
    }
  }

  datatype Action =
    | BeginSet(tid: nat, u: Update)
    | Load(tid: nat)
    | Build(tid: nat)                    // make_shared, copy, update
    | Swap(tid: nat, spurious: bool)     // compare_exchange_weak
    | Store(tid: nat)                    // clear_launch_hooks
    | BeginLaunch(tid: nat)
    | Snapshot(tid: nat, throws: bool)   // and the enter hook, if there is one, which may throw
    | Backend(tid: nat, ok: bool)        // launch_kernel returns or throws
    | Exit(tid: nat)                     // an exit hook that throws has run all the same
    | Return(tid: nat)

  function Enabled(s: State, a: Action): bool {
    match a
    case BeginSet(tid, u) => s.Pc(tid).Idle?
    case Load(tid) => s.Pc(tid).Setting? && !s.Pc(tid).u.Clear?
    case Build(tid) => s.Pc(tid).Loaded? && s.Allocated(s.Pc(tid).current)
    case Swap(tid, _) => s.Pc(tid).Built?
    case Store(tid) => s.Pc(tid).Setting? && s.Pc(tid).u.Clear?
    case BeginLaunch(tid) => s.Pc(tid).Idle?
    case Snapshot(tid, _) => s.Pc(tid).Launching? && s.Allocated(s.shared)
    case Backend(tid, _) => s.Pc(tid).Entered?
    case Exit(tid) => s.Pc(tid).Launched? && s.Allocated(s.Pc(tid).hooks)
    case Return(tid) => s.Pc(tid).SetDone? || s.Pc(tid).LaunchDone?
  }

  // Lines 36-45: null stands for "no hooks at all".
  function DoBuild(s: State, tid: nat): State
    requires s.Pc(tid).Loaded? && s.Allocated(s.Pc(tid).current)
  {
    var pc := s.Pc(tid);
    var next := Updated(pc.u, s.Visible(pc.current));
    var built := s.(objects := s.objects + [next]);
    built.At(tid, Built(pc.u, pc.since, pc.current, if next == NO_HOOKS then Null else Object(|s.objects|)))
  }

  // Line 47: a failed exchange reloads `current`.
  function DoSwap(s: State, tid: nat, spurious: bool): State
    requires s.Pc(tid).Built?
  {
    var pc := s.Pc(tid);
    if !spurious && s.shared == pc.current then
      s.At(tid, SetDone(pc.u, pc.since, |s.log|)).(shared := pc.desired, log := s.log + [pc.u])
    else s.At(tid, Loaded(pc.u, pc.since, s.shared))
  }

  function RanEnter(h: Hook, throws: bool): seq<Event> {
    if h.Some? then [EnterRan(h.value, throws)] else []
  }

  function RanExit(h: Hook): seq<Event> {
    if h.Some? then [ExitRan(h.value)] else []
  }

  function Apply(s: State, a: Action): State
    requires Enabled(s, a)
  {
    match a
    case BeginSet(tid, u) => s.At(tid, Setting(u, |s.log|))
    case Load(tid) => s.At(tid, Loaded(s.Pc(tid).u, s.Pc(tid).since, s.shared))
    case Build(tid) => DoBuild(s, tid)
    case Swap(tid, spurious) => DoSwap(s, tid, spurious)
    case Store(tid) =>
      s.At(tid, SetDone(Clear, s.Pc(tid).since, |s.log|)).(shared := Null, log := s.log + [Clear])
    case BeginLaunch(tid) => s.At(tid, Launching(|s.log|))
    case Snapshot(tid, throws) =>
      var enter := s.Visible(s.shared).enter;
      s.At(tid, if throws && enter.Some? then LaunchDone(s.Pc(tid).since, |s.log|, s.shared, RanEnter(enter, true))
                else Entered(s.Pc(tid).since, |s.log|, s.shared, RanEnter(enter, false)))
    case Backend(tid, ok) =>
      var pc := s.Pc(tid);
      s.At(tid, Launched(pc.since, pc.at, pc.hooks, pc.trace + [BackendLaunched(ok)], ok))
    case Exit(tid) =>
      var pc := s.Pc(tid);
      var ran := if pc.ok then RanExit(s.Visible(pc.hooks).exit) else [];
      s.At(tid, LaunchDone(pc.since, pc.at, pc.hooks, pc.trace + ran))
    case Return(tid) => s.At(tid, Idle)
  }

  ghost predicate Initial(s: State) {
    s.objects == [] && s.shared.Null? && s.threads == map[] && s.log == []
  }

  ghost predicate Run(states: seq<State>, actions: seq<Action>) {
    && |states| == |actions| + 1 && Initial(states[0])
    && forall i :: 0 <= i < |actions| ==>
        Enabled(states[i], actions[i]) && states[i + 1] == Apply(states[i], actions[i])
  }

  // ---- the refinement invariant

  // The shared pointer always shows the updates that took effect, applied in their order.
  ghost predicate Refines(s: State) {
    s.Allocated(s.shared) && s.Visible(s.shared) == UpdatedAll(s.log)
  }

  // What a launch whose snapshot shows h does: the enter hook and the backend...
  ghost function Calls(h: Hooks, ok: bool): seq<Event> {
    if h.enter.Some? then [EnterRan(h.enter.value, false), BackendLaunched(ok)] else [BackendLaunched(ok)]
  }

  // ... and the exit hook exactly after a backend launch that succeeded; or the enter hook threw, and
  // nothing came after.
  ghost predicate OkTrace(h: Hooks, trace: seq<Event>) {
    || trace == Calls(h, false)
    || trace == Calls(h, true) + (if h.exit.Some? then [ExitRan(h.exit.value)] else [])
    || (h.enter.Some? && trace == [EnterRan(h.enter.value, true)])
  }

  // A launch's snapshot is what the shared pointer showed at one moment of the call.
  ghost predicate SnapshotOk(s: State, since: nat, at: nat, hooks: Pointer) {
    since <= at <= |s.log| && s.Allocated(hooks) && s.Visible(hooks) == UpdatedAll(s.log[..at])
  }

  ghost predicate PcOk(s: State, pc: Pc) {
    match pc
    case Idle => true
    case Setting(u, since) => since <= |s.log|
    case Loaded(u, since, current) => since <= |s.log| && s.Allocated(current)
    case Built(u, since, current, desired) =>
      && since <= |s.log| && s.Allocated(current) && s.Allocated(desired)
      && s.Visible(desired) == Updated(u, s.Visible(current))
    case SetDone(u, since, at) => since <= at < |s.log| && s.log[at] == u
    case Launching(since) => since <= |s.log|
    case Entered(since, at, hooks, trace) =>
      SnapshotOk(s, since, at, hooks) && trace == RanEnter(s.Visible(hooks).enter, false)
    case Launched(since, at, hooks, trace, ok) =>
      SnapshotOk(s, since, at, hooks) && trace == Calls(s.Visible(hooks), ok)
    case LaunchDone(since, at, hooks, trace) =>
      SnapshotOk(s, since, at, hooks) && OkTrace(s.Visible(hooks), trace)
  }

  ghost predicate Inv(s: State) {
    Refines(s) && forall tid :: tid in s.threads ==> PcOk(s, s.threads[tid])
  }

  // Objects and log entries are only ever added.
  ghost predicate Extends(s: State, t: State) {
    s.objects <= t.objects && s.log <= t.log
  }

  lemma PcStays(s: State, t: State, pc: Pc)
    requires PcOk(s, pc) && Extends(s, t)
    ensures PcOk(t, pc)
  {
    if pc.Entered? || pc.Launched? || pc.LaunchDone? {
      assert t.log[..pc.at] == s.log[..pc.at];
    }
  }

  lemma OthersStay(s: State, t: State, tid: nat)
    requires Inv(s) && Extends(s, t) && t.threads == s.threads[tid := t.Pc(tid)]
    requires PcOk(t, t.Pc(tid)) && Refines(t)
    ensures Inv(t)
  {
    forall u | u in t.threads
      ensures PcOk(t, t.threads[u])
    {
      if u != tid {
        PcStays(s, t, s.threads[u]);
      }
    }
  }

  lemma BuildKeeps(s: State, tid: nat)
    requires Inv(s) && s.Pc(tid).Loaded? && s.Allocated(s.Pc(tid).current)
    ensures Inv(DoBuild(s, tid))
  {
    OthersStay(s, DoBuild(s, tid), tid);
  }

  /** The exchange: if the pointer still is what it was, it still shows what it showed, null included, so
      the update built from the old snapshot is the update of the present one. */
  lemma SwapKeeps(s: State, tid: nat, spurious: bool)
    requires Inv(s) && s.Pc(tid).Built?
    ensures Inv(DoSwap(s, tid, spurious))
  {
    var t := DoSwap(s, tid, spurious);
    assert PcOk(s, s.Pc(tid));
    if !spurious && s.shared == s.Pc(tid).current {
      assert t.log[..|s.log|] == s.log;
    }
    OthersStay(s, t, tid);
  }

  lemma TraceGrows(h: Hooks, ok: bool)
    ensures RanEnter(h.enter, false) + [BackendLaunched(ok)] == Calls(h, ok)
    ensures OkTrace(h, Calls(h, ok) + if ok then RanExit(h.exit) else [])
  {
    assert Calls(h, ok) + [] == Calls(h, ok);
  }

  lemma SnapshotKeeps(s: State, tid: nat, throws: bool)
    requires Inv(s) && Enabled(s, Snapshot(tid, throws))
    ensures Inv(Apply(s, Snapshot(tid, throws)))
  {
    assert PcOk(s, s.threads[tid]);
    assert s.log[..|s.log|] == s.log;
    OthersStay(s, Apply(s, Snapshot(tid, throws)), tid);
  }

  lemma BackendKeeps(s: State, tid: nat, ok: bool)
    requires Inv(s) && Enabled(s, Backend(tid, ok))
    ensures Inv(Apply(s, Backend(tid, ok)))
  {
    assert PcOk(s, s.threads[tid]);
    TraceGrows(s.Visible(s.Pc(tid).hooks), ok);
    OthersStay(s, Apply(s, Backend(tid, ok)), tid);
  }

  lemma ExitKeeps(s: State, tid: nat)
    requires Inv(s) && Enabled(s, Exit(tid))
    ensures Inv(Apply(s, Exit(tid)))
  {
    assert PcOk(s, s.threads[tid]);
    TraceGrows(s.Visible(s.Pc(tid).hooks), s.Pc(tid).ok);
    OthersStay(s, Apply(s, Exit(tid)), tid);
  }

  lemma StepKeeps(s: State, a: Action)
    requires Inv(s) && Enabled(s, a)
    ensures Inv(Apply(s, a)) && Extends(s, Apply(s, a))
  {
    var t := Apply(s, a);
    match a
    case Build(tid) => BuildKeeps(s, tid);
    case Swap(tid, spurious) => SwapKeeps(s, tid, spurious);
    case Store(tid) =>
      assert t.log[..|s.log|] == s.log;
      OthersStay(s, t, tid);
    case Snapshot(tid, throws) => SnapshotKeeps(s, tid, throws);
    case Backend(tid, ok) => BackendKeeps(s, tid, ok);
    case Exit(tid) => ExitKeeps(s, tid);
    case _ =>
      assert a.tid in s.threads ==> PcOk(s, s.threads[a.tid]);
      OthersStay(s, t, a.tid);
  }

  lemma {:induction false} RunKeeps(states: seq<State>, actions: seq<Action>, n: nat)
    requires Run(states, actions) && n < |states|
    ensures Inv(states[n])
  {
    if n > 0 {
      RunKeeps(states, actions, n - 1);
      StepKeeps(states[n - 1], actions[n - 1]);
    }
  }

  /** In every interleaving, with null-to-null swaps and spurious failures: what is visible is exactly the
      effect of the updates in the order in which their swaps and stores succeeded. */
  lemma UpdatesAreAtomic(states: seq<State>, actions: seq<Action>, n: nat)
    requires Run(states, actions) && n < |states|
    ensures Refines(states[n])
  {
    RunKeeps(states, actions, n);
  }

  // ---- what an update does

  datatype Side = Before | After

  predicate Sets(u: Update, side: Side) {
    match side
    case Before => u.SetEnter?
    case After => u.SetExit?
  }

  // The hook of the last setter of this side, if no clear came after it; none otherwise.
  ghost predicate LatestIs(log: seq<Update>, side: Side, hook: Hook) {
    || (exists i :: 0 <= i < |log| && Sets(log[i], side) && log[i].hook == hook
          && forall j :: i < j < |log| ==> !Sets(log[j], side) && !log[j].Clear?)
    || (hook == None && forall i :: 0 <= i < |log| && Sets(log[i], side) ==> exists j :: i < j < |log| && log[j].Clear?)
  }

  ghost predicate Shows(log: seq<Update>, h: Hooks) {
    LatestIs(log, Before, h.enter) && LatestIs(log, After, h.exit)
  }

  lemma OneMoreUpdate(log: seq<Update>, u: Update, side: Side, hook: Hook)
    requires LatestIs(log, side, hook) && !Sets(u, side) && !u.Clear?
    ensures LatestIs(log + [u], side, hook)
  {
    var next := log + [u];
    assert forall i :: 0 <= i < |log| ==> next[i] == log[i];
    if i :| 0 <= i < |log| && Sets(log[i], side) && log[i].hook == hook
            && forall j :: i < j < |log| ==> !Sets(log[j], side) && !log[j].Clear? {
      assert Sets(next[i], side) && next[i].hook == hook;
    } else {
      forall i | 0 <= i < |next| && Sets(next[i], side)
        ensures exists j :: i < j < |next| && next[j].Clear?
      {
        var j :| i < j < |log| && log[j].Clear?;
        assert next[j].Clear?;
      }
    }
  }

  lemma LatestUpdate(log: seq<Update>, u: Update, side: Side)
    ensures Sets(u, side) ==> LatestIs(log + [u], side, u.hook)
    ensures u.Clear? ==> LatestIs(log + [u], side, None)
  {
    assert (log + [u])[|log|] == u;
  }

  lemma {:induction false} UpdatedAllShows(log: seq<Update>)
    ensures Shows(log, UpdatedAll(log))
  {
    if log != [] {
      var front, u := log[..|log| - 1], log[|log| - 1];
      assert log == front + [u];
      UpdatedAllShows(front);
      LatestUpdate(front, u, Before);
      LatestUpdate(front, u, After);
      if u.SetExit? {
        OneMoreUpdate(front, u, Before, UpdatedAll(front).enter);
      } else if u.SetEnter? {
        OneMoreUpdate(front, u, After, UpdatedAll(front).exit);
      }
    }
  }

  /** A log shows one pair of hooks only. */
  lemma ShowsOne(log: seq<Update>, h: Hooks, k: Hooks)
    requires Shows(log, h) && Shows(log, k)
    ensures h == k
  {
    LatestIsOne(log, Before, h.enter, k.enter);
    LatestIsOne(log, After, h.exit, k.exit);
  }

  lemma LatestIsOne(log: seq<Update>, side: Side, h: Hook, k: Hook)
    requires LatestIs(log, side, h) && LatestIs(log, side, k)
    ensures h == k
  {
  }

  /** In every state of every run, the visible enter hook is that of the last setter that took effect with
      no clear after it, and there is none otherwise; the exit hook likewise. */
  lemma VisibleIsLatest(states: seq<State>, actions: seq<Action>, n: nat)
    requires Run(states, actions) && n < |states|
    ensures var s := states[n];
            s.Allocated(s.shared) && Shows(s.log, s.Visible(s.shared))
  {
    RunKeeps(states, actions, n);
    UpdatedAllShows(states[n].log);
  }

  /** What a step shows to the next launch: a setter that takes effect changes its own side and leaves the
      other one, a clear empties both, and no other step changes anything. */
  lemma SetterChangesItsSide(states: seq<State>, actions: seq<Action>, n: nat)
    requires Run(states, actions) && n < |actions|
    ensures var (s, t, a) := (states[n], states[n + 1], actions[n]);
            && s.Allocated(s.shared) && t.Allocated(t.shared)
            && var (before, after) := (s.Visible(s.shared), t.Visible(t.shared));
               if !TakesEffect(s, a) then after == before
               else match s.Pc(a.tid).u
                    case SetEnter(hook) => after.enter == hook && after.exit == before.exit
                    case SetExit(hook) => after.exit == hook && after.enter == before.enter
                    case Clear => after == NO_HOOKS
  {
    RunKeeps(states, actions, n);
    RunKeeps(states, actions, n + 1);
    LogGrowsByEffects(states, actions, n);
  }

  // ---- no update is lost

  predicate IsSetter(pc: Pc) {
    pc.Setting? || pc.Loaded? || pc.Built?
  }

  predicate TakesEffect(s: State, a: Action) {
    match a
    case Swap(tid, spurious) => s.Pc(tid).Built? && !spurious && s.shared == s.Pc(tid).current
    case Store(_) => true
    case _ => false
  }

  // The call that tid is in at state n began with this action, made in state m.
  ghost predicate BeganAt(states: seq<State>, actions: seq<Action>, m: nat, n: nat, tid: nat, a: Action)
    requires n < |states| && |states| == |actions| + 1
  {
    m < n && actions[m] == a && forall i :: m < i <= n ==> !states[i].Pc(tid).Idle?
  }

  // How the call began, as its position remembers it.
  function Beginning(tid: nat, pc: Pc): Action
    requires !pc.Idle?
  {
    if IsSetter(pc) || pc.SetDone? then BeginSet(tid, pc.u) else BeginLaunch(tid)
  }

  lemma {:induction false} CallBegan(states: seq<State>, actions: seq<Action>, n: nat, tid: nat) returns (m: nat)
    requires Run(states, actions) && n < |states| && !states[n].Pc(tid).Idle?
    ensures BeganAt(states, actions, m, n, tid, Beginning(tid, states[n].Pc(tid)))
    ensures states[n].Pc(tid).since == |states[m].log|
  {
    CallStep(states[n - 1], actions[n - 1], tid);
    if states[n - 1].Pc(tid).Idle? {
      m := n - 1;
    } else {
      m := CallBegan(states, actions, n - 1, tid);
    }
  }

  lemma CallStep(s: State, a: Action, tid: nat)
    requires Enabled(s, a) && !Apply(s, a).Pc(tid).Idle?
    ensures var (pc, next) := (s.Pc(tid), Apply(s, a).Pc(tid));
            if pc.Idle? then a == Beginning(tid, next) && next.since == |s.log|
            else Beginning(tid, next) == Beginning(tid, pc) && next.since == pc.since
  {
  }

  /** A call that returned took effect once, during the call: the log has its update at its own place, reached
      after the call began, and grows at no other moment. */
  lemma EffectOfReturnedCall(states: seq<State>, actions: seq<Action>, n: nat, tid: nat) returns (m: nat)
    requires Run(states, actions) && n < |states| && states[n].Pc(tid).SetDone?
    ensures var pc := states[n].Pc(tid);
            && BeganAt(states, actions, m, n, tid, BeginSet(tid, pc.u))
            && |states[m].log| <= pc.at < |states[n].log| && states[n].log[pc.at] == pc.u
  {
    RunKeeps(states, actions, n);
    assert tid in states[n].threads;
    m := CallBegan(states, actions, n, tid);
  }

  lemma LogGrowsByEffects(states: seq<State>, actions: seq<Action>, n: nat)
    requires Run(states, actions) && n < |actions|
    ensures var (s, t, a) := (states[n], states[n + 1], actions[n]);
            if TakesEffect(s, a)
            then t.log == s.log + [s.Pc(a.tid).u] && t.Pc(a.tid).SetDone? && t.Pc(a.tid).at == |s.log|
            else t.log == s.log && !t.Pc(a.tid).SetDone?
  {
  }

  /** Every launch runs its hooks from one snapshot, taken at one moment of the call: the latest enter hook,
      the backend, and the latest exit hook, this one only after the backend launch succeeded; an enter hook
      that throws ends it before the backend. */
  lemma LaunchUsesOneSnapshot(states: seq<State>, actions: seq<Action>, n: nat, tid: nat) returns (m: nat)
    requires Run(states, actions) && n < |states| && states[n].Pc(tid).LaunchDone?
    ensures var (pc, log) := (states[n].Pc(tid), states[n].log);
            && BeganAt(states, actions, m, n, tid, BeginLaunch(tid))
            && |states[m].log| <= pc.at <= |log|
            && exists h :: Shows(log[..pc.at], h) && OkTrace(h, pc.trace)
  {
    RunKeeps(states, actions, n);
    assert tid in states[n].threads;
    var pc, log := states[n].Pc(tid), states[n].log;
    UpdatedAllShows(log[..pc.at]);
    assert OkTrace(UpdatedAll(log[..pc.at]), pc.trace);
    m := CallBegan(states, actions, n, tid);
  }

  /** What a launch records is what happened: the enter hook of the moment of its snapshot, which ends the
      call exactly if it threw, and then what the backend answered. */
  lemma RecordsAreTrue(states: seq<State>, actions: seq<Action>, n: nat)
    requires Run(states, actions) && n < |actions|
    ensures var (s, t, a) := (states[n], states[n + 1], actions[n]);
            match a
            case Snapshot(tid, throws) =>
              && s.Allocated(s.shared) && (t.Pc(tid).Entered? || t.Pc(tid).LaunchDone?)
              && t.Pc(tid).hooks == s.shared
              && (t.Pc(tid).LaunchDone? <==> throws && s.Visible(s.shared).enter.Some?)
            case Backend(tid, ok) =>
              s.Pc(tid).Entered? && t.Pc(tid).Launched? && t.Pc(tid).hooks == s.Pc(tid).hooks
              && t.Pc(tid).trace == s.Pc(tid).trace + [BackendLaunched(ok)]
            case _ => true
  {
  }

  // ---- setters finish

  // A setter's next step when its exchanges do not fail spuriously.
  function NextStep(tid: nat, pc: Pc): Action
    requires IsSetter(pc)
  {
    match pc
    case Setting(u, _) => if u.Clear? then Store(tid) else Load(tid)
    case Loaded(_, _, _) => Build(tid)
    case Built(_, _, _, _) => Swap(tid, false)
  }

  // How many of these are left if nobody interferes: one exchange more if somebody did.
  function StepsLeft(s: State, pc: Pc): nat {
    match pc
    case Setting(u, _) => if u.Clear? then 1 else 3
    case Loaded(_, _, current) => if s.shared == current then 2 else 4
    case Built(_, _, current, _) => if s.shared == current then 1 else 3
    case _ => 0
  }

  /** A failed exchange reloads the pointer, so a setter that is left alone is done after at most four of its
      own steps, from every reachable state: it can always make its next one, and that leaves one less. */
  lemma SetterFinishes(states: seq<State>, actions: seq<Action>, n: nat, tid: nat)
    requires Run(states, actions) && n < |states| && IsSetter(states[n].Pc(tid))
    ensures var (s, a) := (states[n], NextStep(tid, states[n].Pc(tid)));
            && Enabled(s, a) && 1 <= StepsLeft(s, s.Pc(tid)) <= 4
            && var pc := Apply(s, a).Pc(tid);
               StepsLeft(Apply(s, a), pc) == StepsLeft(s, s.Pc(tid)) - 1 && (IsSetter(pc) || pc.SetDone?)
  {
    RunKeeps(states, actions, n);
    assert PcOk(states[n], states[n].Pc(tid));
  }
}
