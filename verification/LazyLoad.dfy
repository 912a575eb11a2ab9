/** The double-checked module load of a kernel (include/triton_jit/triton_kernel.h, lines 88-95 and
    200-219), under any number of threads. */
module LazyLoad {

  datatype Option<+T> = None | Some(value: T)

  datatype Pc =
    | Idle
    | Cold                    // saw that nothing is loaded, passed the freeze check
    | Locked                  // holds the mutex
    | Rechecked               // holds the mutex, saw again that nothing is loaded
    | Stored                  // holds the mutex, has assigned the handle
    | Ready(handle: nat)      // returned; the handle that a launch would now use
    | Refused                 // left by an exception

  // `loads` lists the handles that successful backend loads produced.
  datatype State = State(
    loaded: bool, handle: Option<nat>, owner: Option<nat>, threads: map<nat, Pc>, loads: seq<nat>)
  {
    function Pc(tid: nat): Pc {
      if tid in threads then threads[tid] else Idle
    }

    function At(tid: nat, pc: Pc): State {
      this.(threads := threads[tid := pc])
    }

    function Unlocked(tid: nat, pc: Pc): State {
      At(tid, pc).(owner := None)
    }
  }

  datatype Action =
    | Begin(tid: nat, frozen: bool)    // is_loaded, then refuse_if_frozen
    | Lock(tid: nat)
    | Recheck(tid: nat)
    | LoadModule(tid: nat, result: Option<nat>)
    | Publish(tid: nat)                // loaded.store(true), unlock
    | Return(tid: nat)

  ghost predicate Step(s: State, a: Action, t: State) {
    match a
    case Begin(tid, frozen) =>
      && s.Pc(tid).Idle?
      && (if s.loaded then s.handle.Some? && t == s.At(tid, Ready(s.handle.value))
          else t == s.At(tid, if frozen then Refused else Cold))
    case Lock(tid) => s.Pc(tid).Cold? && s.owner.None? && t == s.At(tid, Locked).(owner := Some(tid))
    case Recheck(tid) =>
      && s.Pc(tid).Locked?
      && (if s.loaded then s.handle.Some? && t == s.Unlocked(tid, Ready(s.handle.value))
          else t == s.At(tid, Rechecked))
    case LoadModule(tid, result) =>
      && s.Pc(tid).Rechecked?
      && t == if result.None? then s.Unlocked(tid, Refused)
              else s.At(tid, Stored).(handle := result, loads := s.loads + [result.value])
    case Publish(tid) =>
      && s.Pc(tid).Stored? && s.handle.Some?
      && t == s.Unlocked(tid, Ready(s.handle.value)).(loaded := true)
    case Return(tid) => (s.Pc(tid).Ready? || s.Pc(tid).Refused?) && t == s.At(tid, Idle)
  }

  ghost predicate Initial(s: State) {
    !s.loaded && s.handle.None? && s.owner.None? && s.threads == map[] && s.loads == []
  }

  ghost predicate Run(states: seq<State>, actions: seq<Action>) {
    && |states| == |actions| + 1 && Initial(states[0])
    && forall i :: 0 <= i < |actions| ==> Step(states[i], actions[i], states[i + 1])
  }

  predicate Holding(pc: Pc) {
    pc.Locked? || pc.Rechecked? || pc.Stored?
  }

  ghost predicate Inv(s: State) {
    // mutual exclusion
    && (forall tid: nat :: Holding(s.Pc(tid)) <==> s.owner == Some(tid))
    // at most one module was loaded, and the handle is its handle
    && s.loads == (if s.handle.Some? then [s.handle.value] else [])
    && (s.loaded ==> s.handle.Some?)
    // a thread about to load finds nothing loaded; only the storing thread sees a handle early
    && (forall tid: nat :: s.Pc(tid).Rechecked? ==> s.handle.None?)
    && (forall tid: nat :: s.Pc(tid).Stored? ==> s.handle.Some?)
    && (s.handle.Some? && !s.loaded ==> s.owner.Some? && s.Pc(s.owner.value).Stored?)
    && (forall tid: nat :: s.Pc(tid).Ready? ==> s.loads == [s.Pc(tid).handle])
  }

  // A step that neither loads nor publishes, and moves one thread.
  lemma QuietKeeps(s: State, a: Action, t: State)
    requires Inv(s) && Step(s, a, t) && (a.Begin? || a.Return? || a.Lock? || a.Recheck?)
    ensures Inv(t) && t.loads == s.loads
  {
    assert forall tid: nat :: tid != a.tid ==> t.Pc(tid) == s.Pc(tid);
  }

  lemma LoadKeeps(s: State, a: Action, t: State)
    requires Inv(s) && Step(s, a, t) && a.LoadModule?
    ensures Inv(t) && s.loads <= t.loads
  {
    assert forall tid: nat :: tid != a.tid ==> t.Pc(tid) == s.Pc(tid);
  }

  lemma PublishKeeps(s: State, a: Action, t: State)
    requires Inv(s) && Step(s, a, t) && a.Publish?
    ensures Inv(t) && t.loads == s.loads
  {
    assert forall tid: nat :: tid != a.tid ==> t.Pc(tid) == s.Pc(tid);
  }

  lemma StepKeeps(s: State, a: Action, t: State)
    requires Inv(s) && Step(s, a, t)
    ensures Inv(t) && s.loads <= t.loads
  {
    if a.LoadModule? {
      LoadKeeps(s, a, t);
    } else if a.Publish? {
      PublishKeeps(s, a, t);
    } else {
      QuietKeeps(s, a, t);
    }
  }

  lemma {:induction false} RunKeeps(states: seq<State>, actions: seq<Action>, n: nat)
    requires Run(states, actions) && n < |states|
    ensures Inv(states[n])
  {
    if n > 0 {
      RunKeeps(states, actions, n - 1);
      StepKeeps(states[n - 1], actions[n - 1], states[n]);
    }
  }

  /** However many threads launch at once, the module is loaded successfully at most once, and every
      call that returns has that one handle; a failed load leaves the next caller free to try again. */
  lemma LoadedOnce(states: seq<State>, actions: seq<Action>, n: nat)
    requires Run(states, actions) && n < |states|
    ensures |states[n].loads| <= 1
    ensures forall tid: nat :: states[n].Pc(tid).Ready? ==> states[n].loads == [states[n].Pc(tid).handle]
    ensures states[n].loaded ==> states[n].handle.Some?
  {
    RunKeeps(states, actions, n);
  }

  /** The two reads of the flag are never surprised: whoever sees it set finds the handle in place, so
      the first and third step are possible in every reachable state. */
  lemma FlagMeansHandle(states: seq<State>, actions: seq<Action>, n: nat, tid: nat, frozen: bool)
    requires Run(states, actions) && n < |states|
    ensures states[n].Pc(tid).Idle? ==> exists t :: Step(states[n], Begin(tid, frozen), t)
    ensures states[n].Pc(tid).Locked? ==> exists t :: Step(states[n], Recheck(tid), t)
    ensures states[n].Pc(tid).Stored? ==> exists t :: Step(states[n], Publish(tid), t)
  {
    RunKeeps(states, actions, n);
    var s := states[n];
    if s.Pc(tid).Idle? {
      var t := if s.loaded then s.At(tid, Ready(s.handle.value)) else s.At(tid, if frozen then Refused else Cold);
      assert Step(s, Begin(tid, frozen), t);
    } else if s.Pc(tid).Locked? {
      var t := if s.loaded then s.Unlocked(tid, Ready(s.handle.value)) else s.At(tid, Rechecked);
      assert Step(s, Recheck(tid), t);
    } else if s.Pc(tid).Stored? {
      var t := s.Unlocked(tid, Ready(s.handle.value)).(loaded := true);
      assert Step(s, Publish(tid), t);
    }
  }

  /** Once the module is loaded it stays so, and a call gets the handle at its first step, whether or not loading
      is frozen: it takes no lock and loads nothing. */
  lemma WarmCallReturns(states: seq<State>, actions: seq<Action>, m: nat, n: nat, tid: nat, frozen: bool)
    requires Run(states, actions) && m <= n < |actions| && states[m].loaded && actions[n] == Begin(tid, frozen)
    ensures states[m].handle.Some? && states[n + 1] == states[n].At(tid, Ready(states[m].handle.value))
  {
    LoadedStays(states, actions, m, n);
  }

  lemma {:induction false} LoadedStays(states: seq<State>, actions: seq<Action>, m: nat, n: nat)
    requires Run(states, actions) && m <= n < |states| && states[m].loaded
    ensures states[n].loaded && states[n].handle.Some? && states[n].handle == states[m].handle
    decreases n
  {
    RunKeeps(states, actions, m);
    if m < n {
      LoadedStays(states, actions, m, n - 1);
      RunKeeps(states, actions, n - 1);
      RunKeeps(states, actions, n);
      StepKeeps(states[n - 1], actions[n - 1], states[n]);
    }
  }

  /** Only a call that was not frozen and saw nothing loaded goes on to the lock; a frozen one is refused there and
      then. A load that fails leaves everything as it was, the lock free. */
  lemma ColdCall(states: seq<State>, actions: seq<Action>, n: nat, tid: nat)
    requires Run(states, actions) && n < |actions|
    ensures actions[n] == Begin(tid, true) && !states[n].loaded ==> states[n + 1] == states[n].At(tid, Refused)
    ensures actions[n] == Begin(tid, false) && !states[n].loaded ==> states[n + 1] == states[n].At(tid, Cold)
    ensures actions[n] == LoadModule(tid, None) ==>
              var (s, t) := (states[n], states[n + 1]);
              t.loads == s.loads && t.handle == s.handle && !t.loaded && t.owner.None? && t.Pc(tid).Refused?
  {
    RunKeeps(states, actions, n);
  }
}
