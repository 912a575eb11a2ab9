/** Look up, compile, try_emplace (src/triton_jit_function.cpp, lines 95-155): the compiled-kernel cache
    under any number of threads. The mutex is held during each look-up and each insertion, but not
    while compiling, so one request may be compiled more than once. */
module KernelProtocol {
  import KC = KernelCache

  // Any way of filing requests under keys; the source's is KernelCache.KeyText.
  type KeyFn = KC.Request -> string

  // A compiled kernel: which compilation made it, and for which request.
  datatype Kernel = Kernel(id: nat, compiledFor: KC.Request)

  datatype Pc =
    | Idle
    | Looking(r: KC.Request)
    | Missed(r: KC.Request)
    | Compiled(r: KC.Request, k: Kernel)

  // One finished call.
  datatype Answer = Answer(r: KC.Request, k: Kernel)

  datatype State = State(
    threads: map<nat, Pc>, overloads: map<string, Kernel>, compilations: nat, answers: seq<Answer>)
  {
    function Pc(tid: nat): Pc {
      if tid in threads then threads[tid] else Idle
    }

    function At(tid: nat, pc: Pc): State {
      this.(threads := threads[tid := pc])
    }

    function Answering(tid: nat, r: KC.Request, k: Kernel): State {
      At(tid, Idle).(answers := answers + [Answer(r, k)])
    }
  }

  datatype Action =
    | Call(tid: nat, r: KC.Request)   // enters with a key that could be built
    | Find(tid: nat)                  // the first critical section
    | Compile(tid: nat)               // allowed, and Python returns
    | Abandon(tid: nat)               // refused while frozen, or Python raises
    | TryEmplace(tid: nat)            // the second critical section

  function Enabled(s: State, a: Action): bool {
    match a
    case Call(tid, r) => s.Pc(tid).Idle? && !KC.Reserved(r.opts)
    case Find(tid) => s.Pc(tid).Looking?
    case Compile(tid) => s.Pc(tid).Missed?
    case Abandon(tid) => s.Pc(tid).Missed?
    case TryEmplace(tid) => s.Pc(tid).Compiled?
  }

  function DoFind(key: KeyFn, s: State, tid: nat): State
    requires s.Pc(tid).Looking?
  {
    var r := s.Pc(tid).r;
    if key(r) in s.overloads then s.Answering(tid, r, s.overloads[key(r)]) else s.At(tid, Missed(r))
  }

  function DoCompile(s: State, tid: nat): State
    requires s.Pc(tid).Missed?
  {
    var r := s.Pc(tid).r;
    s.At(tid, Compiled(r, Kernel(s.compilations, r))).(compilations := s.compilations + 1)
  }

  // try_emplace: an entry that got there first wins.
  function DoEmplace(key: KeyFn, s: State, tid: nat): State
    requires s.Pc(tid).Compiled?
  {
    var r, k := s.Pc(tid).r, s.Pc(tid).k;
    if key(r) in s.overloads then s.Answering(tid, r, s.overloads[key(r)])
    else s.Answering(tid, r, k).(overloads := s.overloads[key(r) := k])
  }

  function Apply(key: KeyFn, s: State, a: Action): State
    requires Enabled(s, a)
  {
    match a
    case Call(tid, r) => s.At(tid, Looking(r))
    case Find(tid) => DoFind(key, s, tid)
    case Compile(tid) => DoCompile(s, tid)
    case Abandon(tid) => s.At(tid, Idle)
    case TryEmplace(tid) => DoEmplace(key, s, tid)
  }

  ghost predicate Initial(s: State) {
    s.overloads == map[] && s.answers == [] && s.threads == map[]
  }

  // A run of any length and any interleaving.
  ghost predicate Run(key: KeyFn, states: seq<State>, actions: seq<Action>) {
    && |states| == |actions| + 1 && Initial(states[0])
    && forall i :: 0 <= i < |actions| ==>
         Enabled(states[i], actions[i]) && states[i + 1] == Apply(key, states[i], actions[i])
  }

  // ---- what every step keeps

  // Every kernel was compiled for what it is filed or held under, and has its own compilation.
  ghost predicate Sound(key: KeyFn, s: State) {
    && (forall x :: x in s.overloads ==> key(s.overloads[x].compiledFor) == x && s.overloads[x].id < s.compilations)
    && (forall tid :: tid in s.threads && s.threads[tid].Compiled? ==>
          s.threads[tid].k.compiledFor == s.threads[tid].r && s.threads[tid].k.id < s.compilations)
  }

  ghost predicate Distinct(s: State) {
    && (forall x, y :: x in s.overloads && y in s.overloads && s.overloads[x].id == s.overloads[y].id ==> x == y)
    && (forall x, tid :: x in s.overloads && tid in s.threads && s.threads[tid].Compiled? ==>
          s.overloads[x].id != s.threads[tid].k.id)
    && (forall t, u ::
          (&& t in s.threads && u in s.threads && s.threads[t].Compiled? && s.threads[u].Compiled?
           && s.threads[t].k.id == s.threads[u].k.id) ==> t == u)
  }

  // Every answer so far is what the cache still holds for its request.
  ghost predicate Answered(key: KeyFn, s: State) {
    forall i :: 0 <= i < |s.answers| ==>
      key(s.answers[i].r) in s.overloads && s.overloads[key(s.answers[i].r)] == s.answers[i].k
  }

  // Entries are only ever added.
  ghost predicate Grows(s: State, t: State) {
    forall x :: x in s.overloads ==> x in t.overloads && t.overloads[x] == s.overloads[x]
  }

  lemma FindKeeps(key: KeyFn, s: State, tid: nat)
    requires s.Pc(tid).Looking? && Sound(key, s) && Distinct(s) && Answered(key, s)
    ensures var t := DoFind(key, s, tid); Sound(key, t) && Distinct(t) && Answered(key, t) && Grows(s, t)
  {
  }

  lemma CompileKeeps(key: KeyFn, s: State, tid: nat)
    requires s.Pc(tid).Missed? && Sound(key, s) && Distinct(s) && Answered(key, s)
    ensures var t := DoCompile(s, tid); Sound(key, t) && Distinct(t) && Answered(key, t) && Grows(s, t)
  {
  }

  lemma EmplaceKeeps(key: KeyFn, s: State, tid: nat)
    requires s.Pc(tid).Compiled? && Sound(key, s) && Distinct(s) && Answered(key, s)
    ensures var t := DoEmplace(key, s, tid); Sound(key, t) && Answered(key, t) && Grows(s, t)
  {
  }

  lemma EmplaceDistinct(key: KeyFn, s: State, tid: nat)
    requires s.Pc(tid).Compiled? && Distinct(s)
    ensures Distinct(DoEmplace(key, s, tid))
  {
  }

  lemma StepKeeps(key: KeyFn, s: State, a: Action)
    requires Enabled(s, a) && Sound(key, s) && Distinct(s) && Answered(key, s)
    ensures var t := Apply(key, s, a); Sound(key, t) && Distinct(t) && Answered(key, t) && Grows(s, t)
  {
    match a
    case Call(tid, r) =>
    case Find(tid) => FindKeeps(key, s, tid);
    case Compile(tid) => CompileKeeps(key, s, tid);
    case Abandon(tid) =>
    case TryEmplace(tid) =>
      EmplaceKeeps(key, s, tid);
      EmplaceDistinct(key, s, tid);
  }

  lemma {:induction false} RunKeeps(key: KeyFn, states: seq<State>, actions: seq<Action>, n: nat)
    requires Run(key, states, actions) && n < |states|
    ensures Sound(key, states[n]) && Distinct(states[n]) && Answered(key, states[n])
  {
    if n > 0 {
      RunKeeps(key, states, actions, n - 1);
      StepKeeps(key, states[n - 1], actions[n - 1]);
    }
  }

  // ---- cache soundness

  lemma SameKeySameRequest(a: KC.Request, b: KC.Request)
    requires Key()(a) == Key()(b)
    ensures a == b
  {
    KC.KeyInjective(a, b);
  }

  function Key(): (f: KeyFn)
    ensures forall r :: f(r) == KC.KeyText(r)
  {
    r => KC.KeyText(r)
  }

  /** In every interleaving, even when a request is compiled twice: all calls with equal requests get one
      and the same kernel, compiled for exactly that request, and calls with unequal requests never
      share one, not even one compilation. */
  lemma AnswersAgree(states: seq<State>, actions: seq<Action>, n: nat, i: nat, j: nat)
    requires Run(Key(), states, actions) && n < |states|
    requires i < |states[n].answers| && j < |states[n].answers|
    ensures states[n].answers[i].k.compiledFor == states[n].answers[i].r
    ensures states[n].answers[i].r == states[n].answers[j].r <==> states[n].answers[i].k == states[n].answers[j].k
    ensures states[n].answers[i].k.id == states[n].answers[j].k.id ==> states[n].answers[i].r == states[n].answers[j].r
  {
    RunKeeps(Key(), states, actions, n);
    AnswersSeparate(Key(), states[n], i, j);
  }

  lemma AnswersSeparate(key: KeyFn, s: State, i: nat, j: nat)
    requires key == Key() && Sound(key, s) && Distinct(s) && Answered(key, s)
    requires i < |s.answers| && j < |s.answers|
    ensures s.answers[i].k.compiledFor == s.answers[i].r
    ensures s.answers[i].r == s.answers[j].r <==> s.answers[i].k == s.answers[j].k
    ensures s.answers[i].k.id == s.answers[j].k.id ==> s.answers[i].r == s.answers[j].r
  {
    var a, b := s.answers[i], s.answers[j];
    SameKeySameRequest(a.k.compiledFor, a.r);
    SameKeySameRequest(b.k.compiledFor, b.r);
    if a.k.id == b.k.id {
      SameKeySameRequest(a.r, b.r);
    }
  }

  /** A reference handed out stays what it was: later steps neither replace nor remove an entry. */
  lemma {:induction false} EntriesStay(key: KeyFn, states: seq<State>, actions: seq<Action>, m: nat, n: nat)
    requires Run(key, states, actions) && m <= n < |states|
    ensures Grows(states[m], states[n])
    decreases n
  {
    if m < n {
      EntriesStay(key, states, actions, m, n - 1);
      RunKeeps(key, states, actions, n - 1);
      StepKeeps(key, states[n - 1], actions[n - 1]);
    }
  }

  // ---- the look-up

  /** A look-up whose key is filed answers in that very step, with the filed kernel; it compiles and files
      nothing, and the call is over. A thread goes on only if the key was absent. */
  lemma FindAnswers(key: KeyFn, s: State, tid: nat)
    requires s.Pc(tid).Looking?
    ensures var (t, r) := (Apply(key, s, Find(tid)), s.Pc(tid).r);
            && t.overloads == s.overloads && t.compilations == s.compilations
            && (if key(r) in s.overloads
                then t.Pc(tid).Idle? && t.answers == s.answers + [Answer(r, s.overloads[key(r)])]
                else t.Pc(tid) == Missed(r) && t.answers == s.answers)
  {
  }

  /** A call ends with an answer, namely what is filed under its key from then on: what was filed before, or else the
      kernel it compiled itself. Only an abandoned call ends without, and no other step answers anything. */
  lemma EndsWithAnswer(key: KeyFn, s: State, a: Action)
    requires Enabled(s, a)
    ensures var t := Apply(key, s, a);
            if t.Pc(a.tid).Idle? && !a.Abandon? then
              var r := s.Pc(a.tid).r;
              && key(r) in t.overloads && t.answers == s.answers + [Answer(r, t.overloads[key(r)])]
              && (if key(r) in s.overloads then t.overloads == s.overloads
                  else s.Pc(a.tid).Compiled? && t.overloads == s.overloads[key(r) := s.Pc(a.tid).k])
            else t.answers == s.answers && t.overloads == s.overloads
    ensures a.TryEmplace? ==> Apply(key, s, a).Pc(a.tid).Idle?
  {
  }

  // The thread looked r up at step m, found nothing, and has not moved since.
  ghost predicate MissedSince(key: KeyFn, states: seq<State>, actions: seq<Action>, m: nat, n: nat, tid: nat,
                              r: KC.Request)
    requires m < n < |states| && |actions| + 1 == |states|
  {
    && actions[m] == Find(tid) && states[m].Pc(tid) == Looking(r) && key(r) !in states[m].overloads
    && forall i :: m < i <= n ==> states[i].Pc(tid) == Missed(r)
  }

  /** Who is about to compile has looked, during this call, and found the key absent. */
  lemma {:induction false} MissedLooked(key: KeyFn, states: seq<State>, actions: seq<Action>, n: nat, tid: nat)
    returns (m: nat)
    requires Run(key, states, actions) && n < |states| && states[n].Pc(tid).Missed?
    ensures m < n && MissedSince(key, states, actions, m, n, tid, states[n].Pc(tid).r)
  {
    if states[n - 1].Pc(tid).Missed? {
      m := MissedLooked(key, states, actions, n - 1, tid);
    } else {
      m := n - 1;
    }
  }

  // From its call at m on, the thread has not returned before state n.
  ghost predicate StillCalling(states: seq<State>, m: nat, n: nat, tid: nat) {
    forall i :: m < i < n && i < |states| ==> !states[i].Pc(tid).Idle?
  }

  // It waits to look, or has just looked and been answered with k.
  ghost predicate LooksOrHas(s: State, t: State, a: Action, tid: nat, r: KC.Request, k: Kernel) {
    || t.Pc(tid) == Looking(r)
    || (a == Find(tid) && t.Pc(tid).Idle? && t.answers == s.answers + [Answer(r, k)]
        && t.overloads == s.overloads && t.compilations == s.compilations)
  }

  lemma WarmStep(key: KeyFn, s: State, a: Action, tid: nat, r: KC.Request, k: Kernel)
    requires Enabled(s, a) && s.Pc(tid) == Looking(r) && key(r) in s.overloads && s.overloads[key(r)] == k
    ensures LooksOrHas(s, Apply(key, s, a), a, tid, r, k)
  {
  }

  /** A call that begins when an equal request has been answered gets the same kernel from its look-up: however
      others interleave, it never compiles, is never abandoned, and nothing is compiled on its behalf. */
  lemma {:induction false} WarmCallAnswers(key: KeyFn, states: seq<State>, actions: seq<Action>, m: nat, n: nat,
                                           tid: nat, j: nat)
    requires Run(key, states, actions) && m < n < |states| && StillCalling(states, m, n, tid)
    requires j < |states[m].answers| && actions[m] == Call(tid, states[m].answers[j].r)
    ensures var warm := states[m].answers[j];
            LooksOrHas(states[n - 1], states[n], actions[n - 1], tid, warm.r, warm.k)
    decreases n
  {
    var warm := states[m].answers[j];
    RunKeeps(key, states, actions, m);
    if n > m + 1 {
      WarmCallAnswers(key, states, actions, m, n - 1, tid, j);
      EntriesStay(key, states, actions, m, n - 1);
      WarmStep(key, states[n - 1], actions[n - 1], tid, warm.r, warm.k);
    }
  }
}
