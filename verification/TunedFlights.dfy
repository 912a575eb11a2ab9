/** Single flight over runs: one owner per pending key, a resolver that is asked again only after it
    declined or failed, and a way out for every waiter (src/tuned_config.cpp, lines 936-999). */
module TunedFlights {
  import opened KeySchema
  import opened TunedIndex
  import opened TunedTable
  import opened TunedProtocol
  import opened TunedAgreement
  import opened TunedRuns

  /** In every state of every run: a token text is pending exactly while one thread owns it; a waiter's
      promise is closed, or some thread is still going to close it; and everyone who returns through
      one promise, its owner included, returns the same pointer, miss or exception. */
  lemma SingleFlight(states: seq<State>, actions: seq<Action>, i: nat)
    requires Run(states, actions) && Initial(states[0]) && i < |states|
    ensures var s := states[i];
            && (forall text :: text in s.inflight <==> exists t :: OwnerOf(s, t, text))
            && (forall t, u, text :: OwnerOf(s, t, text) && OwnerOf(s, u, text) ==> t == u)
            && (forall t :: t in s.threads && s.threads[t].pc.Waiting? ==>
                  var p := s.threads[t].pc.promise;
                  p < |s.promises| && (s.promises[p].outcome.Some? || exists u :: ResponsibleFor(s, u, p)))
            && (forall t, u :: t in s.threads && u in s.threads && s.threads[t].pc.Done? && s.threads[u].pc.Done?
                               && s.threads[t].pc.origin.Some? && s.threads[t].pc.origin == s.threads[u].pc.origin ==>
                  s.threads[t].pc.outcome == s.threads[u].pc.outcome)
  {
    InitialInv(states[0]);
    RunInv(states, actions);
    var s := states[i];
    forall text | exists t :: OwnerOf(s, t, text)
      ensures text in s.inflight
    {
      var t :| OwnerOf(s, t, text);
      assert Placed(s, s.threads[t].pc);
    }
    forall t, u, text | OwnerOf(s, t, text) && OwnerOf(s, u, text)
      ensures t == u
    {
      SameOwner(s, t, u);
    }
    forall t | t in s.threads
      ensures Placed(s, s.threads[t].pc)
    {
    }
  }

  /** A resolver that declines or throws, and an answer that insert_resolved refuses, leave every
      table as it was and load_mu_ free; the erase that comes next frees the token. */
  lemma FailureCachesNothing(s: State, a: Action, r: Request, pc: Pc)
    requires (a.Hear? || a.Lock? || a.Link?) && r.key.Readable() && Ready(s, a, r, pc) && Sane(s, a.tid, r, pc)
    requires var pc' := NewPc(s, a, r, pc); pc'.Leaving? && (pc'.outcome.Value? ==> pc'.outcome.found.None?)
    ensures var s' := Effect(s, a, r, pc);
            && s'.published == s.published && s'.arenas == s.arenas && s'.history == s.history
            && (Holding(pc) ==> s'.loadLock.None?) && (!Holding(pc) ==> s'.loadLock == s.loadLock)
    ensures var pc' := NewPc(s, a, r, pc);
            && Ready(s, Action.Erase(a.tid), r, pc') && pc'.token == pc.token
            && pc.token.text !in Effect(s, Action.Erase(a.tid), r, pc').inflight
  {
  }

  // ---- asked once

  ghost predicate NotInstalled(s: State, token: Token) {
    forall i :: 0 <= i < |s.calls| && s.calls[i].token == token ==> !s.calls[i].status.Installed?
  }

  // An owner that rechecks has a handle that answers its key, unless no call for its token succeeded.
  ghost predicate SteadyPc(s: State, r: Request, pc: Pc) {
    && (HasToken(pc) ==> Resolvable(r.key) && TokenMatches(s, r.slot, r.key, pc.token))
    && (pc.Rechecking? ==> r.key.Readable() && (Lookup(s.arenas, pc.table, r.key).Some? || NotInstalled(s, pc.token)))
  }

  ghost predicate Calling(s: State, tid: Tid, call: nat) {
    tid in s.threads && InCall(s.threads[tid].pc) && s.threads[tid].pc.call == call
  }

  // Calls for one token come one after the other; only a decline or a failure lets the next one start.
  ghost predicate CallsOk(s: State, slot: Slot) {
    && (forall i :: 0 <= i < |s.calls| && s.calls[i].token.slot == slot && s.calls[i].status.Running? ==>
          exists tid :: Calling(s, tid, i))
    && (forall i :: 0 <= i < |s.calls| && s.calls[i].token.slot == slot && s.calls[i].status.Installed? ==>
          Abs(s, slot, ViewOf(s.calls[i].token)).Some?)
    && (forall i, j :: (&& 0 <= i < j < |s.calls| && s.calls[i].token.slot == slot
                        && s.calls[i].token == s.calls[j].token) ==>
          s.calls[i].status.Declined? || s.calls[i].status.Failed?)
  }

  ghost predicate Steady(s: State, slot: Slot) {
    && (forall tid :: tid in s.threads && s.threads[tid].request.slot == slot ==>
          SteadyPc(s, s.threads[tid].request, s.threads[tid].pc))
    && CallsOk(s, slot)
  }

  lemma ChangeActor(s: State, a: Action)
    requires Enabled(s, a)
    ensures var c := ChangeOf(s, a);
            c.LinkChange? || c.PublishChange? ==>
              !a.Load? && !a.Spawn? && c.r == s.threads[a.tid].request && Owns(s.threads[a.tid].pc)
    ensures ChangeOf(s, a).LoadChange? ==> a.Load? && ChangeOf(s, a).slot == a.slot
  {
  }

  lemma SchemaStays(s: State, a: Action, slot: Slot)
    requires Inv(s) && Enabled(s, a) && slot in s.published && !(a.Load? && a.slot == slot)
    ensures slot in Apply(s, a).published && Apply(s, a).published[slot].schema == s.published[slot].schema
  {
    StepChanges(s, a);
    ChangeActor(s, a);
    PublishedContinues(s, Apply(s, a), ChangeOf(s, a), slot);
  }

  lemma MatchStays(s: State, a: Action, slot: Slot, key: KeyView, token: Token)
    requires Inv(s) && Enabled(s, a) && !(a.Load? && a.slot == slot)
    requires Resolvable(key) && TokenMatches(s, slot, key, token)
    ensures TokenMatches(Apply(s, a), slot, key, token)
  {
    if slot in s.published {
      SchemaStays(s, a, slot);
    }
  }

  // Only a call for the acting thread's own token can succeed.
  lemma NotInstalledBeside(s: State, s': State, tid: Tid, r: Request, pc: Pc, pc': Pc, token: Token)
    requires CallsStep(s, s', tid, r, pc, pc') && NotInstalled(s, token) && CallsOther(s, pc, token)
    ensures NotInstalled(s', token)
  {
  }

  // What thread t is calling for is not what thread u owns.
  ghost predicate CallsOther(s: State, pc: Pc, token: Token) {
    InCall(pc) ==> pc.call < |s.calls| && s.calls[pc.call] == Call(pc.token, Running) && pc.token != token
  }

  lemma OtherToken(s: State, t: Tid, u: Tid)
    requires Flights(s) && Calm(s) && t in s.threads && u in s.threads && t != u && Owns(s.threads[u].pc)
    ensures CallsOther(s, s.threads[t].pc, s.threads[u].pc.token)
  {
    assert Sane(s, t, s.threads[t].request, s.threads[t].pc);
    if InCall(s.threads[t].pc) && s.threads[t].pc.token == s.threads[u].pc.token {
      SameOwner(s, t, u);
    }
  }

  lemma NotInstalledActed(s: State, a: Action, token: Token)
    requires Inv(s) && Enabled(s, a) && !a.Load? && !a.Spawn?
    requires NotInstalled(s, token) && CallsOther(s, s.threads[a.tid].pc, token)
    ensures NotInstalled(Apply(s, a), token)
  {
    ActorCallsStep(s, a);
    var th := s.threads[a.tid];
    NotInstalledBeside(s, Apply(s, a), a.tid, th.request, th.pc, Apply(s, a).threads[a.tid].pc, token);
  }

  lemma CallsUntouched(s: State, a: Action)
    requires Enabled(s, a) && (a.Load? || a.Spawn?)
    ensures Apply(s, a).calls == s.calls
  {
  }

  // Nobody else's step makes a call for an owned token succeed.
  lemma NotInstalledStays(s: State, a: Action, u: Tid)
    requires Inv(s) && Enabled(s, a) && u in s.threads && Owns(s.threads[u].pc)
    requires a.Load? || a.Spawn? || a.tid != u
    requires NotInstalled(s, s.threads[u].pc.token)
    ensures NotInstalled(Apply(s, a), s.threads[u].pc.token)
  {
    if !a.Load? && !a.Spawn? {
      OtherToken(s, a.tid, u);
      NotInstalledActed(s, a, s.threads[u].pc.token);
    } else {
      CallsUntouched(s, a);
    }
  }

  lemma SteadyOther(s: State, a: Action, slot: Slot, u: Tid)
    requires Inv(s) && Enabled(s, a) && Steady(s, slot) && !(a.Load? && a.slot == slot)
    requires u in s.threads && s.threads[u].request.slot == slot
    requires a.Load? || a.Spawn? || a.tid != u
    ensures SteadyPc(Apply(s, a), s.threads[u].request, s.threads[u].pc)
  {
    var r, pc := s.threads[u].request, s.threads[u].pc;
    assert SteadyPc(s, r, pc) && HandleOk(s, r, pc);
    if HasToken(pc) {
      MatchStays(s, a, slot, r.key, pc.token);
    }
    if pc.Rechecking? {
      if Lookup(s.arenas, pc.table, r.key).Some? {
        HandleStep(s, a, slot, pc.table.value, r.key);
      } else {
        NotInstalledStays(s, a, u);
      }
    }
  }

  lemma TokenCarried(s: State, a: Action, r: Request, pc: Pc)
    requires r.key.Readable() && Ready(s, a, r, pc) && !a.MakeToken?
    ensures var pc' := NewPc(s, a, r, pc); HasToken(pc') ==> HasToken(pc) && pc'.token == pc.token
  {
  }

  // The acting thread's new position, before anything else changes.
  lemma SteadyNewPc(s: State, a: Action, r: Request, pc: Pc)
    requires r.key.Readable() && Ready(s, a, r, pc) && Sane(s, a.tid, r, pc) && SteadyPc(s, r, pc)
    requires a.ReadAgain? ==> Abs(s, r.slot, r.key).Some? || NotInstalled(s, pc.token)
    ensures SteadyPc(s, r, NewPc(s, a, r, pc))
    ensures NewPc(s, a, r, pc).Rechecking? ==> a.ReadAgain?
  {
    if a.MakeToken? {
      SettledToken(s, r);
    } else {
      TokenCarried(s, a, r, pc);
      NoOtherRecheck(s, a, r, pc);
    }
  }

  lemma NoOtherRecheck(s: State, a: Action, r: Request, pc: Pc)
    requires r.key.Readable() && Ready(s, a, r, pc) && !a.MakeToken?
    ensures NewPc(s, a, r, pc).Rechecking? ==> a.ReadAgain? && NewPc(s, a, r, pc).table == Current(s, r.slot)
  {
  }

  // An owner that reads the snapshot finds what earlier calls for its token installed.
  lemma InstalledIsSeen(s: State, slot: Slot, tid: Tid)
    requires Inv(s) && Steady(s, slot) && tid in s.threads && s.threads[tid].request.slot == slot
    requires s.threads[tid].pc.Owning? && s.threads[tid].request.key.Readable()
    ensures Abs(s, slot, s.threads[tid].request.key).Some? || NotInstalled(s, s.threads[tid].pc.token)
  {
    var r, pc := s.threads[tid].request, s.threads[tid].pc;
    assert SteadyPc(s, r, pc) && Sane(s, tid, r, pc);
    TokenAnswers(s, slot, r.key, pc.token);
  }

  lemma SteadyActor(s: State, a: Action, slot: Slot)
    requires Inv(s) && Enabled(s, a) && Steady(s, slot) && !a.Load? && !a.Spawn?
    requires s.threads[a.tid].request.slot == slot
    ensures SteadyPc(Apply(s, a), s.threads[a.tid].request, Apply(s, a).threads[a.tid].pc)
  {
    var r, pc := s.threads[a.tid].request, s.threads[a.tid].pc;
    assert SteadyPc(s, r, pc) && Sane(s, a.tid, r, pc);
    if a.ReadAgain? {
      InstalledIsSeen(s, slot, a.tid);
    }
    SteadyNewPc(s, a, r, pc);
    ApplyView(s, a);
    SteadyMoved(s, a, slot, r, NewPc(s, a, r, pc));
  }

  lemma SteadyMoved(s: State, a: Action, slot: Slot, r: Request, pc': Pc)
    requires Inv(s) && Enabled(s, a) && !a.Load? && r.slot == slot && SteadyPc(s, r, pc')
    requires pc'.Rechecking? ==> a.ReadAgain?
    ensures SteadyPc(Apply(s, a), r, pc')
  {
    if HasToken(pc') {
      MatchStays(s, a, slot, r.key, pc'.token);
    }
    if a.ReadAgain? {
      TablesElsewhere(s, a);
    }
  }

  // A new call starts only when every earlier one for its token declined or failed.
  lemma NewCallOk(s: State, slot: Slot, tid: Tid, i: nat)
    requires Inv(s) && Steady(s, slot) && tid in s.threads && s.threads[tid].request.slot == slot
    requires s.threads[tid].pc.Rechecking? && s.threads[tid].request.key.Readable()
    requires Lookup(s.arenas, s.threads[tid].pc.table, s.threads[tid].request.key).None?
    requires i < |s.calls| && s.calls[i].token == s.threads[tid].pc.token
    ensures s.calls[i].status.Declined? || s.calls[i].status.Failed?
  {
    var r, pc := s.threads[tid].request, s.threads[tid].pc;
    assert SteadyPc(s, r, pc) && Sane(s, tid, r, pc);
    if s.calls[i].status.Running? {
      RunnerIsOwner(s, slot, tid, i);
      assert false;
    }
  }

  // A running call for an owned token is the owner's.
  lemma RunnerIsOwner(s: State, slot: Slot, tid: Tid, i: nat)
    requires Inv(s) && CallsOk(s, slot) && tid in s.threads && Owns(s.threads[tid].pc)
    requires i < |s.calls| && s.calls[i].token == s.threads[tid].pc.token && s.calls[i].token.slot == slot
    requires s.calls[i].status.Running?
    ensures InCall(s.threads[tid].pc)
  {
    var u :| Calling(s, u, i);
    assert Sane(s, u, s.threads[u].request, s.threads[u].pc);
    SameOwner(s, u, tid);
  }

  // How the list of calls changes: a new running call, or a verdict on the acting thread's own call.
  ghost predicate CallsStep(s: State, s': State, tid: Tid, r: Request, pc: Pc, pc': Pc) {
    || (s'.calls == s.calls && (InCall(pc) ==> InCall(pc') && pc'.call == pc.call))
    || (&& pc.Rechecking? && r.key.Readable() && Lookup(s.arenas, pc.table, r.key).None?
        && s'.calls == s.calls + [Call(pc.token, Running)] && InCall(pc') && pc'.call == |s.calls|)
    || (InCall(pc) && pc.call < |s.calls| && exists status :: RatedAs(s.calls, s'.calls, pc.call, status, pc'))
  }

  ghost predicate RatedAs(calls: seq<Call>, calls': seq<Call>, call: nat, status: Status, pc': Pc) {
    && calls' == Rated(calls, call, status) && !status.Running?
    && (status.Installed? ==> pc'.Leaving? && pc'.outcome.Value? && pc'.outcome.found.Some?)
  }

  lemma CallsStepHolds(s: State, a: Action, r: Request, pc: Pc)
    requires r.key.Readable() && Ready(s, a, r, pc) && Sane(s, a.tid, r, pc)
    ensures CallsStep(s, Effect(s, a, r, pc), a.tid, r, pc, NewPc(s, a, r, pc))
  {
    var calls', pc' := Effect(s, a, r, pc).calls, NewPc(s, a, r, pc);
    if a.Publish? || (a.Link? && Judge(s, r, pc.resolved).Already?) {
      assert RatedAs(s.calls, calls', pc.call, Installed, pc');
    } else if (a.Link? && Judge(s, r, pc.resolved).Conflict?) || (a.Lock? && Objection(r, pc.resolved).Some?) {
      assert RatedAs(s.calls, calls', pc.call, Failed, pc');
    } else if a.Hear? && a.reply.Throws? {
      assert RatedAs(s.calls, calls', pc.call, Failed, pc');
    } else if a.Hear? && a.reply.Declines? {
      assert RatedAs(s.calls, calls', pc.call, Declined, pc');
    }
  }

  // Running calls keep their thread, and the order of calls is kept, whatever step was made.
  lemma CallOrderKept(s: State, s': State, slot: Slot, tid: Tid, r: Request, pc: Pc, pc': Pc)
    requires CallsOk(s, slot) && CallsStep(s, s', tid, r, pc, pc')
    requires tid in s.threads && s.threads[tid] == Thread(r, pc) && s'.threads == s.threads[tid := Thread(r, pc')]
    requires InCall(pc) ==> pc.call < |s.calls| && s.calls[pc.call] == Call(pc.token, Running)
    requires pc.Rechecking? && r.key.Readable() && Lookup(s.arenas, pc.table, r.key).None? && pc.token.slot == slot ==>
               forall i :: 0 <= i < |s.calls| && s.calls[i].token == pc.token ==>
                   s.calls[i].status.Declined? || s.calls[i].status.Failed?
    ensures forall i, j :: (&& 0 <= i < j < |s'.calls| && s'.calls[i].token.slot == slot
                            && s'.calls[i].token == s'.calls[j].token) ==>
              s'.calls[i].status.Declined? || s'.calls[i].status.Failed?
  {
  }

  lemma RunningCallsKept(s: State, s': State, slot: Slot, tid: Tid, r: Request, pc: Pc, pc': Pc)
    requires CallsOk(s, slot) && CallsStep(s, s', tid, r, pc, pc')
    requires tid in s.threads && s.threads[tid] == Thread(r, pc) && s'.threads == s.threads[tid := Thread(r, pc')]
    requires InCall(pc) ==> pc.call < |s.calls| && s.calls[pc.call] == Call(pc.token, Running)
    ensures forall i :: 0 <= i < |s'.calls| && s'.calls[i].token.slot == slot && s'.calls[i].status.Running? ==>
              exists t :: Calling(s', t, i)
  {
    forall i | 0 <= i < |s'.calls| && s'.calls[i].token.slot == slot && s'.calls[i].status.Running?
      ensures exists t :: Calling(s', t, i)
    {
      if i == |s.calls| {
        assert Calling(s', tid, i);
      } else {
        var t :| Calling(s, t, i);
        assert Calling(s', t, i);
      }
    }
  }

  lemma InstalledBy(s: State, a: Action, r: Request, pc: Pc)
    requires r.key.Readable() && Ready(s, a, r, pc) && InCall(pc)
    requires var pc' := NewPc(s, a, r, pc); pc'.Leaving? && pc'.outcome.Value? && pc'.outcome.found.Some?
    ensures a.Publish? || (a.Link? && Judge(s, r, pc.resolved).Already? && Abs(s, r.slot, r.key).Some?)
  {
  }

  // A call rated Installed left an answer for its key.
  lemma InstalledAnswers(s: State, a: Action)
    requires Inv(s) && Enabled(s, a) && !a.Load? && !a.Spawn? && InCall(s.threads[a.tid].pc)
    requires var pc' := Apply(s, a).threads[a.tid].pc; pc'.Leaving? && pc'.outcome.Value? && pc'.outcome.found.Some?
    ensures s.threads[a.tid].request.key.Readable()
    ensures Abs(Apply(s, a), s.threads[a.tid].request.slot, s.threads[a.tid].request.key).Some?
  {
    var r, pc := s.threads[a.tid].request, s.threads[a.tid].pc;
    InstalledBy(s, a, r, pc);
    StepChanges(s, a);
    if a.Publish? {
      assert SameNormalKey(pc.next.schema, r.key, r.key);
    } else {
      AbsStep(s, Apply(s, a), ChangeOf(s, a), r.slot, r.key);
    }
  }

  lemma OldCallAnswers(s: State, a: Action, slot: Slot, token: Token)
    requires Inv(s) && Enabled(s, a) && !(a.Load? && a.slot == slot) && Abs(s, slot, ViewOf(token)).Some?
    ensures Abs(Apply(s, a), slot, ViewOf(token)).Some?
  {
    StepChanges(s, a);
    ChangeActor(s, a);
    AbsStep(s, Apply(s, a), ChangeOf(s, a), slot, ViewOf(token));
  }

  lemma OwnCallAnswers(s: State, a: Action, slot: Slot)
    requires Inv(s) && Enabled(s, a) && Steady(s, slot) && !a.Load? && !a.Spawn?
    requires InCall(s.threads[a.tid].pc) && s.threads[a.tid].pc.token.slot == slot
    requires var pc' := Apply(s, a).threads[a.tid].pc; pc'.Leaving? && pc'.outcome.Value? && pc'.outcome.found.Some?
    ensures Abs(Apply(s, a), slot, ViewOf(s.threads[a.tid].pc.token)).Some?
  {
    var r, pc := s.threads[a.tid].request, s.threads[a.tid].pc;
    assert Sane(s, a.tid, r, pc) && SteadyPc(s, r, pc);
    MatchStays(s, a, slot, r.key, pc.token);
    InstalledAnswers(s, a);
    TokenAnswers(Apply(s, a), slot, r.key, pc.token);
  }

  // A call is either as it was, or the acting thread's own and now answered.
  lemma NewlyInstalled(s: State, s': State, tid: Tid, r: Request, pc: Pc, pc': Pc, i: nat)
    requires CallsStep(s, s', tid, r, pc, pc') && i < |s'.calls| && s'.calls[i].status.Installed?
    requires InCall(pc) ==> pc.call < |s.calls| && s.calls[pc.call] == Call(pc.token, Running)
    ensures || (i < |s.calls| && s'.calls[i] == s.calls[i])
            || (&& InCall(pc) && s'.calls[i].token == pc.token
                && pc'.Leaving? && pc'.outcome.Value? && pc'.outcome.found.Some?)
  {
  }

  lemma InstalledCallsKept(s: State, a: Action, slot: Slot, i: nat)
    requires Inv(s) && Enabled(s, a) && Steady(s, slot) && !a.Load? && !a.Spawn?
    requires i < |Apply(s, a).calls| && Apply(s, a).calls[i].token.slot == slot && Apply(s,
                                                                                         a).calls[i].status.Installed?
    ensures Abs(Apply(s, a), slot, ViewOf(Apply(s, a).calls[i].token)).Some?
  {
    ActorCallsStep(s, a);
    NewlyInstalled(s, Apply(s, a), a.tid, s.threads[a.tid].request, s.threads[a.tid].pc, Apply(s,
        a).threads[a.tid].pc, i);
    if i < |s.calls| && Apply(s, a).calls[i] == s.calls[i] {
      OldCallAnswers(s, a, slot, s.calls[i].token);
    } else {
      OwnCallAnswers(s, a, slot);
    }
  }

  lemma ActorCallsStep(s: State, a: Action)
    requires Inv(s) && Enabled(s, a) && !a.Load? && !a.Spawn?
    ensures CallsStep(s, Apply(s, a), a.tid, s.threads[a.tid].request, s.threads[a.tid].pc, Apply(s,
              a).threads[a.tid].pc)
    ensures Sane(s, a.tid, s.threads[a.tid].request, s.threads[a.tid].pc)
  {
    CallsStepHolds(s, a, s.threads[a.tid].request, s.threads[a.tid].pc);
  }

  lemma NewCallsOk(s: State, slot: Slot, tid: Tid)
    requires Inv(s) && Steady(s, slot) && tid in s.threads && s.threads[tid].pc.Rechecking?
    requires s.threads[tid].pc.token.slot == slot && s.threads[tid].request.key.Readable()
    requires Lookup(s.arenas, s.threads[tid].pc.table, s.threads[tid].request.key).None?
    ensures forall i :: 0 <= i < |s.calls| && s.calls[i].token == s.threads[tid].pc.token ==>
              s.calls[i].status.Declined? || s.calls[i].status.Failed?
  {
    var r, pc := s.threads[tid].request, s.threads[tid].pc;
    assert Sane(s, tid, r, pc) && SteadyPc(s, r, pc);
    forall i | 0 <= i < |s.calls| && s.calls[i].token == pc.token
      ensures s.calls[i].status.Declined? || s.calls[i].status.Failed?
    {
      NewCallOk(s, slot, tid, i);
    }
  }

  lemma CallsKeptActor(s: State, s': State, slot: Slot, tid: Tid, r: Request, pc: Pc, pc': Pc)
    requires Inv(s) && Steady(s, slot) && CallsStep(s, s', tid, r, pc, pc') && Sane(s, tid, r, pc)
    requires tid in s.threads && s.threads[tid] == Thread(r, pc) && s'.threads == s.threads[tid := Thread(r, pc')]
    requires forall i :: 0 <= i < |s'.calls| && s'.calls[i].token.slot == slot && s'.calls[i].status.Installed? ==>
               Abs(s', slot, ViewOf(s'.calls[i].token)).Some?
    ensures CallsOk(s', slot)
  {
    if pc.Rechecking? && Lookup(s.arenas, pc.table, r.key).None? && pc.token.slot == slot {
      NewCallsOk(s, slot, tid);
    }
    CallOrderKept(s, s', slot, tid, r, pc, pc');
    RunningCallsKept(s, s', slot, tid, r, pc, pc');
  }

  lemma CallsKeptArrival(s: State, s': State, slot: Slot)
    requires CallsOk(s, slot) && s'.calls == s.calls
    requires forall t :: t in s.threads ==> t in s'.threads && s'.threads[t] == s.threads[t]
    requires forall i :: 0 <= i < |s'.calls| && s'.calls[i].token.slot == slot && s'.calls[i].status.Installed? ==>
               Abs(s', slot, ViewOf(s'.calls[i].token)).Some?
    ensures CallsOk(s', slot)
  {
    forall i | 0 <= i < |s.calls| && s.calls[i].token.slot == slot && s.calls[i].status.Running?
      ensures exists t :: Calling(s', t, i)
    {
      var t :| Calling(s, t, i);
      assert Calling(s', t, i);
    }
  }

  lemma CallsKept(s: State, a: Action, slot: Slot)
    requires Inv(s) && Enabled(s, a) && Steady(s, slot) && !(a.Load? && a.slot == slot)
    ensures CallsOk(Apply(s, a), slot)
  {
    var s' := Apply(s, a);
    if !a.Load? && !a.Spawn? {
      ActorCallsStep(s, a);
    }
    forall i | 0 <= i < |s'.calls| && s'.calls[i].token.slot == slot && s'.calls[i].status.Installed?
      ensures Abs(s', slot, ViewOf(s'.calls[i].token)).Some?
    {
      if a.Load? || a.Spawn? {
        OldCallAnswers(s, a, slot, s.calls[i].token);
      } else {
        InstalledCallsKept(s, a, slot, i);
      }
    }
    if a.Load? || a.Spawn? {
      CallsKeptArrival(s, s', slot);
    } else {
      CallsKeptActor(s, s', slot, a.tid, s.threads[a.tid].request, s.threads[a.tid].pc, s'.threads[a.tid].pc);
    }
  }

  lemma SteadyThread(s: State, a: Action, slot: Slot, tid: Tid)
    requires Inv(s) && Enabled(s, a) && Steady(s, slot) && !(a.Load? && a.slot == slot)
    requires tid in Apply(s, a).threads && Apply(s, a).threads[tid].request.slot == slot
    ensures SteadyPc(Apply(s, a), Apply(s, a).threads[tid].request, Apply(s, a).threads[tid].pc)
  {
    if a.Load? || a.Spawn? || a.tid != tid {
      ThreadAfter(s, a, tid);
      if tid in s.threads {
        SteadyOther(s, a, slot, tid);
      }
    } else {
      ApplyView(s, a);
      SteadyActor(s, a, slot);
    }
  }

  lemma SteadyKept(s: State, a: Action, slot: Slot)
    requires Inv(s) && Enabled(s, a) && Steady(s, slot) && !(a.Load? && a.slot == slot)
    ensures Steady(Apply(s, a), slot)
  {
    CallsKept(s, a, slot);
    var s' := Apply(s, a);
    forall tid | tid in s'.threads && s'.threads[tid].request.slot == slot
      ensures SteadyPc(s', s'.threads[tid].request, s'.threads[tid].pc)
    {
      SteadyThread(s, a, slot, tid);
    }
  }

  lemma {:induction false} SteadyRun(states: seq<State>, actions: seq<Action>, slot: Slot)
    requires Run(states, actions) && Inv(states[0]) && Steady(states[0], slot) && NoLoad(actions, slot)
    ensures Steady(states[|actions|], slot)
  {
    if |actions| > 0 {
      var n := |actions| - 1;
      RunPrefix(states, actions);
      SteadyRun(states[..n + 1], actions[..n], slot);
      RunInv(states, actions);
      SteadyKept(states[n], actions[n], slot);
    }
  }

  /** Asked once. Over any run without a load of the kernel, the resolver is called for a token only after
      every earlier call for that token declined or failed: never twice at a time, and never again after
      a success. */
  lemma ResolverAskedOnce(states: seq<State>, actions: seq<Action>, slot: Slot, i: nat, j: nat)
    requires Run(states, actions) && Inv(states[0]) && Untouched(states[0], slot) && NoLoad(actions, slot)
    requires var calls := states[|actions|].calls;
             i < j < |calls| && calls[i].token.slot == slot && calls[i].token == calls[j].token
    ensures states[|actions|].calls[i].status.Declined? || states[|actions|].calls[i].status.Failed?
  {
    SteadyRun(states, actions, slot);
  }

  // ---- once the schema is bound, tokens hold normalised keys

  // The token is printed from a normalised key of the kernel's schema.
  ghost predicate NormalToken(schema: Schema, token: Token) {
    && token == TokenOf(token.slot, token.dims, token.dtypes)
    && ViewOf(token).Fits(schema) && Normalize(schema.Strategies(), token.dims) == token.dims
  }

  ghost predicate Normal(s: State, slot: Slot) {
    && slot in s.published
    && (forall tid :: tid in s.threads && s.threads[tid].request.slot == slot && HasToken(s.threads[tid].pc) ==>
          NormalToken(s.published[slot].schema, s.threads[tid].pc.token))
    && (forall i :: 0 <= i < |s.calls| && s.calls[i].token.slot == slot ==>
          NormalToken(s.published[slot].schema, s.calls[i].token))
  }

  lemma NormalTokenMade(s: State, r: Request)
    requires Resolvable(r.key) && r.slot in s.published && TokenPc(s, r).Bound?
    ensures NormalToken(s.published[r.slot].schema, TokenPc(s, r).token)
  {
    NormalizeSeqIdempotent(s.published[r.slot].schema.Strategies(), r.key.Dims());
  }

  lemma NormalThread(s: State, a: Action, slot: Slot, tid: Tid)
    requires Inv(s) && Enabled(s, a) && Normal(s, slot) && !(a.Load? && a.slot == slot)
    requires tid in Apply(s, a).threads && Apply(s, a).threads[tid].request.slot == slot
    requires HasToken(Apply(s, a).threads[tid].pc)
    ensures NormalToken(s.published[slot].schema, Apply(s, a).threads[tid].pc.token)
  {
    if a.Load? || a.Spawn? || a.tid != tid {
      ThreadAfter(s, a, tid);
      if tid !in s.threads {
        NewcomerHasNone(s, a);
      }
    } else {
      NormalActor(s, a, slot);
    }
  }

  lemma NewcomerHasNone(s: State, a: Action)
    requires Enabled(s, a) && a.Spawn?
    ensures a.tid in Apply(s, a).threads && !HasToken(Apply(s, a).threads[a.tid].pc)
  {
  }

  lemma NormalActor(s: State, a: Action, slot: Slot)
    requires Enabled(s, a) && Normal(s, slot) && !a.Load? && !a.Spawn? && s.threads[a.tid].request.slot == slot
    requires HasToken(Apply(s, a).threads[a.tid].pc)
    ensures NormalToken(s.published[slot].schema, Apply(s, a).threads[a.tid].pc.token)
  {
    ApplyView(s, a);
    NormalNewPc(s, a, s.threads[a.tid].request, s.threads[a.tid].pc);
  }

  // Tokens are made once, and carried along.
  lemma NormalNewPc(s: State, a: Action, r: Request, pc: Pc)
    requires r.key.Readable() && Ready(s, a, r, pc) && r.slot in s.published
    requires HasToken(pc) ==> NormalToken(s.published[r.slot].schema, pc.token)
    ensures HasToken(NewPc(s, a, r, pc)) ==> NormalToken(s.published[r.slot].schema, NewPc(s, a, r, pc).token)
  {
    if a.MakeToken? {
      if TokenPc(s, r).Bound? {
        NormalTokenMade(s, r);
      }
    } else {
      TokenCarried(s, a, r, pc);
    }
  }

  lemma StepTokens(s: State, s': State, tid: Tid, r: Request, pc: Pc, pc': Pc, i: nat)
    requires CallsStep(s, s', tid, r, pc, pc') && i < |s'.calls|
    ensures || (i < |s.calls| && s'.calls[i].token == s.calls[i].token)
            || (HasToken(pc) && s'.calls[i].token == pc.token)
  {
  }

  // Every call was for the token of a thread, and keeps it.
  lemma CallTokens(s: State, a: Action, i: nat)
    requires Inv(s) && Enabled(s, a) && !a.Load? && !a.Spawn? && i < |Apply(s, a).calls|
    ensures || (i < |s.calls| && Apply(s, a).calls[i].token == s.calls[i].token)
            || (HasToken(s.threads[a.tid].pc) && Apply(s, a).calls[i].token == s.threads[a.tid].pc.token)
  {
    ActorCallsStep(s, a);
    StepTokens(s, Apply(s, a), a.tid, s.threads[a.tid].request, s.threads[a.tid].pc, Apply(s, a).threads[a.tid].pc, i);
  }

  lemma NormalKept(s: State, a: Action, slot: Slot)
    requires Inv(s) && Enabled(s, a) && Normal(s, slot) && !(a.Load? && a.slot == slot)
    ensures Normal(Apply(s, a), slot)
  {
    SchemaStays(s, a, slot);
    forall tid | tid in Apply(s, a).threads && Apply(s, a).threads[tid].request.slot == slot
                 && HasToken(Apply(s, a).threads[tid].pc)
      ensures NormalToken(s.published[slot].schema, Apply(s, a).threads[tid].pc.token)
    {
      NormalThread(s, a, slot, tid);
    }
    forall i | 0 <= i < |Apply(s, a).calls| && Apply(s, a).calls[i].token.slot == slot
      ensures NormalToken(s.published[slot].schema, Apply(s, a).calls[i].token)
    {
      NormalCall(s, a, slot, i);
    }
  }

  lemma NormalCall(s: State, a: Action, slot: Slot, i: nat)
    requires Inv(s) && Enabled(s, a) && Normal(s, slot)
    requires i < |Apply(s, a).calls| && Apply(s, a).calls[i].token.slot == slot
    ensures NormalToken(s.published[slot].schema, Apply(s, a).calls[i].token)
  {
    if !a.Load? && !a.Spawn? {
      CallTokens(s, a, i);
      if !(i < |s.calls| && Apply(s, a).calls[i].token == s.calls[i].token) {
        assert Sane(s, a.tid, s.threads[a.tid].request, s.threads[a.tid].pc);
      }
    }
  }

  lemma {:induction false} NormalRun(states: seq<State>, actions: seq<Action>, slot: Slot)
    requires Run(states, actions) && Inv(states[0]) && Normal(states[0], slot) && NoLoad(actions, slot)
    ensures Normal(states[|actions|], slot)
  {
    if |actions| > 0 {
      var n := |actions| - 1;
      RunPrefix(states, actions);
      NormalRun(states[..n + 1], actions[..n], slot);
      RunInv(states, actions);
      NormalKept(states[n], actions[n], slot);
    }
  }

  /** So if the kernel's schema is bound before the first call for it, the resolver is asked once per
      normalised key, in the same sense. */
  lemma AskedOncePerKey(states: seq<State>, actions: seq<Action>, slot: Slot, i: nat, j: nat)
    requires Run(states, actions) && Inv(states[0]) && Untouched(states[0], slot) && NoLoad(actions, slot)
    requires slot in states[0].published && slot in states[|actions|].published
    requires var s := states[|actions|];
             && i < j < |s.calls| && s.calls[i].token.slot == slot && s.calls[j].token.slot == slot
             && SameNormalKey(s.published[slot].schema, ViewOf(s.calls[i].token), ViewOf(s.calls[j].token))
    ensures states[|actions|].calls[i].status.Declined? || states[|actions|].calls[i].status.Failed?
  {
    NormalRun(states, actions, slot);
    ResolverAskedOnce(states, actions, slot, i, j);
  }

  // ---- nobody waits for ever

  function Distance(pc: Pc): nat {
    match pc
    case Owning(_, _) => 8
    case Rechecking(_, _, _) => 7
    case Asking(_, _, _) => 6
    case Answered(_, _, _, _) => 5
    case Locked(_, _, _, _) => 4
    case Linked(_, _, _, _, _) => 3
    case Leaving(_, _, _) => 2
    case Fulfilling(_, _, _) => 1
    case _ => 0
  }

  // What load_mu_'s holder still has to do, if that is another thread.
  ghost function HolderWork(s: State, owner: Tid): nat {
    if s.loadLock.Some? && s.loadLock.value != owner && s.loadLock.value in s.threads
       && Holding(s.threads[s.loadLock.value].pc)
    then Distance(s.threads[s.loadLock.value].pc) - 2 else 0
  }

  // How far the owner is from closing its promise, counting whoever keeps it off load_mu_.
  ghost function Remaining(s: State, owner: Tid): nat
    requires owner in s.threads
  {
    3 * Distance(s.threads[owner].pc) + HolderWork(s, owner)
  }

  ghost predicate Blocked(s: State, r: Request, pc: Pc) {
    pc.Answered? && s.loadLock.Some? && Objection(r, pc.resolved).None?
  }

  function OwnAction(pc: Pc, tid: Tid, reply: Reply): Action {
    match pc
    case Owning(_, _) => Action.ReadAgain(tid)
    case Rechecking(_, _, _) => Action.ScanAgain(tid)
    case Asking(_, _, _) => Action.Hear(tid, reply)
    case Answered(_, _, _, _) => Action.Lock(tid)
    case Locked(_, _, _, _) => Action.Link(tid)
    case Linked(_, _, _, _, _) => Action.Publish(tid)
    case Leaving(_, _, _) => Action.Erase(tid)
    case _ => Action.Fulfil(tid)
  }

  lemma OwnReady(s: State, tid: Tid, r: Request, pc: Pc, reply: Reply)
    requires Sane(s, tid, r, pc) && Responsible(pc) && pc.promise < |s.promises| && !Blocked(s, r, pc)
    ensures var a := OwnAction(pc, tid, reply);
            Ready(s, a, r, pc) && !a.Load? && !a.Spawn? && a.tid == tid && (a.Fulfil? <==> pc.Fulfilling?)
  {
  }

  lemma OwnEnabled(s: State, tid: Tid, reply: Reply)
    requires Inv(s) && tid in s.threads && Responsible(s.threads[tid].pc)
    requires !Blocked(s, s.threads[tid].request, s.threads[tid].pc)
    ensures var a := OwnAction(s.threads[tid].pc, tid, reply);
            Enabled(s, a) && !a.Load? && !a.Spawn? && a.tid == tid && (a.Fulfil? <==> s.threads[tid].pc.Fulfilling?)
    ensures Sane(s, tid, s.threads[tid].request, s.threads[tid].pc)
  {
    assert Placed(s, s.threads[tid].pc);
    OwnReady(s, tid, s.threads[tid].request, s.threads[tid].pc, reply);
  }

  // Every step of a responsible thread brings it closer to its end.
  lemma Advances(s: State, a: Action, r: Request, pc: Pc)
    requires r.key.Readable() && Ready(s, a, r, pc) && Responsible(pc) && !a.Fulfil?
    ensures var pc' := NewPc(s, a, r, pc);
            Responsible(pc') && pc'.promise == pc.promise && Distance(pc') < Distance(pc)
  {
  }

  lemma HolderStep(s: State, a: Action, r: Request, pc: Pc)
    requires r.key.Readable() && Ready(s, a, r, pc) && Holding(pc)
    ensures var pc' := NewPc(s, a, r, pc);
            if Holding(pc') then Effect(s, a, r, pc).loadLock == s.loadLock && Distance(pc') < Distance(pc)
            else Effect(s, a, r, pc).loadLock.None?
  {
  }

  lemma OwnerDrops(s: State, s': State, owner: Tid, pc': Pc)
    requires owner in s.threads && s'.threads == s.threads[owner := s.threads[owner].(pc := pc')]
    requires Distance(pc') < Distance(s.threads[owner].pc)
    ensures Remaining(s', owner) < Remaining(s, owner)
  {
    assert HolderWork(s', owner) <= 2;
  }

  lemma HolderDrops(s: State, s': State, owner: Tid, holder: Tid, pc': Pc)
    requires owner in s.threads && holder in s.threads && owner != holder
    requires s.loadLock == Some(holder) && Holding(s.threads[holder].pc)
    requires s'.threads == s.threads[holder := s.threads[holder].(pc := pc')]
    requires if Holding(pc') then s'.loadLock == s.loadLock && Distance(pc') < Distance(s.threads[holder].pc)
               else s'.loadLock.None?
    ensures Remaining(s', owner) < Remaining(s, owner)
  {
  }

  // The owner moves itself.
  lemma OwnerMoves(s: State, owner: Tid, a: Action)
    requires Inv(s) && owner in s.threads && Responsible(s.threads[owner].pc)
    requires Enabled(s, a) && !a.Load? && !a.Spawn? && !a.Fulfil? && a.tid == owner
    ensures var s' := Apply(s, a);
            && owner in s'.threads && Responsible(s'.threads[owner].pc)
            && s'.threads[owner].pc.promise == s.threads[owner].pc.promise
            && Remaining(s', owner) < Remaining(s, owner)
  {
    var r, pc := s.threads[owner].request, s.threads[owner].pc;
    ApplyView(s, a);
    Advances(s, a, r, pc);
    OwnerDrops(s, Apply(s, a), owner, NewPc(s, a, r, pc));
  }

  lemma OtherHolds(s: State, owner: Tid)
    requires Inv(s) && owner in s.threads && Blocked(s, s.threads[owner].request, s.threads[owner].pc)
    ensures s.loadLock.Some? && s.loadLock.value in s.threads && s.loadLock.value != owner
    ensures Holding(s.threads[s.loadLock.value].pc)
  {
  }

  // The owner has to wait; the lock's holder moves.
  lemma HolderMoves(s: State, owner: Tid, holder: Tid, a: Action)
    requires Inv(s) && owner in s.threads && holder in s.threads && holder != owner
    requires s.loadLock == Some(holder) && Holding(s.threads[holder].pc)
    requires Enabled(s, a) && !a.Load? && !a.Spawn? && a.tid == holder
    ensures var s' := Apply(s, a);
            owner in s'.threads && s'.threads[owner] == s.threads[owner] && Remaining(s', owner) < Remaining(s, owner)
  {
    var r, pc := s.threads[holder].request, s.threads[holder].pc;
    ApplyView(s, a);
    HolderStep(s, a, r, pc);
    HolderDrops(s, Apply(s, a), owner, holder, NewPc(s, a, r, pc));
  }

  // Somebody else's step, seen from an owner: all it can do is take load_mu_.
  lemma RemainingBeside(s: State, s': State, owner: Tid, tid: Tid, pc': Pc)
    requires owner in s.threads && tid in s.threads && tid != owner
    requires s'.threads == s.threads[tid := s.threads[tid].(pc := pc')]
    requires LockMoves(s, tid, s.threads[tid].pc, s'.loadLock, pc')
    requires Holding(s.threads[tid].pc) ==> s.loadLock == Some(tid)
    requires Holding(s.threads[tid].pc) && Holding(pc') ==> Distance(pc') < Distance(s.threads[tid].pc)
    ensures Remaining(s', owner) <= Remaining(s, owner) + if s.loadLock.None? && s'.loadLock.Some? then 2 else 0
  {
  }

  lemma SameRemaining(s: State, s': State, owner: Tid)
    requires owner in s.threads && s'.loadLock == s.loadLock && (s.loadLock.Some? ==> s.loadLock.value in s.threads)
    requires forall t :: t in s.threads ==> t in s'.threads && s'.threads[t] == s.threads[t]
    ensures Remaining(s', owner) == Remaining(s, owner)
  {
  }

  lemma ArrivalFields(s: State, a: Action)
    requires Enabled(s, a) && (a.Load? || a.Spawn?)
    ensures Apply(s, a).loadLock == s.loadLock
    ensures forall t :: t in s.threads ==> t in Apply(s, a).threads && Apply(s, a).threads[t] == s.threads[t]
  {
  }

  // What other threads do never takes an owner further from its end, except by taking load_mu_, which
  // adds the two steps that its holder then has to make.
  lemma OthersDoNotDelay(s: State, a: Action, owner: Tid)
    requires Inv(s) && Enabled(s, a) && owner in s.threads && Responsible(s.threads[owner].pc)
    requires a.Load? || a.Spawn? || a.tid != owner
    ensures owner in Apply(s, a).threads && Apply(s, a).threads[owner] == s.threads[owner]
    ensures Remaining(Apply(s, a), owner)
         <= Remaining(s, owner) + if s.loadLock.None? && Apply(s, a).loadLock.Some? then 2 else 0
  {
    if a.Load? || a.Spawn? {
      ArrivalFields(s, a);
      SameRemaining(s, Apply(s, a), owner);
    } else {
      var r, pc := s.threads[a.tid].request, s.threads[a.tid].pc;
      ApplyView(s, a);
      assert Sane(s, a.tid, r, pc);
      LockEffect(s, a, r, pc);
      if Holding(pc) {
        HolderStep(s, a, r, pc);
      }
      RemainingBeside(s, Apply(s, a), owner, a.tid, NewPc(s, a, r, pc));
    }
  }

  // A step of the owner, or of whoever holds load_mu_.
  ghost predicate Progresses(s: State, a: Action, owner: Tid) {
    !a.Load? && !a.Spawn? && (a.tid == owner || s.loadLock == Some(a.tid))
  }

  ghost predicate TakesLock(s: State, a: Action, owner: Tid)
    requires Enabled(s, a)
  {
    !a.Load? && !a.Spawn? && a.tid != owner && s.loadLock.None? && Apply(s, a).loadLock.Some?
  }

  ghost function ProgressSteps(states: seq<State>, actions: seq<Action>, owner: Tid): nat
    requires |states| == |actions| + 1
  {
    if actions == [] then 0
    else
      var n := |actions| - 1;
      ProgressSteps(states[..n + 1], actions[..n], owner) + if Progresses(states[n], actions[n], owner) then 1 else 0
  }

  ghost function LockSteps(states: seq<State>, actions: seq<Action>, owner: Tid): nat
    requires Run(states, actions)
  {
    if actions == [] then 0
    else
      var n := |actions| - 1;
      assert Run(states[..n + 1], actions[..n]);
      LockSteps(states[..n + 1], actions[..n], owner) + if TakesLock(states[n], actions[n], owner) then 1 else 0
  }

  ghost predicate StaysResponsible(states: seq<State>, owner: Tid) {
    forall i :: 0 <= i < |states| ==> owner in states[i].threads && Responsible(states[i].threads[owner].pc)
  }

  lemma ProgressStep(s: State, a: Action, owner: Tid)
    requires Inv(s) && Enabled(s, a) && owner in s.threads && Responsible(s.threads[owner].pc)
    requires owner in Apply(s, a).threads && Responsible(Apply(s, a).threads[owner].pc)
    ensures Remaining(Apply(s, a), owner) + (if Progresses(s, a, owner) then 1 else 0)
         <= Remaining(s, owner) + if TakesLock(s, a, owner) then 2 else 0
  {
    if a.Load? || a.Spawn? || (a.tid != owner && s.loadLock != Some(a.tid)) {
      OthersDoNotDelay(s, a, owner);
    } else if a.tid == owner {
      OwnStep(s, a, owner);
    } else {
      HolderStepHelps(s, a, owner);
    }
  }

  lemma HolderStepHelps(s: State, a: Action, owner: Tid)
    requires Inv(s) && Enabled(s, a) && !a.Load? && !a.Spawn? && owner in s.threads
    requires a.tid != owner && s.loadLock == Some(a.tid)
    ensures owner in Apply(s, a).threads && Remaining(Apply(s, a), owner) < Remaining(s, owner)
  {
    assert Holding(s.threads[a.tid].pc);
    HolderMoves(s, owner, a.tid, a);
  }

  lemma OwnStep(s: State, a: Action, owner: Tid)
    requires Inv(s) && Enabled(s, a) && !a.Load? && !a.Spawn? && a.tid == owner && Responsible(s.threads[owner].pc)
    requires owner in Apply(s, a).threads && Responsible(Apply(s, a).threads[owner].pc)
    ensures Remaining(Apply(s, a), owner) < Remaining(s, owner)
  {
    if a.Fulfil? {
      ApplyView(s, a);
      assert false;
    }
    OwnerMoves(s, owner, a);
  }

  lemma AtMoment(states: seq<State>, actions: seq<Action>, owner: Tid, n: nat)
    requires Run(states, actions) && Inv(states[0]) && StaysResponsible(states, owner) && n < |actions|
    ensures Inv(states[n]) && Enabled(states[n], actions[n]) && states[n + 1] == Apply(states[n], actions[n])
    ensures owner in states[n].threads && Responsible(states[n].threads[owner].pc)
    ensures owner in states[n + 1].threads && Responsible(states[n + 1].threads[owner].pc)
  {
    RunInv(states, actions);
  }

  /** Nor in any other run. While a promise stays open, the thread responsible for it and the holders of
      load_mu_ can only make so many steps: at most what remained for it, and two more for every time
      somebody else got load_mu_ first. */
  lemma {:induction false} ProgressIsBounded(states: seq<State>, actions: seq<Action>, owner: Tid)
    requires Run(states, actions) && Inv(states[0]) && StaysResponsible(states, owner)
    ensures Remaining(states[|actions|], owner) + ProgressSteps(states, actions, owner)
         <= Remaining(states[0], owner) + 2 * LockSteps(states, actions, owner)
  {
    if actions != [] {
      var n := |actions| - 1;
      RunPrefix(states, actions);
      ProgressIsBounded(states[..n + 1], actions[..n], owner);
      AtMoment(states, actions, owner, n);
      ProgressStep(states[n], actions[n], owner);
    }
  }

  /** And a waiter whose promise is closed can return at once, with what the promise holds. */
  lemma WaiterReleased(s: State, tid: Tid)
    requires Inv(s) && tid in s.threads && s.threads[tid].pc.Waiting?
    requires s.threads[tid].pc.promise < |s.promises| && s.promises[s.threads[tid].pc.promise].outcome.Some?
    ensures Enabled(s, Action.Await(tid))
    ensures var p := s.threads[tid].pc.promise;
            Apply(s, Action.Await(tid)).threads[tid].pc == Done(s.promises[p].outcome.value, Some(p))
  {
    assert Placed(s, s.threads[tid].pc) && Sane(s, tid, s.threads[tid].request, s.threads[tid].pc);
  }

  lemma RunCons(s: State, a: Action, states: seq<State>, actions: seq<Action>)
    requires Enabled(s, a) && Run(states, actions) && states[0] == Apply(s, a)
    ensures Run([s] + states, [a] + actions)
  {
    var all, acts := [s] + states, [a] + actions;
    forall i | 0 <= i < |acts|
      ensures Enabled(all[i], acts[i]) && all[i + 1] == Apply(all[i], acts[i])
    {
      if i > 0 {
        assert all[i] == states[i - 1] && acts[i] == actions[i - 1] && all[i + 1] == states[i];
      }
    }
  }

  lemma FulfilCloses(s: State, owner: Tid)
    requires Enabled(s, Action.Fulfil(owner))
    ensures var p := s.threads[owner].pc.promise;
            p < |Apply(s, Action.Fulfil(owner)).promises| && Apply(s, Action.Fulfil(owner)).promises[p].outcome.Some?
  {
  }

  // The step that comes next: it closes the promise, or brings it closer.
  lemma NextMove(s: State, owner: Tid, reply: Reply) returns (a: Action)
    requires Inv(s) && owner in s.threads && Responsible(s.threads[owner].pc)
    ensures Enabled(s, a)
    ensures var s', p := Apply(s, a), s.threads[owner].pc.promise;
            || (p < |s'.promises| && s'.promises[p].outcome.Some?)
            || (&& owner in s'.threads && Responsible(s'.threads[owner].pc) && s'.threads[owner].pc.promise == p
                && Remaining(s', owner) < Remaining(s, owner))
  {
    if Blocked(s, s.threads[owner].request, s.threads[owner].pc) {
      OtherHolds(s, owner);
      a := HolderMove(s, owner, s.loadLock.value, reply);
    } else {
      a := OwnAction(s.threads[owner].pc, owner, reply);
      OwnEnabled(s, owner, reply);
      if a.Fulfil? {
        FulfilCloses(s, owner);
      } else {
        OwnerMoves(s, owner, a);
      }
    }
  }

  lemma HolderMove(s: State, owner: Tid, holder: Tid, reply: Reply) returns (a: Action)
    requires Inv(s) && owner in s.threads && holder in s.threads && holder != owner
    requires s.loadLock == Some(holder) && Holding(s.threads[holder].pc)
    ensures Enabled(s, a)
    ensures var s' := Apply(s, a);
            owner in s'.threads && s'.threads[owner] == s.threads[owner] && Remaining(s', owner) < Remaining(s, owner)
  {
    a := OwnAction(s.threads[holder].pc, holder, reply);
    OwnEnabled(s, holder, reply);
    HolderMoves(s, owner, holder, a);
  }

  // The run starts in s and ends with promise p closed.
  ghost predicate Closes(states: seq<State>, actions: seq<Action>, s: State, p: nat) {
    && Run(states, actions) && states[0] == s
    && p < |states[|actions|].promises| && states[|actions|].promises[p].outcome.Some?
  }

  lemma ClosesNow(s: State, a: Action, p: nat)
    requires Enabled(s, a)
    requires p < |Apply(s, a).promises| && Apply(s, a).promises[p].outcome.Some?
    ensures Closes([s, Apply(s, a)], [a], s, p)
  {
  }

  lemma ClosesLater(s: State, a: Action, p: nat, states: seq<State>, actions: seq<Action>)
    requires Enabled(s, a) && Closes(states, actions, Apply(s, a), p)
    ensures Closes([s] + states, [a] + actions, s, p)
  {
    RunCons(s, a, states, actions);
    assert ([s] + states)[|[a] + actions|] == states[|actions|];
  }

  /** No waiter is stranded. From every reachable state, whatever the resolver replies, the thread
      responsible for an open promise has a run of its own steps, and of steps of whoever holds
      load_mu_ meanwhile, that closes the promise. */
  lemma {:induction false} PromiseGetsClosed(s: State, owner: Tid, reply: Reply)
    returns (states: seq<State>, actions: seq<Action>)
    requires Inv(s) && owner in s.threads && Responsible(s.threads[owner].pc)
    ensures Closes(states, actions, s, s.threads[owner].pc.promise)
    decreases Remaining(s, owner)
  {
    var a := NextMove(s, owner, reply);
    var s', p := Apply(s, a), s.threads[owner].pc.promise;
    if p < |s'.promises| && s'.promises[p].outcome.Some? {
      states, actions := [s, s'], [a];
      ClosesNow(s, a, p);
    } else {
      InvKept(s, a);
      var rest, more := PromiseGetsClosed(s', owner, reply);
      states, actions := [s] + rest, [a] + more;
      ClosesLater(s, a, p, rest, more);
    }
  }
}
