/** What the theorems about resolve() cannot promise, shown by runs (src/tuned_config.cpp, lines 923-1000):
    while a kernel has no schema yet, two raw keys may each reach the resolver; requests whose token texts
    collide are handed each other's configuration; and a waiter may be handed what a load has outdated. */
module TunedWitnesses {
  import opened KeySchema
  import opened TunedIndex
  import opened TunedTable
  import opened TunedProtocol
  import opened TunedAgreement
  import opened TunedRuns
  import Identity

  // ---- runs, step by step

  ghost predicate Leads(s: State, actions: seq<Action>, t: State)
    decreases |actions|
  {
    if actions == [] then s == t
    else Enabled(s, actions[0]) && !actions[0].Load? && Leads(Apply(s, actions[0]), actions[1..], t)
  }

  // Some run without loads leads from s to t.
  ghost predicate Reaches(s: State, t: State) {
    exists actions :: Leads(s, actions, t)
  }

  lemma {:induction false} LeadsThen(s: State, a: seq<Action>, t: State, b: seq<Action>, u: State)
    requires Leads(s, a, t) && Leads(t, b, u)
    ensures Leads(s, a + b, u)
    decreases |a|
  {
    if a == [] {
      assert a + b == b;
    } else {
      LeadsThen(Apply(s, a[0]), a[1..], t, b, u);
      assert (a + b)[1..] == a[1..] + b;
    }
  }

  lemma Then(s: State, t: State, u: State)
    requires Reaches(s, t) && Reaches(t, u)
    ensures Reaches(s, u)
  {
    var a :| Leads(s, a, t);
    var b :| Leads(t, b, u);
    LeadsThen(s, a, t, b, u);
  }

  lemma OneStep(s: State, a: Action)
    requires Enabled(s, a) && !a.Load?
    ensures Reaches(s, Apply(s, a))
  {
    assert [a][1..] == [];
    assert Leads(Apply(s, a), [], Apply(s, a));
    assert Leads(s, [a], Apply(s, a));
  }

  lemma {:induction false} LeadsRun(s: State, actions: seq<Action>, t: State) returns (states: seq<State>)
    requires Leads(s, actions, t)
    ensures Run(states, actions) && states[0] == s && states[|actions|] == t
    ensures forall i :: 0 <= i < |actions| ==> !actions[i].Load?
    decreases |actions|
  {
    if actions == [] {
      states := [s];
    } else {
      var rest := LeadsRun(Apply(s, actions[0]), actions[1..], t);
      states := [s] + rest;
      RunStarts(s, actions, rest);
    }
  }

  lemma RunStarts(s: State, actions: seq<Action>, rest: seq<State>)
    requires actions != [] && Enabled(s, actions[0]) && Run(rest, actions[1..]) && rest[0] == Apply(s, actions[0])
    ensures Run([s] + rest, actions) && ([s] + rest)[|actions|] == rest[|actions| - 1]
  {
    var states := [s] + rest;
    forall i | 0 <= i < |actions|
      ensures Enabled(states[i], actions[i]) && states[i + 1] == Apply(states[i], actions[i])
    {
      if i > 0 {
        assert states[i] == rest[i - 1] && actions[i] == actions[1..][i - 1] && states[i + 1] == rest[i];
      }
    }
  }

  // ---- one thread on its way

  ghost function With(s: State, tid: Tid, r: Request, pc: Pc): State {
    s.(threads := s.threads[tid := Thread(r, pc)])
  }

  lemma EffectThreads(s: State, a: Action, r: Request, pc: Pc)
    requires r.key.Readable() && Ready(s, a, r, pc)
    ensures Effect(s, a, r, pc).threads == s.threads
  {
  }

  // The step a, taken by thread tid, which is at pc.
  lemma Moves(s: State, tid: Tid, r: Request, pc: Pc, a: Action)
    requires !a.Load? && !a.Spawn? && a.tid == tid && r.key.Readable()
    requires Ready(With(s, tid, r, pc), a, r, pc)
    ensures var w := With(s, tid, r, pc);
            Reaches(w, With(Effect(w, a, r, pc), tid, r, NewPc(w, a, r, pc)))
  {
    var w := With(s, tid, r, pc);
    assert w.threads[tid] == Thread(r, pc);
    OneStep(w, a);
    ApplyView(w, a);
    EffectThreads(w, a, r, pc);
  }

  // The same, when nothing but the thread's place changes.
  lemma MovesQuietly(s: State, tid: Tid, r: Request, pc: Pc, a: Action, pc': Pc)
    requires !a.Load? && !a.Spawn? && a.tid == tid && r.key.Readable()
    requires var w := With(s, tid, r, pc);
             Ready(w, a, r, pc) && Effect(w, a, r, pc) == w && NewPc(w, a, r, pc) == pc'
    ensures Reaches(With(s, tid, r, pc), With(s, tid, r, pc'))
  {
    Moves(s, tid, r, pc, a);
    Again(s, tid, r, pc, pc');
  }

  lemma Again(s: State, tid: Tid, r: Request, pc: Pc, pc': Pc)
    ensures With(With(s, tid, r, pc), tid, r, pc') == With(s, tid, r, pc')
  {
    assert s.threads[tid := Thread(r, pc)][tid := Thread(r, pc')] == s.threads[tid := Thread(r, pc')];
  }

  lemma AlreadyThere(s: State, tid: Tid, r: Request, pc: Pc)
    requires tid in s.threads && s.threads[tid] == Thread(r, pc)
    ensures With(s, tid, r, pc) == s
  {
    assert s.threads[tid := Thread(r, pc)] == s.threads;
  }

  lemma Swapped(s: State, t: Tid, q: Request, p: Pc, u: Tid, r: Request, pc: Pc)
    requires t != u
    ensures With(With(s, t, q, p), u, r, pc) == With(With(s, u, r, pc), t, q, p)
  {
    assert s.threads[t := Thread(q, p)][u := Thread(r, pc)] == s.threads[u := Thread(r, pc)][t := Thread(q, p)];
  }

  // A request that will ask: the kernel has no table yet.
  ghost predicate Cold(s: State, r: Request) {
    r.slot !in s.published && r.resolves && r.resolver && Resolvable(r.key)
  }

  function RawToken(r: Request): Token
    requires Resolvable(r.key)
  {
    TokenOf(r.slot, r.key.Dims(), r.key.Dtypes())
  }

  lemma Misses(s: State, tid: Tid, r: Request)
    requires Cold(s, r) && tid !in s.threads
    ensures Reaches(s, With(s, tid, r, Missed))
  {
    OneStep(s, Action.Spawn(tid, r));
    assert Apply(s, Action.Spawn(tid, r)) == With(s, tid, r, Start);
    MovesQuietly(s, tid, r, Start, Action.ReadSnapshot(tid), Looked(None));
    MovesQuietly(s, tid, r, Looked(None), Action.Scan(tid), Missed);
    Then(s, With(s, tid, r, Start), With(s, tid, r, Looked(None)));
    Then(s, With(s, tid, r, Looked(None)), With(s, tid, r, Missed));
  }

  lemma Arrives(s: State, tid: Tid, r: Request)
    requires Cold(s, r) && tid !in s.threads
    ensures Reaches(s, With(s, tid, r, Bound(RawToken(r))))
  {
    Misses(s, tid, r);
    MovesQuietly(s, tid, r, Missed, Action.CheckFreeze(tid, false), Allowed);
    MovesQuietly(s, tid, r, Allowed, Action.MakeToken(tid), Bound(RawToken(r)));
    Then(s, With(s, tid, r, Missed), With(s, tid, r, Allowed));
    Then(s, With(s, tid, r, Allowed), With(s, tid, r, Bound(RawToken(r))));
  }

  // The state in which the thread has its own flight.
  ghost function Taken(s: State, token: Token): State {
    s.(promises := s.promises + [Promise(token, None)], inflight := s.inflight[token.text := |s.promises|])
  }

  ghost function Called(s: State, token: Token): State {
    s.(calls := s.calls + [Call(token, Running)])
  }

  lemma Takes(s: State, tid: Tid, r: Request)
    requires Cold(s, r) && tid !in s.threads && RawToken(r).text !in s.inflight
    ensures var token := RawToken(r); Reaches(s, With(Taken(s, token), tid, r, Owning(token, |s.promises|)))
  {
    var token := RawToken(r);
    var w := With(s, tid, r, Bound(token));
    Arrives(s, tid, r);
    Moves(s, tid, r, Bound(token), Action.Enter(tid));
    assert Effect(w, Action.Enter(tid), r, Bound(token)) == Taken(w, token);
    Again(Taken(s, token), tid, r, Bound(token), Owning(token, |s.promises|));
    Then(s, w, With(Taken(s, token), tid, r, Owning(token, |s.promises|)));
  }

  /** A cold request that finds its token text free ends up in the resolver. */
  lemma Asks(s: State, tid: Tid, r: Request)
    requires Cold(s, r) && tid !in s.threads && RawToken(r).text !in s.inflight
    ensures var token := RawToken(r);
            Reaches(s, With(Called(Taken(s, token), token), tid, r, Asking(token, |s.promises|, |s.calls|)))
  {
    var token, p := RawToken(r), |s.promises|;
    var t := Taken(s, token);
    Takes(s, tid, r);
    MovesQuietly(t, tid, r, Owning(token, p), Action.ReadAgain(tid), Rechecking(token, p, None));
    Then(s, With(t, tid, r, Owning(token, p)), With(t, tid, r, Rechecking(token, p, None)));
    Rechecks(t, tid, r, token, p);
    Then(s, With(t, tid, r, Rechecking(token, p, None)), With(Called(t, token), tid, r, Asking(token, p, |s.calls|)));
  }

  lemma Rechecks(t: State, tid: Tid, r: Request, token: Token, p: nat)
    requires r.key.Readable()
    ensures Reaches(With(t, tid, r, Rechecking(token, p, None)),
                    With(Called(t, token), tid, r, Asking(token, p, |t.calls|)))
  {
    var pc := Rechecking(token, p, None);
    var w := With(t, tid, r, pc);
    Moves(t, tid, r, pc, Action.ScanAgain(tid));
    assert Effect(w, Action.ScanAgain(tid), r, pc) == Called(w, token);
    Again(Called(t, token), tid, r, pc, Asking(token, p, |t.calls|));
  }

  /** Without a schema, tokens hold raw dimensions: from any state in which the kernel has no table, two
      requests with different raw tokens, alike as their keys may be once normalised, can be in the resolver
      at the same time. */
  lemma AskedTwice(s: State, t: Tid, q: Request, u: Tid, r: Request)
    returns (states: seq<State>, actions: seq<Action>)
    requires Cold(s, q) && Cold(s, r) && t != u && t !in s.threads && u !in s.threads
    requires RawToken(q).text !in s.inflight && RawToken(r).text !in s.inflight && RawToken(q).text != RawToken(r).text
    ensures Run(states, actions) && states[0] == s && (forall i :: 0 <= i < |actions| ==> !actions[i].Load?)
    ensures states[|actions|].calls == s.calls + [Call(RawToken(q), Running), Call(RawToken(r), Running)]
  {
    var first := With(Called(Taken(s, RawToken(q)), RawToken(q)), t, q, Asking(RawToken(q), |s.promises|, |s.calls|));
    Asks(s, t, q);
    Asks(first, u, r);
    var last := With(Called(Taken(first, RawToken(r)), RawToken(r)), u, r,
                     Asking(RawToken(r), |first.promises|, |first.calls|));
    Then(s, first, last);
    assert s.calls + [Call(RawToken(q), Running)] + [Call(RawToken(r), Running)]
        == s.calls + [Call(RawToken(q), Running), Call(RawToken(r), Running)];
    actions :| Leads(s, actions, last);
    states := LeadsRun(s, actions, last);
  }

  /** For instance with dimensions 5 and 6, which the log strategy takes for the same. */
  lemma AlikeButApart(slot: Slot)
    ensures TokenText(slot, [5], []) != TokenText(slot, [6], [])
    ensures Normalize([Log], [5]) == Normalize([Log], [6])
  {
    assert Shown([]) == [];
    if TokenText(slot, [5], []) == TokenText(slot, [6], []) {
      Identity.FlightTokenInjectiveAnyId(slot.storageId, slot.device, [5], [], slot.storageId, slot.device, [6], []);
      assert false;
    }
    assert BitLength(4) == 3 && BitLength(5) == 3;
    assert Normalize([Log], [5])[0] == Normalize([Log], [6])[0];
  }

  // ---- colliding tokens

  // The state after a resolver's answer for a kernel without a table has been installed.
  ghost function Installed(s: State, r: Request, resolved: Resolved, promise: nat, call: nat): State
    requires Resolvable(r.key) && |resolved.columns| == r.key.ndims && promise < |s.promises|
  {
    var schema := Schema(resolved.columns, r.key.ndtypes);
    var next, found := NextTable(s, r.slot, schema), NextFound(s, r.slot, schema, resolved.config);
    s.(arenas := ArenasWith(s, r.slot, schema, NewRow(schema, r.key, resolved.config)),
       published := s.published[r.slot := next], history := s.history + [(r.slot, next)],
       calls := Rated(s.calls, call, Status.Installed))
  }

  ghost function Answer(s: State, r: Request, resolved: Resolved): Outcome {
    Value(Some(NextFound(s, r.slot, Schema(resolved.columns, r.key.ndtypes), resolved.config)))
  }

  lemma Installs(s: State, tid: Tid, r: Request, token: Token, promise: nat, call: nat, resolved: Resolved)
    requires Cold(s, r) && s.loadLock.None? && Objection(r, resolved).None? && promise < |s.promises|
    ensures Reaches(With(s, tid, r, Asking(token, promise, call)),
                    With(Installed(s, r, resolved, promise, call), tid, r, Leaving(token, promise, Answer(s, r,
                        resolved))))
  {
    var locked := s.(loadLock := Some(tid));
    Locks(s, tid, r, token, promise, call, resolved);
    Links(locked, tid, r, token, promise, call, resolved);
    Publishes(s, tid, r, token, promise, call, resolved);
    var schema := Schema(resolved.columns, r.key.ndtypes);
    var pc := Linked(token, promise, call, NextTable(s, r.slot, schema), NextFound(s, r.slot, schema, resolved.config));
    var linked := locked.(arenas := ArenasWith(s, r.slot, schema, NewRow(schema, r.key, resolved.config)));
    Then(With(s, tid, r, Asking(token, promise, call)), With(locked, tid, r, Locked(token, promise, call, resolved)),
         With(linked, tid, r, pc));
    Then(With(s, tid, r, Asking(token, promise, call)), With(linked, tid, r, pc),
         With(Installed(s, r, resolved, promise, call), tid, r, Leaving(token, promise, Answer(s, r, resolved))));
  }

  lemma Locks(s: State, tid: Tid, r: Request, token: Token, promise: nat, call: nat, resolved: Resolved)
    requires r.key.Readable() && s.loadLock.None? && Objection(r, resolved).None?
    ensures Reaches(With(s, tid, r, Asking(token, promise, call)),
                    With(s.(loadLock := Some(tid)), tid, r, Locked(token, promise, call, resolved)))
  {
    var asking, answered := Asking(token, promise, call), Answered(token, promise, call, resolved);
    var locked := Locked(token, promise, call, resolved);
    MovesQuietly(s, tid, r, asking, Action.Hear(tid, Answers(resolved)), answered);
    Moves(s, tid, r, answered, Action.Lock(tid));
    Again(s.(loadLock := Some(tid)), tid, r, answered, locked);
    Then(With(s, tid, r, asking), With(s, tid, r, answered), With(s.(loadLock := Some(tid)), tid, r, locked));
  }

  lemma Links(s: State, tid: Tid, r: Request, token: Token, promise: nat, call: nat, resolved: Resolved)
    requires Cold(s, r) && Objection(r, resolved).None?
    ensures var schema := Schema(resolved.columns, r.key.ndtypes);
            Reaches(With(s, tid, r, Locked(token, promise, call, resolved)),
                    With(s.(arenas := ArenasWith(s, r.slot, schema, NewRow(schema, r.key, resolved.config))), tid, r,
                         Linked(token, promise, call, NextTable(s, r.slot, schema),
                                NextFound(s, r.slot, schema, resolved.config))))
  {
    var schema := Schema(resolved.columns, r.key.ndtypes);
    var pc := Locked(token, promise, call, resolved);
    var pc' := Linked(token, promise, call, NextTable(s, r.slot, schema), NextFound(s, r.slot, schema,
                                                                                    resolved.config));
    var w := With(s, tid, r, pc);
    assert Judge(w, r, resolved) == Fresh;
    Moves(s, tid, r, pc, Action.Link(tid));
    var arenas' := ArenasWith(s, r.slot, schema, NewRow(schema, r.key, resolved.config));
    assert Effect(w, Action.Link(tid), r, pc) == w.(arenas := arenas');
    Again(s.(arenas := arenas'), tid, r, pc, pc');
  }

  lemma Publishes(s: State, tid: Tid, r: Request, token: Token, promise: nat, call: nat, resolved: Resolved)
    requires Cold(s, r) && s.loadLock.None? && |resolved.columns| == r.key.ndims && promise < |s.promises|
    ensures var schema := Schema(resolved.columns, r.key.ndtypes);
            Reaches(With(s.(loadLock := Some(tid),
                            arenas := ArenasWith(s, r.slot, schema, NewRow(schema, r.key, resolved.config))), tid, r,
                         Linked(token, promise, call, NextTable(s, r.slot, schema),
                                NextFound(s, r.slot, schema, resolved.config))),
                    With(Installed(s, r, resolved, promise, call), tid, r, Leaving(token, promise, Answer(s, r,
                        resolved))))
  {
    var schema := Schema(resolved.columns, r.key.ndtypes);
    var pc := Linked(token, promise, call, NextTable(s, r.slot, schema), NextFound(s, r.slot, schema, resolved.config));
    var linked := s.(loadLock := Some(tid), arenas := ArenasWith(s, r.slot, schema, NewRow(schema, r.key,
        resolved.config)));
    Moves(linked, tid, r, pc, Action.Publish(tid));
    Again(Installed(s, r, resolved, promise, call), tid, r, pc, Leaving(token, promise, Answer(s, r, resolved)));
  }

  // The erase and the closing of the promise.
  ghost function Closed(s: State, text: string, promise: nat, outcome: Outcome): State
    requires promise < |s.promises|
  {
    s.(inflight := s.inflight - {text},
       promises := s.promises[promise := s.promises[promise].(outcome := Some(outcome))])
  }

  lemma Leaves(s: State, tid: Tid, r: Request, token: Token, promise: nat, outcome: Outcome)
    requires r.key.Readable() && promise < |s.promises|
    ensures Reaches(With(s, tid, r, Leaving(token, promise, outcome)),
                    With(Closed(s, token.text, promise, outcome), tid, r, Done(outcome, Some(promise))))
  {
    var erased := s.(inflight := s.inflight - {token.text});
    var leaving, fulfilling := Leaving(token, promise, outcome), Fulfilling(token, promise, outcome);
    Moves(s, tid, r, leaving, Action.Erase(tid));
    Again(erased, tid, r, leaving, fulfilling);
    Moves(erased, tid, r, fulfilling, Action.Fulfil(tid));
    Again(Closed(s, token.text, promise, outcome), tid, r, fulfilling, Done(outcome, Some(promise)));
    Then(With(s, tid, r, leaving), With(erased, tid, r, fulfilling),
         With(Closed(s, token.text, promise, outcome), tid, r, Done(outcome, Some(promise))));
  }

  // A cold request that finds its token text taken waits for whoever took it.
  lemma Joins(s: State, tid: Tid, r: Request)
    requires Cold(s, r) && tid !in s.threads && RawToken(r).text in s.inflight
    ensures Reaches(s, With(s, tid, r, Waiting(RawToken(r), s.inflight[RawToken(r).text])))
  {
    var token := RawToken(r);
    Arrives(s, tid, r);
    MovesQuietly(s, tid, r, Bound(token), Action.Enter(tid), Waiting(token, s.inflight[token.text]));
    Then(s, With(s, tid, r, Bound(token)), With(s, tid, r, Waiting(token, s.inflight[token.text])));
  }

  // The state in which everything has happened to q's flight, and r still waits for it.
  ghost function Flown(s: State, t: Tid, q: Request, u: Tid, r: Request, resolved: Resolved): State
    requires Resolvable(q.key) && Resolvable(r.key) && |resolved.columns| == q.key.ndims
  {
    var token, p := RawToken(q), |s.promises|;
    var asked := With(Called(Taken(s, token), token), u, r, Waiting(RawToken(r), p));
    With(Closed(Installed(asked, q, resolved, p, |s.calls|), token.text, p, Answer(s, q, resolved)), t, q,
         Done(Answer(s, q, resolved), Some(p)))
  }

  // q is in the resolver, and r waits for it.
  lemma Meets(s: State, t: Tid, q: Request, u: Tid, r: Request)
    requires Cold(s, q) && Cold(s, r) && t != u && t !in s.threads && u !in s.threads
    requires RawToken(q).text == RawToken(r).text && RawToken(q).text !in s.inflight
    ensures var token, p := RawToken(q), |s.promises|;
            Reaches(s, With(With(Called(Taken(s, token), token), u, r, Waiting(RawToken(r), p)), t, q,
                            Asking(token, p, |s.calls|)))
  {
    var token, p, c := RawToken(q), |s.promises|, |s.calls|;
    var base, asking := Called(Taken(s, token), token), Asking(token, p, c);
    Asks(s, t, q);
    Joins(With(base, t, q, asking), u, r);
    Swapped(base, t, q, asking, u, r, Waiting(RawToken(r), p));
    Then(s, With(base, t, q, asking), With(With(base, u, r, Waiting(RawToken(r), p)), t, q, asking));
  }

  // q's answer is installed and everybody's promise is closed.
  lemma Returns(s: State, t: Tid, q: Request, token: Token, p: nat, c: nat, resolved: Resolved)
    requires Cold(s, q) && s.loadLock.None? && Objection(q, resolved).None? && p < |s.promises|
    ensures var outcome := Answer(s, q, resolved);
            Reaches(With(s, t, q, Asking(token, p, c)),
                    With(Closed(Installed(s, q, resolved, p, c), token.text, p, outcome), t, q, Done(outcome, Some(p))))
  {
    var installed, outcome := Installed(s, q, resolved, p, c), Answer(s, q, resolved);
    Installs(s, t, q, token, p, c, resolved);
    Leaves(installed, t, q, token, p, outcome);
    Then(With(s, t, q, Asking(token, p, c)), With(installed, t, q, Leaving(token, p, outcome)),
         With(Closed(installed, token.text, p, outcome), t, q, Done(outcome, Some(p))));
  }

  lemma Flies(s: State, t: Tid, q: Request, u: Tid, r: Request, resolved: Resolved)
    requires Cold(s, q) && Cold(s, r) && t != u && t !in s.threads && u !in s.threads
    requires s.loadLock.None? && Objection(q, resolved).None?
    requires RawToken(q).text == RawToken(r).text && RawToken(q).text !in s.inflight
    ensures Reaches(s, Flown(s, t, q, u, r, resolved))
  {
    var token, p := RawToken(q), |s.promises|;
    var asked := With(Called(Taken(s, token), token), u, r, Waiting(RawToken(r), p));
    Meets(s, t, q, u, r);
    Returns(asked, t, q, token, p, |s.calls|, resolved);
    assert Answer(asked, q, resolved) == Answer(s, q, resolved);
    Then(s, With(asked, t, q, Asking(token, p, |s.calls|)), Flown(s, t, q, u, r, resolved));
  }

  /** Without separate token texts, agreement fails. From any state in which both kernels have no table, a
      request whose token text is that of a different key's request can return the configuration that was
      resolved for that other key, although the published tables do not answer its own key at all. */
  lemma CollisionMisleads(s: State, t: Tid, q: Request, u: Tid, r: Request, resolved: Resolved)
    returns (states: seq<State>, actions: seq<Action>, found: Found)
    requires Inv(s) && Cold(s, q) && Cold(s, r) && t != u && t !in s.threads && u !in s.threads
    requires s.loadLock.None? && Objection(q, resolved).None?
    requires RawToken(q).text == RawToken(r).text && RawToken(q).text !in s.inflight
    requires q.slot == r.slot ==> !SameNormalKey(Schema(resolved.columns, q.key.ndtypes), r.key, q.key)
    ensures Run(states, actions) && states[0] == s && (forall i :: 0 <= i < |actions| ==> !actions[i].Load?)
    ensures Returned(states[|actions|], r.slot, u, found) && found.config == resolved.config
    ensures Abs(states[|actions|], r.slot, r.key).None?
  {
    var p := |s.promises|;
    var flown := Flown(s, t, q, u, r, resolved);
    Flies(s, t, q, u, r, resolved);
    FlownState(s, t, q, u, r, resolved);
    found := NextFound(s, q.slot, Schema(resolved.columns, q.key.ndtypes), resolved.config);
    var waiting := Waiting(RawToken(r), p);
    MovesQuietly(flown, u, r, waiting, Action.Await(u), Done(Value(Some(found)), Some(p)));
    var last := With(flown, u, r, Done(Value(Some(found)), Some(p)));
    Then(s, flown, last);
    NotAnswered(s, q, r, last, resolved);
    actions :| Leads(s, actions, last);
    states := LeadsRun(s, actions, last);
  }

  lemma FlownState(s: State, t: Tid, q: Request, u: Tid, r: Request, resolved: Resolved)
    requires Cold(s, q) && Cold(s, r) && t != u && |resolved.columns| == q.key.ndims
    ensures var f, p := Flown(s, t, q, u, r, resolved), |s.promises|;
            var schema := Schema(resolved.columns, q.key.ndtypes);
            && With(f, u, r, Waiting(RawToken(r), p)) == f
            && p < |f.promises| && f.promises[p].outcome == Some(Answer(s, q, resolved))
            && f.published == s.published[q.slot := NextTable(s, q.slot, schema)]
            && f.arenas == ArenasWith(s, q.slot, schema, NewRow(schema, q.key, resolved.config))
  {
    var f, p := Flown(s, t, q, u, r, resolved), |s.promises|;
    AlreadyThere(f, u, r, Waiting(RawToken(r), p));
  }

  lemma NotAnswered(s: State, q: Request, r: Request, last: State, resolved: Resolved)
    requires Inv(s) && Cold(s, q) && Cold(s, r) && Objection(q, resolved).None?
    requires q.slot == r.slot ==> !SameNormalKey(Schema(resolved.columns, q.key.ndtypes), r.key, q.key)
    requires var schema := Schema(resolved.columns, q.key.ndtypes);
             && last.published == s.published[q.slot := NextTable(s, q.slot, schema)]
             && last.arenas == ArenasWith(s, q.slot, schema, NewRow(schema, q.key, resolved.config))
    ensures Abs(last, r.slot, r.key).None?
  {
    if q.slot == r.slot {
      FreshFinds(s, q.slot, Schema(resolved.columns, q.key.ndtypes), q.key, resolved.config, r.key);
    }
  }

  // ---- late waiters

  // A request that will ask, for a kernel that was loaded without rows.
  ghost predicate Emptied(s: State, r: Request, schema: Schema) {
    && r.resolves && r.resolver && Resolvable(r.key)
    && |schema.columns| == r.key.ndims && schema.ndtypes == r.key.ndtypes
    && r.slot in s.published && s.published[r.slot].schema == schema
    && s.published[r.slot].offline == [] && s.published[r.slot].arena.None?
  }

  function NormalToken(r: Request, schema: Schema): Token
    requires Resolvable(r.key) && |schema.columns| == r.key.ndims
  {
    TokenOf(r.slot, Normalize(schema.Strategies(), r.key.Dims()), r.key.Dtypes())
  }

  lemma EmptiedMisses(s: State, tid: Tid, r: Request, schema: Schema)
    requires Emptied(s, r, schema) && tid !in s.threads
    ensures Reaches(s, With(s, tid, r, Missed))
  {
    var looked := Looked(Some(s.published[r.slot]));
    OneStep(s, Action.Spawn(tid, r));
    assert Apply(s, Action.Spawn(tid, r)) == With(s, tid, r, Start);
    MovesQuietly(s, tid, r, Start, Action.ReadSnapshot(tid), looked);
    MovesQuietly(s, tid, r, looked, Action.Scan(tid), Missed);
    Then(s, With(s, tid, r, Start), With(s, tid, r, looked));
    Then(s, With(s, tid, r, looked), With(s, tid, r, Missed));
  }

  // It finds its token taken, and waits.
  lemma EmptiedWaits(s: State, tid: Tid, r: Request, schema: Schema)
    requires Emptied(s, r, schema) && tid !in s.threads && NormalToken(r, schema).text in s.inflight
    ensures var token := NormalToken(r, schema);
            Reaches(s, With(s, tid, r, Waiting(token, s.inflight[token.text])))
  {
    var token := NormalToken(r, schema);
    var waiting := Waiting(token, s.inflight[token.text]);
    EmptiedMisses(s, tid, r, schema);
    MovesQuietly(s, tid, r, Missed, Action.CheckFreeze(tid, false), Allowed);
    MovesQuietly(s, tid, r, Allowed, Action.MakeToken(tid), Bound(token));
    MovesQuietly(s, tid, r, Bound(token), Action.Enter(tid), waiting);
    Then(s, With(s, tid, r, Missed), With(s, tid, r, Allowed));
    Then(s, With(s, tid, r, Allowed), With(s, tid, r, Bound(token)));
    Then(s, With(s, tid, r, Bound(token)), With(s, tid, r, waiting));
  }

  // The owner leaves, and the waiter returns.
  lemma HandsOver(s: State, t: Tid, q: Request, token: Token, p: nat, outcome: Outcome, u: Tid, r: Request, mine: Token)
    requires q.key.Readable() && r.key.Readable() && t != u && p < |s.promises| && u !in s.threads
    requires t in s.threads && s.threads[t] == Thread(q, Leaving(token, p, outcome))
    ensures var waits := With(s, u, r, Waiting(mine, p));
            var closed := With(Closed(waits, token.text, p, outcome), t, q, Done(outcome, Some(p)));
            Reaches(waits, With(closed, u, r, Done(outcome, Some(p))))
  {
    var waits := With(s, u, r, Waiting(mine, p));
    var closed := With(Closed(waits, token.text, p, outcome), t, q, Done(outcome, Some(p)));
    AlreadyThere(waits, t, q, Leaving(token, p, outcome));
    Leaves(waits, t, q, token, p, outcome);
    AlreadyThere(closed, u, r, Waiting(mine, p));
    MovesQuietly(closed, u, r, Waiting(mine, p), Action.Await(u), Done(outcome, Some(p)));
    Then(waits, closed, With(closed, u, r, Done(outcome, Some(p))));
  }

  ghost predicate HasAnswer(s: State, slot: Slot, k: KeyView)
    requires k.Readable()
  {
    Abs(s, slot, k).Some?
  }

  ghost predicate NoLoads(actions: seq<Action>) {
    forall j :: 0 <= j < |actions| ==> !actions[j].Load?
  }

  lemma {:induction false} AnswersLast(states: seq<State>, actions: seq<Action>, slot: Slot, k: KeyView)
    requires Run(states, actions) && Inv(states[0]) && k.Readable() && NoLoads(actions)
    requires HasAnswer(states[0], slot, k)
    ensures HasAnswer(states[|actions|], slot, k)
  {
    if |actions| > 0 {
      var n := |actions| - 1;
      RunPrefix(states, actions);
      AnswersLast(states[..n + 1], actions[..n], slot, k);
      RunInv(states, actions);
      AnswerStays(states[n], actions[n], slot, k);
    }
  }

  // A table that does not answer at the end never did.
  lemma NeverAnswered(states: seq<State>, actions: seq<Action>, slot: Slot, k: KeyView)
    requires Run(states, actions) && Inv(states[0]) && k.Readable() && NoLoads(actions)
    requires Abs(states[|actions|], slot, k) == None
    ensures forall i :: 0 <= i < |states| ==> Abs(states[i], slot, k) == None
  {
    forall i | 0 <= i < |states|
      ensures Abs(states[i], slot, k) == None
    {
      if HasAnswer(states[i], slot, k) {
        StillAnswered(states, actions, i, slot, k);
        assert false;
      }
    }
  }

  lemma StillAnswered(states: seq<State>, actions: seq<Action>, i: nat, slot: Slot, k: KeyView)
    requires Run(states, actions) && Inv(states[0]) && k.Readable() && NoLoads(actions)
    requires i < |states| && HasAnswer(states[i], slot, k)
    ensures HasAnswer(states[|actions|], slot, k)
  {
    RunSplit(states, actions, i);
    RunInv(states, actions);
    AnswersLast(states[i..], actions[i..], slot, k);
  }

  // After the load: the waiter's whole call, in which the table never answers.
  lemma WaitsInVain(s: State, t: Tid, q: Request, token: Token, p: nat, found: Found, u: Tid, r: Request,
                    schema: Schema)
    returns (states: seq<State>, actions: seq<Action>)
    requires Inv(s) && Emptied(s, r, schema) && t in s.threads && u !in s.threads
    requires s.threads[t] == Thread(q, Leaving(token, p, Value(Some(found)))) && q.key.Readable()
    requires NormalToken(r, schema).text == token.text && token.text in s.inflight && s.inflight[token.text] == p
    requires p < |s.promises|
    ensures Run(states, actions) && states[0] == s && Returned(states[|actions|], r.slot, u, found)
    ensures forall i :: 0 <= i < |states| ==> Abs(states[i], r.slot, r.key) == None
  {
    var outcome, mine := Value(Some(found)), NormalToken(r, schema);
    var waits := With(s, u, r, Waiting(mine, p));
    var closed := With(Closed(waits, token.text, p, outcome), t, q, Done(outcome, Some(p)));
    var last := With(closed, u, r, Done(outcome, Some(p)));
    EmptiedWaits(s, u, r, schema);
    HandsOver(s, t, q, token, p, outcome, u, r, mine);
    Then(s, waits, last);
    actions :| Leads(s, actions, last);
    states := LeadsRun(s, actions, last);
    assert last.published == s.published && last.arenas == s.arenas;
    NeverAnswered(states, actions, r.slot, r.key);
  }

  lemma LoadEmpties(s: State, r: Request, schema: Schema)
    requires Inv(s) && s.loadLock.None? && r.resolves && r.resolver && Resolvable(r.key)
    requires |schema.columns| == r.key.ndims && schema.ndtypes == r.key.ndtypes
    ensures var load := Action.Load(r.slot, schema, []);
            && Enabled(s, load)
            && var s1 := Apply(s, load);
               Inv(s1) && Emptied(s1, r, schema)
               && s1.threads == s.threads && s1.inflight == s.inflight && s1.promises == s.promises
  {
    InvKept(s, Action.Load(r.slot, schema, []));
  }

  lemma StepFirst(s: State, a: Action, rest: seq<State>, steps: seq<Action>)
    returns (states: seq<State>, actions: seq<Action>)
    requires Enabled(s, a) && Run(rest, steps) && rest[0] == Apply(s, a)
    ensures Run(states, actions) && states == [s] + rest && states[|actions|] == rest[|steps|]
  {
    states, actions := [s] + rest, [a] + steps;
    assert actions[1..] == steps;
    RunStarts(s, actions, rest);
  }

  /** A waiter's answer need not be one of its own time. When the owner has its pointer and has not yet erased its
      token, a load may empty the kernel; a call that begins after that returns the old pointer all the same,
      although the table answers its key at no moment of the call. */
  lemma LoadOutrunsWaiter(s: State, t: Tid, q: Request, token: Token, p: nat, found: Found, u: Tid, r: Request,
                          schema: Schema)
    returns (states: seq<State>, actions: seq<Action>)
    requires Inv(s) && s.loadLock.None? && t in s.threads && u !in s.threads
    requires s.threads[t] == Thread(q, Leaving(token, p, Value(Some(found))))
    requires r.resolves && r.resolver && Resolvable(r.key)
    requires |schema.columns| == r.key.ndims && schema.ndtypes == r.key.ndtypes
    requires NormalToken(r, schema).text == token.text
    ensures Run(states, actions) && states[0] == s && Returned(states[|actions|], r.slot, u, found)
    ensures forall i :: 0 <= i < |states| && u in states[i].threads ==> Abs(states[i], r.slot, r.key) == None
  {
    var load := Action.Load(r.slot, schema, []);
    LoadEmpties(s, r, schema);
    assert Placed(s, s.threads[t].pc) && Sane(s, t, q, s.threads[t].pc);
    var rest, steps := WaitsInVain(Apply(s, load), t, q, token, p, found, u, r, schema);
    states, actions := StepFirst(s, load, rest, steps);
    forall i | 0 <= i < |states| && u in states[i].threads
      ensures Abs(states[i], r.slot, r.key) == None
    {
      assert i > 0 && states[i] == rest[i - 1];
    }
  }
}
