/** Background loading of tokenizers in src/tokens.py: a cache and a register of futures behind one lock, an executor
    that is replaced when the cache is cleared, and a completion callback that checks which future it completes. */
module TokenizerPreload {
  import opened Sequences

  type Hint = string
  type Tokenizer = int

  /** `Stored` has put its tokenizer into the cache and is about to return it. */
  datatype Phase = Queued | Running | Stored(t: Tokenizer) | Finished(result: Option<Tokenizer>) | Cancelled {
    /** `future.done()` */
    predicate Done() {
      Finished? || Cancelled?
    }

    /** The load is still to come or under way. */
    predicate Loading() {
      Queued? || Running?
    }

    /** The load came to nothing. */
    predicate Fruitless() {
      this == Finished(None) || Cancelled?
    }

    function Loaded(): Option<Tokenizer> {
      match this
      case Stored(t) => Some(t)
      case Finished(r) => r
      case _ => None
    }
  }

  /** One submitted load: its hint, how many clears came before it, its executor, and whether its callback has run. */
  datatype Job = Job(hint: Hint, era: nat, executor: nat, phase: Phase, called: bool)

  /** Jobs are numbered in the order of submission, and executors in the order of creation. `era` counts the clears. */
  datatype State = State(
    cache: map<Hint, Tokenizer>,
    futures: map<Hint, nat>,
    executor: Option<nat>,
    executors: nat,
    era: nat,
    jobs: seq<Job>)

  const START := State(map[], map[], None, 0, 0, [])

  // ---------------------------------------------------------------------------------------------
  // The locked sections
  // ---------------------------------------------------------------------------------------------

  predicate IsPending(s: State, h: Hint) {
    h in s.futures && s.futures[h] < |s.jobs| && !s.jobs[s.futures[h]].phase.Done()
  }

  predicate WillSchedule(s: State, h: Hint) {
    h !in s.cache && !IsPending(s, h)
  }

  function Schedule(s: State, h: Hint): State {
    if !WillSchedule(s, h) then s else
      var (e, n) := if s.executor.Some? then (s.executor.value, s.executors) else (s.executors, s.executors + 1);
      s.(executor := Some(e), executors := n,
         jobs := s.jobs + [Job(h, s.era, e, Queued, false)], futures := s.futures[h := |s.jobs|])
  }

  function SetPhase(s: State, f: nat, p: Phase): State
    requires f < |s.jobs|
  {
    s.(jobs := s.jobs[f := s.jobs[f].(phase := p)])
  }

  function Store(s: State, f: nat, t: Tokenizer): State
    requires f < |s.jobs|
  {
    SetPhase(s, f, Stored(t)).(cache := s.cache[s.jobs[f].hint := t])
  }

  /** The callback's locked section: only the registered future may clear the registration and fill the cache. */
  function Complete(s: State, f: nat): State
    requires f < |s.jobs|
  {
    var job := s.jobs[f];
    var marked := s.(jobs := s.jobs[f := job.(called := true)]);
    if job.hint in s.futures && s.futures[job.hint] == f then
      marked.(futures := s.futures - {job.hint},
              cache := if job.phase.Loaded().Some? then s.cache[job.hint := job.phase.Loaded().value] else s.cache)
    else marked
  }

  function Clear(s: State): State {
    s.(cache := map[], futures := map[], executor := None, era := s.era + 1)
  }

  function Shutdown(s: State): State {
    s.(executor := None)
  }

  class Preloads {
    var cache: map<Hint, Tokenizer>
    var futures: map<Hint, nat>
    var executor: Option<nat>
    var executors: nat
    var era: nat
    var jobs: seq<Job>

    function View(): State
      reads this
    {
      State(cache, futures, executor, executors, era, jobs)
    }

    constructor ()
      ensures View() == START
    {
      cache, futures, executor, executors, era, jobs := map[], map[], None, 0, 0, [];
    }

    method ScheduleTokenizerPreload(hint: Hint) returns (scheduled: bool)
      requires forall h :: h in futures ==> futures[h] < |jobs|
      modifies this
      ensures scheduled == WillSchedule(old(View()), hint)
      ensures View() == Schedule(old(View()), hint)
    {
      if hint in cache {
        return false;
      }
      if hint in futures && !jobs[futures[hint]].phase.Done() {
        return false;
      }
      if executor.None? {
        executor, executors := Some(executors), executors + 1;
      }
      futures := futures[hint := |jobs|];
      jobs := jobs + [Job(hint, era, executor.value, Queued, false)];
      scheduled := true;
    }

    method TokenizerFutureDone(f: nat)
      requires f < |jobs|
      modifies this
      ensures View() == Complete(old(View()), f)
    {
      var job := jobs[f];
      var tokenizer := job.phase.Loaded();
      jobs := jobs[f := job.(called := true)];
      if job.hint in futures && futures[job.hint] == f {
        futures := futures - {job.hint};
        if tokenizer.Some? {
          cache := cache[job.hint := tokenizer.value];
        }
      }
    }

    method ClearHfTokenizerCache()
      modifies this
      ensures View() == Clear(old(View()))
    {
      cache, futures, executor, era := map[], map[], None, era + 1;
    }
  }

  // ---------------------------------------------------------------------------------------------
  // Interleavings
  // ---------------------------------------------------------------------------------------------

  datatype Action =
    | DoSchedule(h: Hint)
    | DoStart(f: nat)
    | DoStore(f: nat, t: Tokenizer)
    | DoFail(f: nat)
    | DoReturn(f: nat)
    | DoCallback(f: nat)
    | DoCancel(f: nat)
    | DoClear
    | DoShutdown

  /** A queued load can be cancelled once its executor is no longer the current one. */
  predicate Enabled(s: State, a: Action) {
    match a
    case DoStart(f) => f < |s.jobs| && s.jobs[f].phase.Queued?
    case DoStore(f, _) => f < |s.jobs| && s.jobs[f].phase.Running?
    case DoFail(f) => f < |s.jobs| && s.jobs[f].phase.Running?
    case DoReturn(f) => f < |s.jobs| && s.jobs[f].phase.Stored?
    case DoCallback(f) => f < |s.jobs| && s.jobs[f].phase.Done() && !s.jobs[f].called
    case DoCancel(f) => f < |s.jobs| && s.jobs[f].phase.Queued? && s.executor != Some(s.jobs[f].executor)
    case _ => true
  }

  function Step(s: State, a: Action): State
    requires Enabled(s, a)
  {
    match a
    case DoSchedule(h) => Schedule(s, h)
    case DoStart(f) => SetPhase(s, f, Running)
    case DoStore(f, t) => Store(s, f, t)
    case DoFail(f) => SetPhase(s, f, Finished(None))
    case DoReturn(f) => SetPhase(s, f, Finished(Some(s.jobs[f].phase.t)))
    case DoCallback(f) => Complete(s, f)
    case DoCancel(f) => SetPhase(s, f, Cancelled)
    case DoClear => Clear(s)
    case DoShutdown => Shutdown(s)
  }

  predicate Possible(s: State, actions: seq<Action>)
    decreases |actions|
  {
    actions == [] || (Enabled(s, actions[0]) && Possible(Step(s, actions[0]), actions[1..]))
  }

  function Run(s: State, actions: seq<Action>): State
    requires Possible(s, actions)
    decreases |actions|
  {
    if actions == [] then s else Run(Step(s, actions[0]), actions[1..])
  }

  // ---------------------------------------------------------------------------------------------
  // Invariants
  // ---------------------------------------------------------------------------------------------

  /** A registration belongs to the current era and its callback is still to come. */
  predicate RegisteredIsLive(s: State) {
    forall h :: h in s.futures ==>
      && s.futures[h] < |s.jobs|
      && s.jobs[s.futures[h]].hint == h
      && s.jobs[s.futures[h]].era == s.era
      && !s.jobs[s.futures[h]].called
  }

  /** An unfinished load of the current era is registered, and a successful one is in the cache. */
  predicate CurrentLoadsAreKnown(s: State) {
    forall f: nat :: f < |s.jobs| && s.jobs[f].era == s.era ==>
      && (!s.jobs[f].phase.Done() ==> s.jobs[f].hint in s.futures && s.futures[s.jobs[f].hint] == f)
      && (s.jobs[f].phase.Loaded().Some? ==> s.jobs[f].hint in s.cache)
  }

  /** Of two loads of a hint in one era, the earlier one came to nothing. */
  predicate RetriesFollowFailures(s: State) {
    forall f: nat, g: nat :: f < g < |s.jobs| && s.jobs[f].hint == s.jobs[g].hint && s.jobs[f].era == s.jobs[g].era ==>
      s.jobs[f].phase.Fruitless()
  }

  /** Some load of this very hint produced the tokenizer. */
  ghost predicate CameFromALoad(s: State, h: Hint, t: Tokenizer) {
    exists f: nat :: f < |s.jobs| && s.jobs[f].hint == h && s.jobs[f].phase.Loaded() == Some(t)
  }

  predicate Chronological(s: State) {
    forall f: nat :: f < |s.jobs| ==> s.jobs[f].era <= s.era && (s.jobs[f].called ==> s.jobs[f].phase.Done())
  }

  ghost predicate CacheIsEarned(s: State) {
    forall h :: h in s.cache ==> CameFromALoad(s, h, s.cache[h])
  }

  ghost predicate Inv(s: State) {
    RegisteredIsLive(s) && CurrentLoadsAreKnown(s) && RetriesFollowFailures(s) && CacheIsEarned(s) && Chronological(s)
  }

  lemma StepKeepsRegister(s: State, a: Action)
    requires RegisteredIsLive(s) && Enabled(s, a)
    ensures RegisteredIsLive(Step(s, a))
  {
  }

  lemma ScheduleKeepsKnown(s: State, h: Hint)
    requires CurrentLoadsAreKnown(s) && RegisteredIsLive(s)
    ensures CurrentLoadsAreKnown(Schedule(s, h))
  {
    var next := Schedule(s, h);
    assert forall f: nat :: f < |s.jobs| ==> next.jobs[f] == s.jobs[f];
  }

  lemma StepKeepsKnown(s: State, a: Action)
    requires CurrentLoadsAreKnown(s) && RegisteredIsLive(s) && Chronological(s) && Enabled(s, a)
    ensures CurrentLoadsAreKnown(Step(s, a))
  {
    hide Schedule;
    if a.DoSchedule? {
      ScheduleKeepsKnown(s, a.h);
    }
  }

  lemma StepKeepsChronology(s: State, a: Action)
    requires Chronological(s) && Enabled(s, a)
    ensures Chronological(Step(s, a))
  {
  }

  lemma StepKeepsRetries(s: State, a: Action)
    requires Inv(s) && Enabled(s, a)
    ensures RetriesFollowFailures(Step(s, a))
  {
    hide CameFromALoad;
  }

  lemma StepKeepsEarned(s: State, a: Action)
    requires CacheIsEarned(s) && Enabled(s, a)
    ensures CacheIsEarned(Step(s, a))
  {
    var next := Step(s, a);
    forall h | h in next.cache
      ensures CameFromALoad(next, h, next.cache[h])
    {
      if h in s.cache && s.cache[h] == next.cache[h] {
        var f: nat :| f < |s.jobs| && s.jobs[f].hint == h && s.jobs[f].phase.Loaded() == Some(s.cache[h]);
        assert next.jobs[f].hint == h && next.jobs[f].phase.Loaded() == Some(s.cache[h]);
      } else {
        assert next.jobs[a.f].hint == h && next.jobs[a.f].phase.Loaded() == Some(next.cache[h]);
      }
    }
  }

  lemma {:induction false} RunsKeepInv(s: State, actions: seq<Action>)
    requires Inv(s) && Possible(s, actions)
    ensures Inv(Run(s, actions))
    decreases |actions|
  {
    hide RegisteredIsLive, CurrentLoadsAreKnown, RetriesFollowFailures, CacheIsEarned, Chronological, Step;
    if actions != [] {
      StepKeepsRegister(s, actions[0]);
      StepKeepsKnown(s, actions[0]);
      StepKeepsChronology(s, actions[0]);
      StepKeepsRetries(s, actions[0]);
      StepKeepsEarned(s, actions[0]);
      RunsKeepInv(Step(s, actions[0]), actions[1..]);
    }
  }

  // ---------------------------------------------------------------------------------------------
  // What every interleaving guarantees
  // ---------------------------------------------------------------------------------------------

  ghost predicate Reachable(s: State, actions: seq<Action>) {
    Possible(START, actions) && s == Run(START, actions)
  }

  lemma ReachableHasInv(s: State, actions: seq<Action>)
    requires Reachable(s, actions)
    ensures Inv(s)
  {
    RunsKeepInv(START, actions);
  }

  /** Between two clears, at most one load of a hint is queued, running or successful. */
  lemma OneLoadPerHintAndEra(s: State, actions: seq<Action>, f: nat, g: nat)
    requires Reachable(s, actions) && f < |s.jobs| && g < |s.jobs|
    requires s.jobs[f].hint == s.jobs[g].hint && s.jobs[f].era == s.jobs[g].era
    requires !s.jobs[f].phase.Fruitless() && !s.jobs[g].phase.Fruitless()
    ensures f == g
  {
    hide Reachable;
    ReachableHasInv(s, actions);
  }

  /** Every cached tokenizer came from a successful load for that same hint. */
  lemma CachedTokenizersWereLoaded(s: State, actions: seq<Action>, h: Hint)
    requires Reachable(s, actions) && h in s.cache
    ensures CameFromALoad(s, h, s.cache[h])
  {
    hide Reachable, CameFromALoad;
    ReachableHasInv(s, actions);
  }

  /** A callback only ever removes its own registration, never a later load's. */
  lemma CallbackSparesOthers(s: State, actions: seq<Action>, f: nat, h: Hint)
    requires Reachable(s, actions) && Enabled(s, DoCallback(f)) && h in s.futures
    ensures
      var next := Step(s, DoCallback(f));
      if s.futures[h] == f then h == s.jobs[f].hint && h !in next.futures
      else h in next.futures && next.futures[h] == s.futures[h]
  {
    hide Reachable;
    ReachableHasInv(s, actions);
  }

  /** Scheduling submits one load, registered and queued for its hint, exactly when the hint is not cached and the load
      registered for it, if any, is over; otherwise it changes nothing. */
  lemma ScheduleIff(s: State, actions: seq<Action>, h: Hint)
    requires Reachable(s, actions)
    ensures
      var next := Step(s, DoSchedule(h));
      var idle := forall f: nat :: f < |s.jobs| && h in s.futures && s.futures[h] == f ==>
        s.jobs[f].phase.Finished? || s.jobs[f].phase.Cancelled?;
      if h !in s.cache && idle then
        && |next.jobs| == |s.jobs| + 1 && next.jobs[..|s.jobs|] == s.jobs
        && Last(next.jobs).hint == h && Last(next.jobs).phase == Queued && !Last(next.jobs).called
        && next.futures == s.futures[h := |s.jobs|] && next.cache == s.cache
        && next.executor == Some(Last(next.jobs).executor) && (s.executor.Some? ==> next.executor == s.executor)
      else next == s
  {
    hide Reachable;
    ReachableHasInv(s, actions);
  }

  /** The callback of the registered load removes the registration and caches what was loaded; any other changes neither
      cache nor register. */
  lemma CallbackIs(s: State, actions: seq<Action>, f: nat)
    requires Reachable(s, actions) && Enabled(s, DoCallback(f))
    ensures
      var next, h, phase := Step(s, DoCallback(f)), s.jobs[f].hint, s.jobs[f].phase;
      && next.jobs == s.jobs[f := s.jobs[f].(called := true)]
      && if h in s.futures && s.futures[h] == f then
          && next.futures == s.futures - {h}
          && next.cache == if phase.Finished? && phase.result.Some? then s.cache[h := phase.result.value] else s.cache
        else next.futures == s.futures && next.cache == s.cache
  {
  }

  /** Executors are numbered in the order of their creation. */
  predicate Numbered(s: State) {
    && (forall f: nat :: f < |s.jobs| ==> s.jobs[f].executor < s.executors)
    && (s.executor.Some? ==> s.executor.value < s.executors)
  }

  lemma {:induction false} RunsKeepNumbered(s: State, actions: seq<Action>)
    requires Numbered(s) && Possible(s, actions)
    ensures Numbered(Run(s, actions))
    decreases |actions|
  {
    if actions != [] {
      RunsKeepNumbered(Step(s, actions[0]), actions[1..]);
    }
  }

  /** A clear or a shutdown gives up the executor: every queued load can be cancelled, and the next load goes to an
      executor that no load before it used, so that giving up the old one does not reach it. */
  lemma ExecutorIsGivenUp(s: State, actions: seq<Action>, a: Action, h: Hint)
    requires Reachable(s, actions) && (a == DoClear || a == DoShutdown)
    ensures
      var next := Step(s, a);
      var later := Step(next, DoSchedule(h));
      && (forall f: nat :: f < |s.jobs| && s.jobs[f].phase.Queued? ==> Enabled(next, DoCancel(f)))
      && (|later.jobs| > |s.jobs| ==>
          forall f: nat :: f < |s.jobs| ==> later.jobs[f].executor != Last(later.jobs).executor)
  {
    RunsKeepNumbered(START, actions);
  }

  /** Nothing leaks: once every finished load has run its callback, only unfinished loads are registered. */
  lemma RegisterIsEmptied(s: State, actions: seq<Action>, h: Hint)
    requires Reachable(s, actions) && h in s.futures
    requires forall f: nat :: f < |s.jobs| && s.jobs[f].phase.Done() ==> s.jobs[f].called
    ensures IsPending(s, h)
  {
    hide Reachable;
    ReachableHasInv(s, actions);
  }

  /** A successful load is not repeated before the next clear: its hint stays in the cache. */
  lemma SuccessIsRemembered(s: State, actions: seq<Action>, f: nat)
    requires Reachable(s, actions) && f < |s.jobs| && s.jobs[f].era == s.era && s.jobs[f].phase.Loaded().Some?
    ensures !WillSchedule(s, s.jobs[f].hint)
  {
    hide Reachable;
    ReachableHasInv(s, actions);
  }

  // ---------------------------------------------------------------------------------------------
  // What a clear does not stop
  // ---------------------------------------------------------------------------------------------

  /** No load is queued or running. */
  predicate Quiet(s: State) {
    forall f: nat :: f < |s.jobs| ==> !s.jobs[f].phase.Loading()
  }

  /** No load from before the last clear is queued or running. */
  predicate OldLoadsAreOver(s: State) {
    forall f: nat :: f < |s.jobs| && s.jobs[f].era < s.era ==> !s.jobs[f].phase.Loading()
  }

  ghost predicate CameFromThisEra(s: State, h: Hint, t: Tokenizer) {
    exists f: nat ::
      f < |s.jobs| && s.jobs[f].hint == h && s.jobs[f].era == s.era && s.jobs[f].phase.Loaded() == Some(t)
  }

  /** Everything cached was loaded by a load submitted since the last clear. */
  ghost predicate CacheIsCurrent(s: State) {
    forall h :: h in s.cache ==> CameFromThisEra(s, h, s.cache[h])
  }

  /** No two loads of one hint are queued or running, whenever they were submitted. */
  predicate LoadsAreSingle(s: State) {
    forall f: nat, g: nat :: f < g < |s.jobs| && s.jobs[f].hint == s.jobs[g].hint ==>
      !(s.jobs[f].phase.Loading() && s.jobs[g].phase.Loading())
  }

  ghost predicate NoClear(actions: seq<Action>) {
    forall a :: a in actions ==> !a.DoClear?
  }

  lemma StepKeepsOver(s: State, a: Action)
    requires OldLoadsAreOver(s) && Enabled(s, a) && !a.DoClear?
    ensures OldLoadsAreOver(Step(s, a))
  {
  }

  lemma StepKeepsCurrent(s: State, a: Action)
    requires Inv(s) && OldLoadsAreOver(s) && CacheIsCurrent(s) && Enabled(s, a) && !a.DoClear?
    ensures CacheIsCurrent(Step(s, a))
  {
    hide CacheIsEarned, RetriesFollowFailures, CurrentLoadsAreKnown;
    var next := Step(s, a);
    forall h | h in next.cache
      ensures CameFromThisEra(next, h, next.cache[h])
    {
      if h in s.cache && s.cache[h] == next.cache[h] {
        var f: nat :|
          f < |s.jobs| && s.jobs[f].hint == h && s.jobs[f].era == s.era && s.jobs[f].phase.Loaded() == Some(s.cache[h]);
        assert next.jobs[f].hint == h && next.jobs[f].phase.Loaded() == Some(s.cache[h]);
      } else {
        assert next.jobs[a.f].hint == h && next.jobs[a.f].phase.Loaded() == Some(next.cache[h]);
      }
    }
  }

  lemma {:induction false} RunsStayCurrent(s: State, actions: seq<Action>)
    requires Inv(s) && OldLoadsAreOver(s) && CacheIsCurrent(s) && Possible(s, actions) && NoClear(actions)
    ensures CacheIsCurrent(Run(s, actions)) && LoadsAreSingle(Run(s, actions))
    decreases |actions|
  {
    if actions == [] {
      hide CacheIsEarned, CacheIsCurrent;
    } else {
      hide Inv, OldLoadsAreOver, CacheIsCurrent, LoadsAreSingle, Step;
      var a := actions[0];
      assert a in actions;
      StepKeepsOver(s, a);
      StepKeepsCurrent(s, a);
      RunsKeepInv(s, [a]);
      assert [a][1..] == [];
      RunsStayCurrent(Step(s, a), actions[1..]);
    }
  }

  /** Whatever happens until the next clear, nothing from before the last one gets into the cache. */
  ghost predicate StaysCurrent(s: State) {
    forall actions :: Possible(s, actions) && NoClear(actions) ==> CacheIsCurrent(Run(s, actions))
  }

  /** Whatever happens until the next clear, no hint is loaded twice at the same time. */
  ghost predicate StaysSingle(s: State) {
    forall actions :: Possible(s, actions) && NoClear(actions) ==> LoadsAreSingle(Run(s, actions))
  }

  /** A load that a clear finds running can store its tokenizer afterwards. */
  lemma LateStore(s: State, f: nat, t: Tokenizer) returns (actions: seq<Action>)
    requires Chronological(s) && f < |s.jobs| && s.jobs[f].phase.Loading()
    ensures Possible(Clear(s), actions) && NoClear(actions)
    ensures
      var h, end := s.jobs[f].hint, Run(Clear(s), actions);
      && h in end.cache && end.cache[h] == t
      && !CameFromThisEra(end, h, t)
  {
    var store := [DoStore(f, t)];
    assert store[1..] == [];
    var cleared := Clear(s);
    if s.jobs[f].phase.Running? {
      actions := store;
      assert Run(cleared, actions) == Store(cleared, f, t);
    } else {
      actions := [DoStart(f)] + store;
      assert actions[1..] == store;
      var running := Step(cleared, DoStart(f));
      assert Run(cleared, actions) == Run(running, store) == Store(running, f, t);
    }
  }

  /** And its hint can be submitted again beside it. */
  lemma LoadBesideLoad(s: State, f: nat) returns (actions: seq<Action>)
    requires f < |s.jobs| && s.jobs[f].phase.Loading()
    ensures Possible(Clear(s), actions) && NoClear(actions) && !LoadsAreSingle(Run(Clear(s), actions))
  {
    var a := DoSchedule(s.jobs[f].hint);
    actions := [a];
    assert actions[1..] == [];
    var end := Step(Clear(s), a);
    assert end.jobs[f] == s.jobs[f] && end.jobs[|s.jobs|].hint == s.jobs[f].hint && end.jobs[|s.jobs|].phase == Queued;
  }

  /** A clear is effective, in either sense, exactly when it finds no load queued or running: the cancelling that
      follows it comes too late for one that runs, and the load itself does not check whether it is still wanted. */
  lemma ClearIsEffectiveIff(s: State, before: seq<Action>)
    requires Reachable(s, before)
    ensures StaysCurrent(Clear(s)) <==> Quiet(s)
    ensures StaysSingle(Clear(s)) <==> Quiet(s)
  {
    hide Reachable, Inv, LoadsAreSingle, CacheIsCurrent;
    ReachableHasInv(s, before);
    if Quiet(s) {
      ClearStartsAfresh(s);
      forall actions | Possible(Clear(s), actions) && NoClear(actions)
        ensures CacheIsCurrent(Run(Clear(s), actions)) && LoadsAreSingle(Run(Clear(s), actions))
      {
        RunsStayCurrent(Clear(s), actions);
      }
    } else {
      var f: nat :| f < |s.jobs| && s.jobs[f].phase.Loading();
      ChronologicalIn(s);
      var late := LateStore(s, f, 0);
      NotCurrent(Run(Clear(s), late), s.jobs[f].hint);
      var beside := LoadBesideLoad(s, f);
    }
  }

  lemma ChronologicalIn(s: State)
    requires Inv(s)
    ensures Chronological(s)
  {
  }

  lemma NotCurrent(s: State, h: Hint)
    requires h in s.cache && !CameFromThisEra(s, h, s.cache[h])
    ensures !CacheIsCurrent(s)
  {
  }

  lemma ClearStartsAfresh(s: State)
    requires Inv(s) && Quiet(s)
    ensures Inv(Clear(s)) && OldLoadsAreOver(Clear(s)) && CacheIsCurrent(Clear(s))
  {
    RunsKeepInv(s, [DoClear]);
    assert [DoClear][1..] == [];
  }
}
