/** One batch of health probes, `_run_probe_batch` of src/health.py: a coroutine per candidate, a lock around the daily
    budget and a semaphore around the probe itself. Log rows reach the database through the write queue, so a count read
    from the log may be older than the rows already queued. */
module ProbeBatch {
  import opened Sequences

  /** Why a candidate is passed over before the budget is asked, or `Probeable`. */
  datatype Kind = ProviderDisabled | ProviderUnavailable | ProbeUnsupported | Probeable

  datatype Pc = Fresh | AtLock | AtSemaphore | Probing | Recovered | Failed | PassedOver | OverBudget

  datatype Probe = Probe(provider: string, kind: Kind, pc: Pc)

  datatype Counts = Counts(considered: nat, probed: nat, recovered: nat, failed: nat, skipped: nat)

  /** `limits` are the daily budgets; `priorLog` holds the provider of every probe logged today before the batch. */
  datatype Setup = Setup(limits: map<string, int>, concurrency: int, priorLog: seq<string>) {
    function Limit(p: string): int {
      LimitIn(limits, p)
    }

    function Prior(p: string): nat {
      Usage(priorLog, p)
    }

    function Allowance(p: string): nat {
      if Limit(p) > Prior(p) then Limit(p) - Prior(p) else 0
    }
  }

  /** A provider without a budget of its own has none. */
  function LimitIn(limits: map<string, int>, p: string): int {
    if p in limits then limits[p] else 0
  }

  function OfProvider(p: string): string -> bool {
    (q: string) => q == p
  }

  /** `get_provider_probe_usage` */
  function Usage(log: seq<string>, p: string): nat {
    Count(log, OfProvider(p))
  }

  datatype State = State(
    probes: seq<Probe>,
    counts: Counts,
    budgetUsage: map<string, int>,
    logged: seq<string>,
    queuedRows: seq<string>)

  predicate IsNew(c: Probe) {
    c.pc == Fresh
  }

  function Begin(setup: Setup, candidates: seq<Probe>): State {
    State(candidates, Counts(|candidates|, 0, 0, 0, 0), map[], setup.priorLog, [])
  }

  datatype Action = Screen(i: nat) | AskBudget(i: nat) | Enter(i: nat) | Return(i: nat, ok: bool) | ApplyRow

  function At(s: State, i: nat): Option<Pc> {
    if i < |s.probes| then Some(s.probes[i].pc) else None
  }

  predicate IsProbing(c: Probe) {
    c.pc == Probing
  }

  predicate Enabled(setup: Setup, s: State, a: Action) {
    match a
    case Screen(i) => At(s, i) == Some(Fresh)
    case AskBudget(i) => At(s, i) == Some(AtLock)
    case Enter(i) => At(s, i) == Some(AtSemaphore) && Count(s.probes, IsProbing) < setup.concurrency
    case Return(i, _) => At(s, i) == Some(Probing)
    case ApplyRow => s.queuedRows != []
  }

  function Move(s: State, i: nat, pc: Pc): seq<Probe>
    requires i < |s.probes|
  {
    s.probes[i := s.probes[i].(pc := pc)]
  }

  /** `setdefault` with the usage now in the log. */
  function Remembered(s: State, p: string): map<string, int> {
    if p in s.budgetUsage then s.budgetUsage else s.budgetUsage[p := Usage(s.logged, p)]
  }

  function Step(setup: Setup, s: State, a: Action): State
    requires Enabled(setup, s, a)
  {
    match a
    case Screen(i) =>
      if s.probes[i].kind == Probeable then s.(probes := Move(s, i, AtLock))
      else s.(probes := Move(s, i, PassedOver), counts := s.counts.(skipped := s.counts.skipped + 1))
    case AskBudget(i) =>
      var p := s.probes[i].provider;
      var usage := Remembered(s, p);
      if setup.Limit(p) <= usage[p] then
        s.(probes := Move(s, i, OverBudget), budgetUsage := usage, counts := s.counts.(skipped := s.counts.skipped + 1))
      else s.(probes := Move(s, i, AtSemaphore), budgetUsage := usage[p := usage[p] + 1])
    case Enter(i) =>
      s.(probes := Move(s, i, Probing), counts := s.counts.(probed := s.counts.probed + 1))
    case Return(i, ok) =>
      s.(probes := Move(s, i, if ok then Recovered else Failed),
         queuedRows := s.queuedRows + [s.probes[i].provider],
         counts := if ok then s.counts.(recovered := s.counts.recovered + 1)
                   else s.counts.(failed := s.counts.failed + 1))
    case ApplyRow => s.(logged := s.logged + [s.queuedRows[0]], queuedRows := s.queuedRows[1..])
  }

  predicate Possible(setup: Setup, s: State, actions: seq<Action>)
    decreases |actions|
  {
    actions == [] || (Enabled(setup, s, actions[0]) && Possible(setup, Step(setup, s, actions[0]), actions[1..]))
  }

  function Run(setup: Setup, s: State, actions: seq<Action>): State
    requires Possible(setup, s, actions)
    decreases |actions|
  {
    if actions == [] then s else Run(setup, Step(setup, s, actions[0]), actions[1..])
  }

  // ---------------------------------------------------------------------------------------------
  // Invariants
  // ---------------------------------------------------------------------------------------------

  predicate IsRecovered(c: Probe) {
    c.pc == Recovered
  }

  predicate IsFailed(c: Probe) {
    c.pc == Failed
  }

  predicate IsSkipped(c: Probe) {
    c.pc == PassedOver || c.pc == OverBudget
  }

  /** Holds a unit of its provider's budget. */
  function Reserved(p: string): Probe -> bool {
    (c: Probe) => c.provider == p && (c.pc == AtSemaphore || c.pc == Probing || c.pc == Recovered || c.pc == Failed)
  }

  function Probed(p: string): Probe -> bool {
    (c: Probe) => c.provider == p && (c.pc == Recovered || c.pc == Failed)
  }

  function Refused(p: string): Probe -> bool {
    (c: Probe) => c.provider == p && c.pc == OverBudget
  }

  function Eligible(p: string): Probe -> bool {
    (c: Probe) => c.provider == p && c.kind == Probeable
  }

  predicate CountsMatch(setup: Setup, s: State) {
    && s.counts.considered == |s.probes|
    && s.counts.skipped == Count(s.probes, IsSkipped)
    && s.counts.recovered == Count(s.probes, IsRecovered)
    && s.counts.failed == Count(s.probes, IsFailed)
    && s.counts.probed == Count(s.probes, IsProbing) + s.counts.recovered + s.counts.failed
    && (Count(s.probes, IsProbing) == 0 || Count(s.probes, IsProbing) <= setup.concurrency)
  }

  predicate Screened(s: State) {
    forall c :: c in s.probes ==>
      (c.pc == PassedOver ==> c.kind != Probeable) && (c.pc != PassedOver && c.pc != Fresh ==> c.kind == Probeable)
  }

  predicate BudgetOk(setup: Setup, s: State, p: string) {
    && Count(s.probes, Reserved(p)) <= setup.Allowance(p)
    && (if p in s.budgetUsage then s.budgetUsage[p] == setup.Prior(p) + Count(s.probes, Reserved(p))
        else Count(s.probes, Reserved(p)) == 0)
    && (Count(s.probes, Refused(p)) > 0 ==> p in s.budgetUsage && s.budgetUsage[p] >= setup.Limit(p))
    && Usage(s.logged, p) + Usage(s.queuedRows, p) == setup.Prior(p) + Count(s.probes, Probed(p))
    && setup.Prior(p) <= Usage(s.logged, p)
  }

  ghost predicate Inv(setup: Setup, s: State) {
    CountsMatch(setup, s) && Screened(s) && forall p: string :: BudgetOk(setup, s, p)
  }

  lemma StepKeepsCounts(setup: Setup, s: State, a: Action)
    requires CountsMatch(setup, s) && Enabled(setup, s, a)
    ensures CountsMatch(setup, Step(setup, s, a))
  {
    hide Count, Usage;
    if !a.ApplyRow? {
      var next := Step(setup, s, a);
      var c := next.probes[a.i];
      CountUpdate(s.probes, a.i, c, IsSkipped);
      CountUpdate(s.probes, a.i, c, IsRecovered);
      CountUpdate(s.probes, a.i, c, IsFailed);
      CountUpdate(s.probes, a.i, c, IsProbing);
    }
  }

  lemma {:induction false} UsageIs(log: seq<string>, p: string)
    ensures Usage(log, p) == multiset(log)[p]
  {
    if log != [] {
      UsageIs(Front(log), p);
      assert log == Front(log) + [Last(log)];
    }
  }

  lemma UsageAfter(log: seq<string>, row: string, p: string)
    ensures Usage(log + [row], p) == Usage(log, p) + if row == p then 1 else 0
  {
    CountAppend(log, [row], OfProvider(p));
    CountOne(row, OfProvider(p));
  }

  lemma UsageBefore(log: seq<string>, p: string)
    requires log != []
    ensures Usage(log, p) == Usage(log[1..], p) + if log[0] == p then 1 else 0
  {
    assert log == [log[0]] + log[1..];
    CountAppend([log[0]], log[1..], OfProvider(p));
    CountOne(log[0], OfProvider(p));
  }

  lemma {:induction false} ProbedIsReserved(probes: seq<Probe>, p: string)
    ensures Count(probes, Probed(p)) <= Count(probes, Reserved(p))
  {
    if probes != [] {
      ProbedIsReserved(Front(probes), p);
    }
  }

  lemma StepKeepsBudget(setup: Setup, s: State, a: Action, p: string)
    requires BudgetOk(setup, s, p) && Enabled(setup, s, a)
    ensures BudgetOk(setup, Step(setup, s, a), p)
  {
    hide Count, Usage, OfProvider;
    ProbedIsReserved(s.probes, p);
    if a.ApplyRow? {
      UsageAfter(s.logged, s.queuedRows[0], p);
      UsageBefore(s.queuedRows, p);
    } else {
      CoroutineKeepsBudget(setup, s, a, p);
    }
  }

  lemma CoroutineKeepsBudget(setup: Setup, s: State, a: Action, p: string)
    requires BudgetOk(setup, s, p) && Enabled(setup, s, a) && !a.ApplyRow?
    ensures BudgetOk(setup, Step(setup, s, a), p)
  {
    hide Count, Usage, OfProvider;
    var c := Step(setup, s, a).probes[a.i];
    ProbedIsReserved(s.probes, p);
    CountUpdate(s.probes, a.i, c, Reserved(p));
    CountUpdate(s.probes, a.i, c, Probed(p));
    CountUpdate(s.probes, a.i, c, Refused(p));
    UsageAfter(s.queuedRows, c.provider, p);
  }

  lemma StepKeepsScreened(setup: Setup, s: State, a: Action)
    requires Screened(s) && Enabled(setup, s, a)
    ensures Screened(Step(setup, s, a))
  {
    hide Count, Usage;
    var next := Step(setup, s, a);
    forall c | c in next.probes
      ensures c.pc == PassedOver ==> c.kind != Probeable
      ensures c.pc != PassedOver && c.pc != Fresh ==> c.kind == Probeable
    {
      if c !in s.probes {
        assert c == next.probes[a.i] && s.probes[a.i] in s.probes;
      }
    }
  }

  lemma {:induction false} RunsKeepInv(setup: Setup, s: State, actions: seq<Action>)
    requires Inv(setup, s) && Possible(setup, s, actions)
    ensures Inv(setup, Run(setup, s, actions))
    decreases |actions|
  {
    hide CountsMatch, Screened, BudgetOk, Step, Enabled;
    if actions != [] {
      var next := Step(setup, s, actions[0]);
      StepKeepsCounts(setup, s, actions[0]);
      StepKeepsScreened(setup, s, actions[0]);
      forall p: string
        ensures BudgetOk(setup, next, p)
      {
        StepKeepsBudget(setup, s, actions[0], p);
      }
      RunsKeepInv(setup, next, actions[1..]);
    }
  }

  lemma {:induction false} NewProbesCountNothing(candidates: seq<Probe>, p: Probe -> bool)
    requires forall c :: c in candidates ==> !p(c)
    ensures Count(candidates, p) == 0
  {
    if candidates != [] {
      NewProbesCountNothing(Front(candidates), p);
    }
  }

  ghost predicate AllNew(candidates: seq<Probe>) {
    forall c :: c in candidates ==> IsNew(c)
  }

  lemma BeginHasInv(setup: Setup, candidates: seq<Probe>)
    requires AllNew(candidates)
    ensures Inv(setup, Begin(setup, candidates))
  {
    hide Count;
    NewProbesCountNothing(candidates, IsSkipped);
    NewProbesCountNothing(candidates, IsRecovered);
    NewProbesCountNothing(candidates, IsFailed);
    NewProbesCountNothing(candidates, IsProbing);
    forall p: string
      ensures BudgetOk(setup, Begin(setup, candidates), p)
    {
      NewProbesCountNothing(candidates, Reserved(p));
      NewProbesCountNothing(candidates, Probed(p));
      NewProbesCountNothing(candidates, Refused(p));
      NoUsage(p);
    }
  }

  lemma NoUsage(p: string)
    ensures Usage([], p) == 0
  {
  }

  // ---------------------------------------------------------------------------------------------
  // What a batch guarantees
  // ---------------------------------------------------------------------------------------------

  ghost predicate Reachable(setup: Setup, candidates: seq<Probe>, actions: seq<Action>, s: State) {
    && AllNew(candidates)
    && Possible(setup, Begin(setup, candidates), actions)
    && s == Run(setup, Begin(setup, candidates), actions)
  }

  lemma ReachableHasInv(setup: Setup, candidates: seq<Probe>, actions: seq<Action>, s: State)
    requires Reachable(setup, candidates, actions, s)
    ensures Inv(setup, s)
  {
    hide Begin, Run, Possible, Inv;
    BeginHasInv(setup, candidates);
    RunsKeepInv(setup, Begin(setup, candidates), actions);
  }

  predicate IsDone(c: Probe) {
    c.pc == Recovered || c.pc == Failed || IsSkipped(c)
  }

  /** `asyncio.gather` has returned. */
  predicate AllDone(s: State) {
    forall c :: c in s.probes ==> IsDone(c)
  }

  /** In every reachable state the probes in flight respect the semaphore. */
  lemma ConcurrencyIsRespected(setup: Setup, candidates: seq<Probe>, actions: seq<Action>, s: State)
    requires Reachable(setup, candidates, actions, s) && 0 <= setup.concurrency
    ensures Count(s.probes, IsProbing) <= setup.concurrency
  {
    hide Count, Reachable, Screened, BudgetOk;
    ReachableHasInv(setup, candidates, actions, s);
  }

  /** With a positive concurrency the batch is never stuck: some coroutine can go on, whatever the writer does. */
  lemma NeverStuck(setup: Setup, s: State)
    requires 1 <= setup.concurrency && !AllDone(s)
    ensures exists a: Action :: !a.ApplyRow? && Enabled(setup, s, a)
  {
    var i :| 0 <= i < |s.probes| && !IsDone(s.probes[i]);
    match s.probes[i].pc
    case Fresh => assert Enabled(setup, s, Screen(i));
    case AtLock => assert Enabled(setup, s, AskBudget(i));
    case Probing => assert Enabled(setup, s, Return(i, true));
    case AtSemaphore =>
      if Count(s.probes, IsProbing) == 0 {
        assert Enabled(setup, s, Enter(i));
      } else {
        var j := FindProbing(s.probes);
        assert Enabled(setup, s, Return(j, true));
      }
    case _ =>
  }

  lemma {:induction false} FindProbing(probes: seq<Probe>) returns (j: nat)
    requires Count(probes, IsProbing) > 0
    ensures j < |probes| && IsProbing(probes[j])
  {
    if IsProbing(Last(probes)) {
      j := |probes| - 1;
    } else {
      j := FindProbing(Front(probes));
    }
  }

  /** How many actions a coroutine has before it, at most. */
  function StepsLeft(c: Probe): nat {
    match c.pc
    case Fresh => 4
    case AtLock => 3
    case AtSemaphore => 2
    case Probing => 1
    case _ => 0
  }

  function WorkLeft(probes: seq<Probe>): nat {
    if probes == [] then 0 else WorkLeft(Front(probes)) + StepsLeft(Last(probes))
  }

  lemma {:induction false} WorkAfter(probes: seq<Probe>, i: nat, c: Probe)
    requires i < |probes|
    ensures WorkLeft(probes[i := c]) == WorkLeft(probes) - StepsLeft(probes[i]) + StepsLeft(c)
  {
    var next := probes[i := c];
    if i == |probes| - 1 {
      assert Front(next) == Front(probes);
    } else {
      WorkAfter(Front(probes), i, c);
      assert Front(next) == Front(probes)[i := c];
    }
  }

  lemma {:induction false} NoWorkLeftIff(probes: seq<Probe>)
    ensures WorkLeft(probes) == 0 <==> forall c :: c in probes ==> IsDone(c)
    ensures WorkLeft(probes) <= 4 * |probes|
  {
    if probes != [] {
      var before, last := Front(probes), Last(probes);
      NoWorkLeftIff(before);
      assert StepsLeft(last) == 0 <==> IsDone(last);
      assert forall c :: c in probes <==> c in before || c == last;
    }
  }

  /** The actions of coroutines in a run. */
  function OwnActions(actions: seq<Action>): nat
    decreases |actions|
  {
    if actions == [] then 0 else (if actions[0].ApplyRow? then 0 else 1) + OwnActions(actions[1..])
  }

  lemma {:induction false} RunsUseUpWork(setup: Setup, s: State, actions: seq<Action>)
    requires Possible(setup, s, actions)
    ensures OwnActions(actions) + WorkLeft(Run(setup, s, actions).probes) <= WorkLeft(s.probes)
    decreases |actions|
  {
    hide Count, Usage, WorkLeft;
    if actions != [] {
      var a := actions[0];
      var next := Step(setup, s, a);
      if !a.ApplyRow? {
        WorkAfter(s.probes, a.i, next.probes[a.i]);
      }
      RunsUseUpWork(setup, next, actions[1..]);
    }
  }

  /** A batch ends: in any interleaving its coroutines take at most four actions per candidate between them, and only a
      finished batch has no action left. */
  lemma BatchEnds(setup: Setup, candidates: seq<Probe>, actions: seq<Action>, s: State)
    requires Reachable(setup, candidates, actions, s) && 1 <= setup.concurrency
    ensures OwnActions(actions) <= 4 * |candidates|
    ensures AllDone(s) <==> forall a: Action :: Enabled(setup, s, a) ==> a.ApplyRow?
    ensures OwnActions(actions) == 4 * |candidates| ==> AllDone(s)
  {
    hide Count, Run, Possible, WorkLeft, Enabled, IsDone;
    RunsUseUpWork(setup, Begin(setup, candidates), actions);
    NoWorkLeftIff(candidates);
    NoWorkLeftIff(s.probes);
    if !AllDone(s) {
      NeverStuck(setup, s);
    } else {
      DoneMeansIdle(setup, s);
    }
  }

  lemma DoneMeansIdle(setup: Setup, s: State)
    requires AllDone(s)
    ensures forall a: Action :: Enabled(setup, s, a) ==> a.ApplyRow?
  {
    hide Count;
    assert forall i :: 0 <= i < |s.probes| ==> IsDone(s.probes[i]);
  }

  lemma {:induction false} CountSplits(s: seq<Probe>, whole: Probe -> bool, a: Probe -> bool, b: Probe -> bool)
    requires forall c :: c in s ==> (whole(c) <==> a(c) || b(c)) && !(a(c) && b(c))
    ensures Count(s, whole) == Count(s, a) + Count(s, b)
  {
    if s != [] {
      CountSplits(Front(s), whole, a, b);
    }
  }

  lemma {:induction false} CountAgrees(s: seq<Probe>, a: Probe -> bool, b: Probe -> bool)
    requires forall c :: c in s ==> a(c) == b(c)
    ensures Count(s, a) == Count(s, b)
  {
    if s != [] {
      CountAgrees(Front(s), a, b);
    }
  }

  lemma {:induction false} CountAll(s: seq<Probe>, p: Probe -> bool)
    requires forall c :: c in s ==> p(c)
    ensures Count(s, p) == |s|
  {
    if s != [] {
      CountAll(Front(s), p);
    }
  }

  predicate WasProbed(c: Probe) {
    c.pc == Recovered || c.pc == Failed
  }

  /** When the batch ends, every candidate was either probed or skipped and every probe either recovered or failed. */
  lemma CountsAddUp(setup: Setup, candidates: seq<Probe>, actions: seq<Action>, s: State)
    requires Reachable(setup, candidates, actions, s) && AllDone(s)
    ensures s.counts.considered == s.counts.probed + s.counts.skipped
    ensures s.counts.probed == s.counts.recovered + s.counts.failed
  {
    hide Count, Reachable, Screened, BudgetOk;
    ReachableHasInv(setup, candidates, actions, s);
    CountAll(s.probes, IsDone);
    CountSplits(s.probes, IsDone, WasProbed, IsSkipped);
    CountSplits(s.probes, WasProbed, IsRecovered, IsFailed);
    NewProbesCountNothing(s.probes, IsProbing);
  }

  predicate IsSuccess(a: Action) {
    a.Return? && a.ok
  }

  predicate IsFailure(a: Action) {
    a.Return? && !a.ok
  }

  predicate IsEnter(a: Action) {
    a.Enter?
  }

  lemma CountFirst(actions: seq<Action>, p: Action -> bool)
    requires actions != []
    ensures Count(actions, p) == (if p(actions[0]) then 1 else 0) + Count(actions[1..], p)
  {
    assert actions == [actions[0]] + actions[1..];
    CountAppend([actions[0]], actions[1..], p);
    CountOne(actions[0], p);
  }

  /** The counters tell what the providers answered: one `probed` per probe begun, one `recovered` per success and one
      `failed` per failure. */
  lemma {:induction false} CountersCountOutcomes(setup: Setup, s: State, actions: seq<Action>)
    requires Possible(setup, s, actions)
    ensures
      var end := Run(setup, s, actions);
      && end.counts.probed == s.counts.probed + Count(actions, IsEnter)
      && end.counts.recovered == s.counts.recovered + Count(actions, IsSuccess)
      && end.counts.failed == s.counts.failed + Count(actions, IsFailure)
    decreases |actions|
  {
    hide Count, Usage;
    if actions == [] {
      assert actions == [];
      NoCount(actions, IsEnter);
      NoCount(actions, IsSuccess);
      NoCount(actions, IsFailure);
    } else {
      CountFirst(actions, IsEnter);
      CountFirst(actions, IsSuccess);
      CountFirst(actions, IsFailure);
      CountersCountOutcomes(setup, Step(setup, s, actions[0]), actions[1..]);
    }
  }

  lemma NoCount(actions: seq<Action>, p: Action -> bool)
    requires actions == []
    ensures Count(actions, p) == 0
  {
  }

  /** Every finished candidate is where its provider's answer put it. */
  ghost predicate AsAnswered(s: State, actions: seq<Action>) {
    forall i: nat :: i < |s.probes| ==>
      && (s.probes[i].pc == Recovered ==> Return(i, true) in actions)
      && (s.probes[i].pc == Failed ==> Return(i, false) in actions)
  }

  lemma {:induction false} AnswersDecide(setup: Setup, s: State, before: seq<Action>, actions: seq<Action>)
    requires AsAnswered(s, before) && Possible(setup, s, actions)
    ensures AsAnswered(Run(setup, s, actions), before + actions)
    decreases |actions|
  {
    hide Count, Usage;
    if actions == [] {
      assert before + actions == before;
    } else {
      var a, next := actions[0], Step(setup, s, actions[0]);
      assert forall x :: x in before ==> x in before + [a];
      assert a in before + [a];
      assert AsAnswered(next, before + [a]);
      assert before + [a] + actions[1..] == before + actions;
      hide Step, AsAnswered;
      AnswersDecide(setup, next, before + [a], actions[1..]);
    }
  }

  /** A candidate ends as recovered only on a success of its own probe, and as failed only on a failure of it. */
  lemma OutcomePerCandidate(setup: Setup, candidates: seq<Probe>, actions: seq<Action>, s: State, i: nat)
    requires Reachable(setup, candidates, actions, s) && i < |s.probes|
    ensures s.probes[i].pc == Recovered ==> Return(i, true) in actions
    ensures s.probes[i].pc == Failed ==> Return(i, false) in actions
  {
    var start := Begin(setup, candidates);
    assert forall j :: 0 <= j < |candidates| ==> IsNew(candidates[j]);
    AnswersDecide(setup, start, [], actions);
    assert [] + actions == actions;
  }

  /** The work of a run never changes what the candidates are. */
  lemma {:induction false} RunKeepsEligible(setup: Setup, s: State, actions: seq<Action>, p: string)
    requires Possible(setup, s, actions)
    ensures Count(Run(setup, s, actions).probes, Eligible(p)) == Count(s.probes, Eligible(p))
    decreases |actions|
  {
    hide Count;
    if actions != [] {
      var a := actions[0];
      var next := Step(setup, s, a);
      if !a.ApplyRow? {
        CountUpdate(s.probes, a.i, next.probes[a.i], Eligible(p));
      }
      RunKeepsEligible(setup, next, actions[1..], p);
    }
  }

  /** Each provider is probed exactly as often as its eligible candidates and what is left of its budget allow, in
      whatever order the coroutines ran. */
  lemma ProbedExactly(setup: Setup, candidates: seq<Probe>, actions: seq<Action>, s: State, p: string)
    requires Reachable(setup, candidates, actions, s) && AllDone(s)
    ensures
      var limit := if p in setup.limits then setup.limits[p] else 0;
      var eligible, left := Count(candidates, Eligible(p)), Max(limit - multiset(setup.priorLog)[p], 0);
      Count(s.probes, Probed(p)) == Min(eligible, left)
  {
    UsageIs(setup.priorLog, p);
    hide Count, CountsMatch, Usage;
    ReachableHasInv(setup, candidates, actions, s);
    RunKeepsEligible(setup, Begin(setup, candidates), actions, p);
    CountSplits(s.probes, Eligible(p), Reserved(p), Refused(p));
    CountAgrees(s.probes, Reserved(p), Probed(p));
    assert BudgetOk(setup, s, p);
  }

  // ---------------------------------------------------------------------------------------------
  // Batches of one day
  // ---------------------------------------------------------------------------------------------

  /** A finished batch whose log rows have been flushed. */
  datatype Batch = Batch(setup: Setup, candidates: seq<Probe>, actions: seq<Action>, end: State)

  ghost predicate Flushed(b: Batch) {
    Reachable(b.setup, b.candidates, b.actions, b.end) && AllDone(b.end) && b.end.queuedRows == []
  }

  function LogAfter(batches: seq<Batch>, log: seq<string>): seq<string> {
    if batches == [] then log else Last(batches).end.logged
  }

  /** Batches that do not overlap: each starts from the log its predecessor left, under the same budgets. */
  ghost predicate OneAfterAnother(batches: seq<Batch>, limits: map<string, int>, log: seq<string>) {
    batches == [] ||
    (var b, before := Last(batches), Front(batches);
     && OneAfterAnother(before, limits, log)
     && Flushed(b)
     && b.setup.limits == limits
     && b.setup.priorLog == LogAfter(before, log))
  }

  lemma OneBatchRespectsBudget(b: Batch, p: string)
    requires Flushed(b)
    ensures Usage(b.end.logged, p) <= b.setup.Prior(p) + b.setup.Allowance(p)
  {
    hide Count, CountsMatch, Reachable, Screened;
    ReachableHasInv(b.setup, b.candidates, b.actions, b.end);
    ProbedIsReserved(b.end.probes, p);
    NoUsage(p);
    assert BudgetOk(b.setup, b.end, p);
  }

  /** Over any number of flushed batches in a day, probing never pushes a provider past its budget: its usage stays
      within the budget, or where it already was. */
  lemma {:induction false} DayRespectsBudget(batches: seq<Batch>, limits: map<string, int>, log: seq<string>, p: string)
    requires OneAfterAnother(batches, limits, log)
    ensures
      var used, limit := multiset(LogAfter(batches, log))[p], if p in limits then limits[p] else 0;
      used <= limit || used <= multiset(log)[p]
  {
    UsageIs(LogAfter(batches, log), p);
    UsageIs(log, p);
    hide Flushed, Usage;
    if batches != [] {
      DayRespectsBudget(Front(batches), limits, log, p);
      UsageIs(LogAfter(Front(batches), log), p);
      OneBatchRespectsBudget(Last(batches), p);
    }
  }
}
