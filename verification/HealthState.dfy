/** The failure, back-off and cooldown columns of one row of `models`: `mark_failure` and `mark_success` of
    src/health.py and the health part of the upsert of src/discover.py. Writes wait in the FIFO queue of src/db.py
    while `mark_failure` computes the next back-off from the row as it stands, so that read may be stale. */
module HealthState {
  import opened Sequences

  /** Minutes since some fixed moment stand for timestamps; `cooldownUntil` is NULL when there is no cooldown. */
  datatype Row = Row(consecutiveFailures: nat, backoffLevel: nat, cooldownUntil: Option<int>, isHealthy: bool)

  datatype Write = Failure(nextBackoff: nat, cooldownUntil: int) | Success | Discovered

  datatype Settings = Settings(maxBackoffExponent: nat, failureThreshold: int, cooldownMinutes: nat)

  const FRESH := Row(0, 0, None, true)

  /** The write `mark_failure` enqueues for a row whose back-off reads `backoff`. */
  function MarkFailure(cfg: Settings, backoff: nat, now: int): Write {
    var next := Min(backoff + 1, cfg.maxBackoffExponent);
    Failure(next, now + cfg.cooldownMinutes * Pow2(next))
  }

  function Apply(cfg: Settings, r: Row, w: Write): Row {
    match w
    case Failure(next, until) =>
      var count := r.consecutiveFailures + 1;
      Row(count, next, Some(until), if count >= cfg.failureThreshold then false else r.isHealthy)
    case Success => Row(0, 0, None, true)
    case Discovered => r.(isHealthy := true)
  }

  /** The row, the writes still queued, and every write applied so far. */
  datatype State = State(row: Row, queue: seq<Write>, applied: seq<Write>)

  const START := State(FRESH, [], [])

  datatype Action = Fail(now: int) | Succeed | Discover | ApplyNext

  predicate Enabled(s: State, a: Action) {
    a.ApplyNext? ==> s.queue != []
  }

  function Step(cfg: Settings, s: State, a: Action): State
    requires Enabled(s, a)
  {
    match a
    case Fail(now) => s.(queue := s.queue + [MarkFailure(cfg, s.row.backoffLevel, now)])
    case Succeed => s.(queue := s.queue + [Success])
    case Discover => s.(queue := s.queue + [Discovered])
    case ApplyNext =>
      State(Apply(cfg, s.row, s.queue[0]), s.queue[1..], s.applied + [s.queue[0]])
  }

  // ---------------------------------------------------------------------------------------------
  // The row in terms of the writes applied
  // ---------------------------------------------------------------------------------------------

  function FailuresSinceSuccess(applied: seq<Write>): nat {
    if applied == [] || Last(applied).Success? then 0
    else FailuresSinceSuccess(Front(applied)) + if Last(applied).Failure? then 1 else 0
  }

  /** The last failure after the last success. */
  function StandingFailure(applied: seq<Write>): Option<Write> {
    if applied == [] || Last(applied).Success? then None
    else if Last(applied).Failure? then Some(Last(applied))
    else StandingFailure(Front(applied))
  }

  /** Unhealthy means: the latest write is a failure, and at least `failureThreshold` have piled up. */
  predicate DownBy(cfg: Settings, applied: seq<Write>) {
    applied != [] && Last(applied).Failure? && FailuresSinceSuccess(applied) >= cfg.failureThreshold
  }

  function BackoffOf(w: Option<Write>): nat
    requires w.Some? ==> w.value.Failure?
  {
    if w.None? then 0 else w.value.nextBackoff
  }

  predicate FromHistory(cfg: Settings, s: State) {
    var standing := StandingFailure(s.applied);
    && s.row.consecutiveFailures == FailuresSinceSuccess(s.applied)
    && (standing.Some? ==> standing.value.Failure?)
    && s.row.backoffLevel == BackoffOf(standing)
    && s.row.cooldownUntil == (if standing.None? then None else Some(standing.value.cooldownUntil))
    && s.row.isHealthy == !DownBy(cfg, s.applied)
    && (standing.None? <==> FailuresSinceSuccess(s.applied) == 0)
  }

  predicate BackoffInRange(cfg: Settings, b: nat) {
    b <= cfg.maxBackoffExponent
  }

  predicate Sane(cfg: Settings, s: State) {
    && FromHistory(cfg, s)
    && BackoffInRange(cfg, s.row.backoffLevel)
    && forall w :: w in s.queue && w.Failure? ==> BackoffInRange(cfg, w.nextBackoff)
  }

  lemma StepKeepsSane(cfg: Settings, s: State, a: Action)
    requires Sane(cfg, s) && Enabled(s, a)
    ensures Sane(cfg, Step(cfg, s, a))
  {
    if a.ApplyNext? {
      assert s.queue[0] in s.queue;
      assert Front(s.applied + [s.queue[0]]) == s.applied;
    }
  }

  predicate Possible(cfg: Settings, s: State, actions: seq<Action>)
    decreases |actions|
  {
    actions == [] || (Enabled(s, actions[0]) && Possible(cfg, Step(cfg, s, actions[0]), actions[1..]))
  }

  function Run(cfg: Settings, s: State, actions: seq<Action>): State
    requires Possible(cfg, s, actions)
    decreases |actions|
  {
    if actions == [] then s else Run(cfg, Step(cfg, s, actions[0]), actions[1..])
  }

  lemma {:induction false} RunsStaySane(cfg: Settings, s: State, actions: seq<Action>)
    requires Sane(cfg, s) && Possible(cfg, s, actions)
    ensures Sane(cfg, Run(cfg, s, actions))
    decreases |actions|
  {
    hide Sane, Step;
    if actions != [] {
      StepKeepsSane(cfg, s, actions[0]);
      RunsStaySane(cfg, Step(cfg, s, actions[0]), actions[1..]);
    }
  }

  /** After every run, however stale the reads were: the counter counts the failures since the last applied success,
      there is a cooldown exactly when it is not 0, an unhealthy row has reached the threshold, and the back-off is in
      range. */
  lemma RowAfterAnyRun(cfg: Settings, actions: seq<Action>)
    requires Possible(cfg, START, actions)
    ensures
      var s := Run(cfg, START, actions);
      && s.row.consecutiveFailures == FailuresSinceSuccess(s.applied)
      && (s.row.cooldownUntil.None? <==> s.row.consecutiveFailures == 0)
      && (!s.row.isHealthy <==> DownBy(cfg, s.applied))
      && (!s.row.isHealthy ==> s.row.consecutiveFailures >= cfg.failureThreshold)
      && BackoffInRange(cfg, s.row.backoffLevel)
  {
    RunsStaySane(cfg, START, actions);
  }

  // ---------------------------------------------------------------------------------------------
  // How long a cooldown lasts
  // ---------------------------------------------------------------------------------------------

  /** The cooldown ends the base time, doubled once per level of back-off, after one of the given moments. */
  ghost predicate Timed(cfg: Settings, level: nat, until: int, moments: set<int>) {
    exists now :: now in moments && until - now == cfg.cooldownMinutes * Pow2(level)
  }

  ghost predicate AllTimed(cfg: Settings, s: State, moments: set<int>) {
    && (s.row.cooldownUntil.Some? ==> Timed(cfg, s.row.backoffLevel, s.row.cooldownUntil.value, moments))
    && (forall w :: w in s.queue && w.Failure? ==> Timed(cfg, w.nextBackoff, w.cooldownUntil, moments))
  }

  function Moments(actions: seq<Action>): set<int> {
    set a | a in actions && a.Fail? :: a.now
  }

  lemma StepKeepsTimed(cfg: Settings, s: State, a: Action, moments: set<int>)
    requires AllTimed(cfg, s, moments) && Enabled(s, a) && (a.Fail? ==> a.now in moments)
    ensures AllTimed(cfg, Step(cfg, s, a), moments)
  {
    hide Pow2;
    if a.Fail? {
      var w := MarkFailure(cfg, s.row.backoffLevel, a.now);
      assert w.cooldownUntil - a.now == cfg.cooldownMinutes * Pow2(w.nextBackoff);
      assert Timed(cfg, w.nextBackoff, w.cooldownUntil, moments);
    } else if a.ApplyNext? {
      assert s.queue[0] in s.queue;
    }
  }

  lemma {:induction false} RunsKeepTimed(cfg: Settings, s: State, actions: seq<Action>, moments: set<int>)
    requires AllTimed(cfg, s, moments) && Possible(cfg, s, actions) && Moments(actions) <= moments
    ensures AllTimed(cfg, Run(cfg, s, actions), moments)
    decreases |actions|
  {
    if actions != [] {
      hide AllTimed, Step;
      assert actions[0] in actions;
      assert actions[0].Fail? ==> actions[0].now in Moments(actions);
      StepKeepsTimed(cfg, s, actions[0], moments);
      assert forall a :: a in actions[1..] ==> a in actions;
      RunsKeepTimed(cfg, Step(cfg, s, actions[0]), actions[1..], moments);
    }
  }

  /** After every run, a cooldown ends the base time, doubled once per level of the row's back-off, after some
      failure. */
  lemma CooldownAfterAnyRun(cfg: Settings, actions: seq<Action>)
    requires Possible(cfg, START, actions)
    ensures
      var row := Run(cfg, START, actions).row;
      row.cooldownUntil.Some? ==> exists now ::
        Fail(now) in actions && row.cooldownUntil.value - now == cfg.cooldownMinutes * Pow2(row.backoffLevel)
  {
    RunsKeepTimed(cfg, START, actions, Moments(actions));
  }

  /** Each failure that reads a higher back-off doubles the cooldown, until the cap; the first of all doubles the
      base. */
  lemma CooldownsDouble(cfg: Settings, level: nat, now: int)
    ensures
      var length := MarkFailure(cfg, level, now).cooldownUntil - now;
      var next := MarkFailure(cfg, level + 1, now).cooldownUntil - now;
      && (level + 1 < cfg.maxBackoffExponent ==> next == 2 * length)
      && (level + 1 >= cfg.maxBackoffExponent ==> next == length)
    ensures MarkFailure(cfg, 0, now).cooldownUntil - now ==
            (if cfg.maxBackoffExponent == 0 then 1 else 2) * cfg.cooldownMinutes
  {
    assert Pow2(1) == 2;
    var power := Pow2(level + 1);
    assert Pow2(level + 2) == 2 * power;
    assert cfg.cooldownMinutes * (2 * power) == 2 * (cfg.cooldownMinutes * power);
  }

  // ---------------------------------------------------------------------------------------------
  // Runs of failures only
  // ---------------------------------------------------------------------------------------------

  ghost predicate OnlyFailures(actions: seq<Action>) {
    forall a :: a in actions ==> a.Fail? || a.ApplyNext?
  }

  /** The queued back-offs climb from the row's own, at most one above it. */
  predicate Climbing(cfg: Settings, s: State) {
    && s.row.backoffLevel <= Min(s.row.consecutiveFailures, cfg.maxBackoffExponent)
    && (forall i :: 0 <= i < |s.queue| ==>
        && s.queue[i].Failure?
        && s.row.backoffLevel <= s.queue[i].nextBackoff <= Min(s.row.backoffLevel + 1, cfg.maxBackoffExponent))
    && (forall i, j :: 0 <= i < j < |s.queue| ==> s.queue[i].nextBackoff <= s.queue[j].nextBackoff)
  }

  lemma StepClimbs(cfg: Settings, s: State, a: Action)
    requires Climbing(cfg, s) && Enabled(s, a) && (a.Fail? || a.ApplyNext?)
    ensures Climbing(cfg, Step(cfg, s, a))
    ensures s.row.backoffLevel <= Step(cfg, s, a).row.backoffLevel
  {
  }

  /** While a model only fails, its back-off never decreases and never exceeds the number of failures. */
  lemma {:induction false} BackoffClimbs(cfg: Settings, s: State, actions: seq<Action>)
    requires Climbing(cfg, s) && OnlyFailures(actions) && Possible(cfg, s, actions)
    ensures
      var end := Run(cfg, s, actions);
      Climbing(cfg, end) && s.row.backoffLevel <= end.row.backoffLevel <= end.row.consecutiveFailures
    decreases |actions|
  {
    if actions != [] {
      hide Climbing, Step;
      assert actions[0] in actions;
      StepClimbs(cfg, s, actions[0]);
      BackoffClimbs(cfg, Step(cfg, s, actions[0]), actions[1..]);
    }
  }

  /** The same for the first failures of a new model, between any two moments of the run. */
  lemma BackoffClimbsFromStart(cfg: Settings, before: seq<Action>, after: seq<Action>)
    requires OnlyFailures(before) && OnlyFailures(after)
    requires Possible(cfg, START, before) && Possible(cfg, Run(cfg, START, before), after)
    ensures
      var middle := Run(cfg, START, before);
      var end := Run(cfg, middle, after);
      middle.row.backoffLevel <= end.row.backoffLevel <= end.row.consecutiveFailures
  {
    BackoffClimbs(cfg, START, before);
    BackoffClimbs(cfg, Run(cfg, START, before), after);
  }

  // ---------------------------------------------------------------------------------------------
  // What stale reads cost
  // ---------------------------------------------------------------------------------------------

  function ApplyAll(cfg: Settings, r: Row, ws: seq<Write>): Row {
    if ws == [] then r else Apply(cfg, ApplyAll(cfg, r, Front(ws)), Last(ws))
  }

  lemma {:induction false} ApplyAllFirst(cfg: Settings, r: Row, ws: seq<Write>)
    requires ws != []
    ensures ApplyAll(cfg, r, ws) == ApplyAll(cfg, Apply(cfg, r, ws[0]), ws[1..])
  {
    if |ws| > 1 {
      ApplyAllFirst(cfg, r, Front(ws));
      assert Front(ws)[1..] == Front(ws[1..]) && Last(ws[1..]) == Last(ws);
    }
  }

  /** The row once the queue is empty. */
  function Drained(cfg: Settings, s: State): Row {
    ApplyAll(cfg, s.row, s.queue)
  }

  /** The exponential back-off that is meant: the failure count, capped. */
  predicate Exact(cfg: Settings, s: State) {
    var r := Drained(cfg, s);
    r.backoffLevel == Min(r.consecutiveFailures, cfg.maxBackoffExponent)
  }

  /** In any state of any run: a failure leaves the back-off exact if and only if the back-off it reads is the count
      that will stand before it, or both have reached the cap; a success always does, and nothing else matters. */
  lemma ReadDecides(cfg: Settings, s: State, a: Action)
    requires Enabled(s, a)
    ensures a.Fail? ==>
      var count, most := Drained(cfg, s).consecutiveFailures, cfg.maxBackoffExponent;
      Exact(cfg, Step(cfg, s, a)) <==> s.row.backoffLevel == count || Min(s.row.backoffLevel, count) + 1 >= most
    ensures a.Succeed? ==> Exact(cfg, Step(cfg, s, a))
    ensures a.Discover? || a.ApplyNext? ==> (Exact(cfg, Step(cfg, s, a)) <==> Exact(cfg, s))
  {
    var next := Step(cfg, s, a);
    if a.ApplyNext? {
      ApplyAllFirst(cfg, s.row, s.queue);
    } else {
      assert Front(next.queue) == s.queue;
    }
  }

  /** Every failure was recorded with an empty queue, that is, after a flush. */
  predicate FreshReads(cfg: Settings, s: State, actions: seq<Action>)
    requires Possible(cfg, s, actions)
    decreases |actions|
  {
    actions == [] ||
    ((actions[0].Fail? ==> s.queue == []) && FreshReads(cfg, Step(cfg, s, actions[0]), actions[1..]))
  }

  /** With fresh reads the back-off is exact in every run, successes and discoveries included. */
  lemma {:induction false} FreshReadsAreExact(cfg: Settings, s: State, actions: seq<Action>)
    requires Exact(cfg, s) && Possible(cfg, s, actions) && FreshReads(cfg, s, actions)
    ensures Exact(cfg, Run(cfg, s, actions))
    decreases |actions|
  {
    if actions != [] {
      ReadDecides(cfg, s, actions[0]);
      assert s.queue == [] ==> Drained(cfg, s) == s.row;
      hide Step, Exact;
      FreshReadsAreExact(cfg, Step(cfg, s, actions[0]), actions[1..]);
    }
  }

  /** Without levels, from the order of events alone. A failure is up to date when it is recorded while none that is up
      to date waits in the queue; `waiting` is the place in the queue of the one that does, or -1. */
  datatype Schedule = Schedule(queued: nat, waiting: int, upToDate: nat, recorded: nat)

  const IDLE := Schedule(0, -1, 0, 0)

  function Schedules(c: Schedule, a: Action): Schedule {
    if a.ApplyNext? then
      if c.queued == 0 then c else c.(queued := c.queued - 1, waiting := Max(c.waiting - 1, -1))
    else if c.waiting >= 0 then c.(queued := c.queued + 1, recorded := c.recorded + 1)
    else Schedule(c.queued + 1, c.queued, c.upToDate + 1, c.recorded + 1)
  }

  /** The back-off after the first `i` queued failures. */
  function Level(cfg: Settings, c: Schedule, i: nat): int {
    Min(c.upToDate - if c.waiting >= i then 1 else 0, cfg.maxBackoffExponent)
  }

  ghost predicate Tracks(cfg: Settings, s: State, c: Schedule) {
    && c.queued == |s.queue| && -1 <= c.waiting < c.queued && c.upToDate <= c.recorded
    && s.row.backoffLevel == Level(cfg, c, 0)
    && (forall i :: 0 <= i < |s.queue| ==> s.queue[i].Failure? && s.queue[i].nextBackoff == Level(cfg, c, i + 1))
    && s.row.consecutiveFailures + |s.queue| == c.recorded
  }

  lemma StepTracks(cfg: Settings, s: State, c: Schedule, a: Action)
    requires Tracks(cfg, s, c) && Enabled(s, a) && (a.Fail? || a.ApplyNext?)
    ensures Tracks(cfg, Step(cfg, s, a), Schedules(c, a))
  {
  }

  function After(c: Schedule, actions: seq<Action>): Schedule
    decreases |actions|
  {
    if actions == [] then c else After(Schedules(c, actions[0]), actions[1..])
  }

  lemma {:induction false} RunTracks(cfg: Settings, s: State, c: Schedule, actions: seq<Action>)
    requires Tracks(cfg, s, c) && OnlyFailures(actions) && Possible(cfg, s, actions)
    ensures Tracks(cfg, Run(cfg, s, actions), After(c, actions))
    decreases |actions|
  {
    hide Tracks, Step, Schedules;
    if actions != [] {
      assert actions[0] in actions;
      StepTracks(cfg, s, c, actions[0]);
      RunTracks(cfg, Step(cfg, s, actions[0]), Schedules(c, actions[0]), actions[1..]);
    }
  }

  lemma {:induction false} ApplyFailures(cfg: Settings, r: Row, ws: seq<Write>)
    requires forall w :: w in ws ==> w.Failure?
    ensures
      var end := ApplyAll(cfg, r, ws);
      && end.consecutiveFailures == r.consecutiveFailures + |ws|
      && end.backoffLevel == if ws == [] then r.backoffLevel else Last(ws).nextBackoff
  {
    if ws != [] {
      ApplyFailures(cfg, r, Front(ws));
    }
  }

  /** From the order of events to the back-off: while a model only fails, the drained back-off is the number of failures
      that were up to date, capped, so it is exact if and only if enough of them were. */
  lemma DrainedBackoff(cfg: Settings, actions: seq<Action>)
    requires OnlyFailures(actions) && Possible(cfg, START, actions)
    ensures
      var s, c := Run(cfg, START, actions), After(IDLE, actions);
      && Drained(cfg, s).consecutiveFailures == c.recorded
      && Drained(cfg, s).backoffLevel == Min(c.upToDate, cfg.maxBackoffExponent)
      && (Exact(cfg, s) <==> c.upToDate >= Min(c.recorded, cfg.maxBackoffExponent))
  {
    var s, c := Run(cfg, START, actions), After(IDLE, actions);
    RunTracks(cfg, START, IDLE, actions);
    ApplyFailures(cfg, s.row, s.queue);
  }

  /** Only a failure recorded with an empty queue keeps all failures up to date. */
  lemma {:induction false} AllUpToDateIff(cfg: Settings, s: State, c: Schedule, actions: seq<Action>)
    requires Tracks(cfg, s, c) && OnlyFailures(actions) && Possible(cfg, s, actions)
    requires c.upToDate == c.recorded ==> c.waiting == c.queued - 1
    ensures After(c, actions).upToDate == After(c, actions).recorded <==>
            c.upToDate == c.recorded && FreshReads(cfg, s, actions)
    ensures c.recorded - c.upToDate <= After(c, actions).recorded - After(c, actions).upToDate
    decreases |actions|
  {
    if actions != [] {
      assert actions[0] in actions;
      StepTracks(cfg, s, c, actions[0]);
      var next := Schedules(c, actions[0]);
      hide Step, Tracks;
      AllUpToDateIff(cfg, Step(cfg, s, actions[0]), next, actions[1..]);
    }
  }

  /** Up to as many failures as the cap allows, the back-off is exact if and only if each was recorded after a flush. */
  lemma ExactIffFresh(cfg: Settings, actions: seq<Action>)
    requires OnlyFailures(actions) && Possible(cfg, START, actions)
    requires Drained(cfg, Run(cfg, START, actions)).consecutiveFailures <= cfg.maxBackoffExponent
    ensures Exact(cfg, Run(cfg, START, actions)) <==> FreshReads(cfg, START, actions)
  {
    hide Drained, Exact, FreshReads, Step;
    DrainedBackoff(cfg, actions);
    AllUpToDateIff(cfg, START, IDLE, actions);
  }

  /** Stale reads do lose increments: two failures recorded before either is applied leave a back-off of 1. */
  lemma StaleReadsLoseIncrements(cfg: Settings, now: int)
    requires 2 <= cfg.maxBackoffExponent
    ensures
      var s := Step(cfg, Step(cfg, Step(cfg, Step(cfg, START, Fail(now)), Fail(now)), ApplyNext), ApplyNext);
      s.row.consecutiveFailures == 2 && s.row.backoffLevel == 1
  {
    var one := Step(cfg, START, Fail(now));
    var two := Step(cfg, one, Fail(now));
    assert two.queue == [MarkFailure(cfg, 0, now), MarkFailure(cfg, 0, now)];
  }

  /** Stale reads also undo a success: a failure queued behind one leaves a count of 1 and one more than the back-off
      from before the success. */
  lemma FailureBehindSuccess(cfg: Settings, s: State, now: int)
    ensures
      var r := Drained(cfg, Step(cfg, Step(cfg, s, Succeed), Fail(now)));
      r.consecutiveFailures == 1 && r.backoffLevel == Min(s.row.backoffLevel + 1, cfg.maxBackoffExponent)
  {
    var queue := s.queue + [Success];
    var more := queue + [MarkFailure(cfg, s.row.backoffLevel, now)];
    assert Front(queue) == s.queue && Front(more) == queue;
    assert ApplyAll(cfg, s.row, queue) == FRESH;
  }
}
