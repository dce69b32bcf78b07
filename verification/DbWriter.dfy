/** The write queue of src/db.py: request handlers put tasks, one writer thread applies them in order.

    `Queue` holds what the threads share; its functions are the sections that run under a lock. `State` adds one program
    counter per producer and one for the writer, so that a sequence of actions is an interleaving of the threads. */
module DbWriter {
  import opened Sequences

  const HIGH_PRIORITY_QUEUE_RESERVE := 256

  /** `Stop` is the `None` that `stop` puts. */
  datatype Task = Write(id: int, isLowPriorityLog: bool) | Stop

  predicate IsLog(t: Task) {
    t.Write? && t.isLowPriorityLog
  }

  function Logs(tasks: seq<Task>): nat {
    Count(tasks, IsLog)
  }

  // ---------------------------------------------------------------------------------------------
  // The locked sections
  // ---------------------------------------------------------------------------------------------

  datatype Queue = Queue(
    logsEnabled: bool,
    logLimit: int,
    maxsize: int,
    pendingLogs: int,
    droppedLogs: int,
    tasks: seq<Task>,
    unfinished: int)
  {
    predicate IsFull() {
      |tasks| >= maxsize
    }

    predicate CanReserve() {
      logsEnabled && pendingLogs < logLimit
    }

    function Reserve(): Queue {
      if CanReserve() then this.(pendingLogs := pendingLogs + 1) else this.(droppedLogs := droppedLogs + 1)
    }

    function Put(t: Task): Queue {
      this.(tasks := tasks + [t], unfinished := unfinished + 1)
    }

    function RollBack(): Queue {
      this.(pendingLogs := Max(pendingLogs - 1, 0), droppedLogs := droppedLogs + 1)
    }

    function Release(t: Task): Queue {
      if IsLog(t) then this.(pendingLogs := Max(pendingLogs - 1, 0)) else this
    }

    function Get(): Queue
      requires tasks != []
    {
      this.(tasks := tasks[1..])
    }

    function TaskDone(): Queue {
      this.(unfinished := unfinished - 1)
    }

    function SetPolicy(enabled: bool, size: int): Queue {
      this.(logsEnabled := enabled, logLimit := Max(size, 1))
    }
  }

  function NewQueue(enabled: bool, size: int): Queue {
    Queue(enabled, Max(size, 1), Max(size, 1) + HIGH_PRIORITY_QUEUE_RESERVE, 0, 0, [], 0)
  }

  /** The object itself; each method is one atomic section of its namesake. */
  class DBWriter {
    var lowPriorityLogEnabled: bool
    var lowPriorityLogQueueSize: int
    var pendingLowPriorityLogs: int
    var droppedLowPriorityLogs: int
    var queue: seq<Task>
    var unfinishedTasks: int
    const maxsize: int

    function View(): Queue
      reads this
    {
      Queue(lowPriorityLogEnabled, lowPriorityLogQueueSize, maxsize, pendingLowPriorityLogs, droppedLowPriorityLogs,
            queue, unfinishedTasks)
    }

    constructor (enabled: bool, size: int)
      ensures View() == NewQueue(enabled, size)
      ensures View() == Queue(enabled, Max(size, 1), Max(size, 1) + 256, 0, 0, [], 0)
    {
      lowPriorityLogEnabled, lowPriorityLogQueueSize := enabled, Max(size, 1);
      pendingLowPriorityLogs, droppedLowPriorityLogs, queue, unfinishedTasks := 0, 0, [], 0;
      maxsize := Max(size, 1) + HIGH_PRIORITY_QUEUE_RESERVE;
    }

    method SetLowPriorityLogPolicy(enabled: bool, size: int)
      modifies this
      ensures View() == old(View()).SetPolicy(enabled, size)
      ensures View() == old(View()).(logsEnabled := enabled, logLimit := if size >= 1 then size else 1)
    {
      lowPriorityLogEnabled, lowPriorityLogQueueSize := enabled, Max(size, 1);
    }

    /** First section of `enqueue` for a log task. */
    method ReserveLogSlot() returns (reserved: bool)
      modifies this
      ensures View() == old(View()).Reserve()
      ensures reserved <==> old(lowPriorityLogEnabled) && old(pendingLowPriorityLogs) < old(lowPriorityLogQueueSize)
      ensures View() == if reserved then old(View()).(pendingLogs := old(pendingLowPriorityLogs) + 1)
                        else old(View()).(droppedLogs := old(droppedLowPriorityLogs) + 1)
    {
      if !lowPriorityLogEnabled {
        droppedLowPriorityLogs := droppedLowPriorityLogs + 1;
        return false;
      }
      if pendingLowPriorityLogs >= lowPriorityLogQueueSize {
        droppedLowPriorityLogs := droppedLowPriorityLogs + 1;
        return false;
      }
      pendingLowPriorityLogs := pendingLowPriorityLogs + 1;
      reserved := true;
    }

    /** `queue.put_nowait`; `false` stands for `queue.Full`. */
    method PutNowait(t: Task) returns (accepted: bool)
      modifies this
      ensures accepted == !old(View()).IsFull()
      ensures View() == if accepted then old(View()).Put(t) else old(View())
    {
      if |queue| >= maxsize {
        return false;
      }
      queue, unfinishedTasks := queue + [t], unfinishedTasks + 1;
      accepted := true;
    }

    /** The handler of `queue.Full`. */
    method RollBackLogSlot()
      modifies this
      ensures View() == old(View()).RollBack()
    {
      pendingLowPriorityLogs := Max(pendingLowPriorityLogs - 1, 0);
      droppedLowPriorityLogs := droppedLowPriorityLogs + 1;
    }

    /** `enqueue`, when no other thread comes in between. Other tasks wait for room, so there has to be some. */
    method Enqueue(t: Task) returns (accepted: bool)
      requires 0 <= pendingLowPriorityLogs && (IsLog(t) || !View().IsFull())
      modifies this
      ensures accepted <==> (IsLog(t) ==> old(lowPriorityLogEnabled) && |old(queue)| < maxsize &&
                                          old(pendingLowPriorityLogs) < old(lowPriorityLogQueueSize))
      ensures View() ==
              if !accepted then old(View()).(droppedLogs := old(View()).droppedLogs + 1)
              else if IsLog(t) then old(View()).(pendingLogs := old(View()).pendingLogs + 1).Put(t)
              else old(View()).Put(t)
    {
      if IsLog(t) {
        var reserved := ReserveLogSlot();
        if !reserved {
          return false;
        }
      }
      accepted := PutNowait(t);
      if !accepted {
        RollBackLogSlot();
      }
    }

    /** `queue.get`, once there is something to get. */
    method Get() returns (t: Task)
      requires queue != []
      modifies this
      ensures t == old(queue)[0] && View() == old(View()).Get()
    {
      t, queue := queue[0], queue[1..];
    }

    /** The writer's `finally` block up to `task_done`. */
    method ReleaseLogSlot(t: Task)
      modifies this
      ensures View() == old(View()).Release(t)
    {
      if IsLog(t) {
        pendingLowPriorityLogs := Max(pendingLowPriorityLogs - 1, 0);
      }
    }
  }

  // ---------------------------------------------------------------------------------------------
  // The threads
  // ---------------------------------------------------------------------------------------------

  /** A producer that holds a reserved slot has still to put its log, or has met a full queue and has still to roll
      back. */
  datatype Producer = Idle | Reserved(task: Task) | Refused(task: Task)

  predicate IsBusy(p: Producer) {
    !p.Idle?
  }

  /** `Leaving` has run the statement and is about to enter `finally`; `Closing` has only `task_done` left. */
  datatype Writer =
    | Waiting
    | Executing(task: Task)
    | Leaving(task: Task, raised: bool)
    | Closing(task: Task, raised: bool)
    | Stopped
    | Dead

  function Held(w: Writer): seq<Task> {
    match w
    case Executing(t) => [t]
    case Leaving(t, _) => [t]
    case Closing(t, _) => [t]
    case _ => []
  }

  /** The slot of the task in hand, until the writer gives it back. */
  function HeldSlot(w: Writer): nat {
    if (w.Executing? || w.Leaving?) && IsLog(w.task) then 1 else 0
  }

  /** `history`, `finished`, `applied`, `attempts` and `peak` only observe: every task put, every task for which the
      writer called `task_done`, every statement that ran, the log attempts made and the largest policy size so far. */
  datatype State = State(
    q: Queue,
    producers: seq<Producer>,
    writer: Writer,
    history: seq<Task>,
    finished: seq<Task>,
    applied: seq<Task>,
    attempts: nat,
    peak: int)

  function Start(enabled: bool, size: int, producers: nat): State {
    State(NewQueue(enabled, size), seq(producers, _ => Idle), Waiting, [], [], [], 0, Max(size, 1))
  }

  datatype Action =
    | TryReserve(p: nat, task: Task)
    | TryPut(p: nat)
    | GiveBack(p: nat)
    | PutBlocking(task: Task)
    | ChangePolicy(enabled: bool, size: int)
    | Take
    | Execute(raises: bool)
    | Release
    | Finish

  predicate Enabled(s: State, a: Action) {
    match a
    case TryReserve(p, t) => p < |s.producers| && s.producers[p].Idle? && IsLog(t)
    case TryPut(p) => p < |s.producers| && s.producers[p].Reserved?
    case GiveBack(p) => p < |s.producers| && s.producers[p].Refused?
    case PutBlocking(t) => !IsLog(t) && !s.q.IsFull()
    case ChangePolicy(_, _) => true
    case Take => s.writer.Waiting? && s.q.tasks != []
    case Execute(_) => s.writer.Executing?
    case Release => s.writer.Leaving?
    case Finish => s.writer.Closing?
  }

  function Step(s: State, a: Action): State
    requires Enabled(s, a)
  {
    match a
    case TryReserve(p, t) =>
      s.(q := s.q.Reserve(), attempts := s.attempts + 1,
         producers := if s.q.CanReserve() then s.producers[p := Reserved(t)] else s.producers)
    case TryPut(p) =>
      var t := s.producers[p].task;
      if s.q.IsFull() then s.(producers := s.producers[p := Refused(t)])
      else s.(q := s.q.Put(t), producers := s.producers[p := Idle], history := s.history + [t])
    case GiveBack(p) => s.(q := s.q.RollBack(), producers := s.producers[p := Idle])
    case PutBlocking(t) => s.(q := s.q.Put(t), history := s.history + [t])
    case ChangePolicy(enabled, size) =>
      s.(q := s.q.SetPolicy(enabled, size), peak := Max(s.peak, Max(size, 1)))
    case Take =>
      var t := s.q.tasks[0];
      if t.Stop? then s.(q := s.q.Get().TaskDone(), writer := Stopped, finished := s.finished + [t])
      else s.(q := s.q.Get(), writer := Executing(t))
    case Execute(raises) =>
      s.(writer := Leaving(s.writer.task, raises), applied := s.applied + if raises then [] else [s.writer.task])
    case Release => s.(q := s.q.Release(s.writer.task), writer := Closing(s.writer.task, s.writer.raised))
    case Finish =>
      s.(q := s.q.TaskDone(), finished := s.finished + [s.writer.task],
         writer := if s.writer.raised then Dead else Waiting)
  }

  predicate Possible(s: State, actions: seq<Action>)
    decreases |actions|
  {
    actions == [] || (Enabled(s, actions[0]) && Possible(Step(s, actions[0]), actions[1..]))
  }

  function Run(s: State, actions: seq<Action>): State
    requires Possible(s, actions)
    decreases |actions|
  {
    if actions == [] then s else Run(Step(s, actions[0]), actions[1..])
  }

  // ---------------------------------------------------------------------------------------------
  // What every interleaving keeps
  // ---------------------------------------------------------------------------------------------

  /** The slot count: queued logs, producers between reserving and settling, and the log in the writer's hand. */
  predicate SlotsAccounted(s: State) {
    s.q.pendingLogs == Logs(s.q.tasks) + Count(s.producers, IsBusy) + HeldSlot(s.writer)
  }

  /** First in, first out, with nothing lost or duplicated. */
  predicate InOrder(s: State) {
    s.history == s.finished + Held(s.writer) + s.q.tasks
  }

  /** The statements that ran are the tasks taken, up to the one that stopped or killed the writer. */
  predicate AppliedInOrder(s: State) {
    match s.writer
    case Waiting => s.finished == s.applied
    case Executing(_) => s.finished == s.applied
    case Leaving(t, raised) => s.applied == s.finished + if raised then [] else [t]
    case Closing(t, raised) => s.applied == s.finished + if raised then [] else [t]
    case Stopped => s.finished == s.applied + [Stop]
    case Dead => s.finished != [] && s.applied == Front(s.finished)
  }

  /** Every log attempt is accepted, dropped, or still under way. */
  predicate AttemptsAccounted(s: State) {
    s.attempts == Logs(s.history) + s.q.droppedLogs + Count(s.producers, IsBusy)
  }

  predicate Bounded(s: State) {
    && s.q.unfinished == |s.q.tasks| + |Held(s.writer)|
    && |s.q.tasks| <= s.q.maxsize
    && s.q.pendingLogs <= s.peak && s.q.logLimit <= s.peak && 1 <= s.peak
    && forall p: nat :: p < |s.producers| && IsBusy(s.producers[p]) ==> IsLog(s.producers[p].task)
  }

  predicate Inv(s: State) {
    SlotsAccounted(s) && InOrder(s) && AppliedInOrder(s) && AttemptsAccounted(s) && Bounded(s)
  }

  lemma {:induction false} AllIdle(producers: nat)
    ensures Count(seq(producers, _ => Idle), IsBusy) == 0
  {
    var s: seq<Producer> := seq(producers, _ => Idle);
    NoneBusy(s);
  }

  lemma {:induction false} NoneBusy(s: seq<Producer>)
    requires forall p :: p in s ==> p.Idle?
    ensures Count(s, IsBusy) == 0
  {
    if s != [] {
      NoneBusy(Front(s));
    }
  }

  lemma LogsAfterPut(tasks: seq<Task>, t: Task)
    ensures Logs(tasks + [t]) == Logs(tasks) + if IsLog(t) then 1 else 0
  {
    CountAppend(tasks, [t], IsLog);
    CountOne(t, IsLog);
  }

  lemma LogsAfterTake(tasks: seq<Task>)
    requires tasks != []
    ensures Logs(tasks) == Logs(tasks[1..]) + if IsLog(tasks[0]) then 1 else 0
  {
    assert tasks == [tasks[0]] + tasks[1..];
    CountAppend([tasks[0]], tasks[1..], IsLog);
    CountOne(tasks[0], IsLog);
  }

  lemma ProducerStepKeepsCounts(s: State, a: Action)
    requires SlotsAccounted(s) && AttemptsAccounted(s) && Bounded(s) && Enabled(s, a)
    requires a.TryReserve? || a.TryPut? || a.GiveBack? || a.PutBlocking? || a.ChangePolicy?
    ensures SlotsAccounted(Step(s, a)) && AttemptsAccounted(Step(s, a)) && Bounded(Step(s, a))
  {
    hide Count, Logs;
    match a
    case TryReserve(p, t) =>
      CountUpdate(s.producers, p, Reserved(t), IsBusy);
    case TryPut(p) =>
      var t := s.producers[p].task;
      CountUpdate(s.producers, p, Refused(t), IsBusy);
      CountUpdate(s.producers, p, Idle, IsBusy);
      LogsAfterPut(s.q.tasks, t);
      LogsAfterPut(s.history, t);
    case GiveBack(p) =>
      CountUpdate(s.producers, p, Idle, IsBusy);
    case PutBlocking(t) =>
      LogsAfterPut(s.q.tasks, t);
      LogsAfterPut(s.history, t);
    case _ =>
  }

  lemma WriterStepKeepsCounts(s: State, a: Action)
    requires SlotsAccounted(s) && AttemptsAccounted(s) && Bounded(s) && Enabled(s, a)
    requires a.Take? || a.Execute? || a.Release? || a.Finish?
    ensures SlotsAccounted(Step(s, a)) && AttemptsAccounted(Step(s, a)) && Bounded(Step(s, a))
  {
    hide Count, Logs;
    if a.Take? {
      LogsAfterTake(s.q.tasks);
    }
  }

  lemma StepKeepsFifo(s: State, a: Action)
    requires InOrder(s) && Enabled(s, a)
    ensures InOrder(Step(s, a))
  {
    var done, tasks := s.finished + Held(s.writer), s.q.tasks;
    match a
    case TryPut(p) =>
      assert done + (tasks + [s.producers[p].task]) == done + tasks + [s.producers[p].task];
    case PutBlocking(t) =>
      assert done + (tasks + [t]) == done + tasks + [t];
    case Take =>
      assert s.finished + [tasks[0]] + tasks[1..] == s.finished + [] + tasks;
    case _ =>
  }

  lemma StepKeepsApplied(s: State, a: Action)
    requires AppliedInOrder(s) && Enabled(s, a)
    ensures AppliedInOrder(Step(s, a))
  {
    hide Held, Logs;
  }

  lemma StepKeepsInv(s: State, a: Action)
    requires Inv(s) && Enabled(s, a)
    ensures Inv(Step(s, a))
  {
    hide Step, SlotsAccounted, AttemptsAccounted, Bounded, InOrder, AppliedInOrder;
    StepKeepsFifo(s, a);
    StepKeepsApplied(s, a);
    if a.Take? || a.Execute? || a.Release? || a.Finish? {
      WriterStepKeepsCounts(s, a);
    } else {
      ProducerStepKeepsCounts(s, a);
    }
  }

  /** The invariant holds after every interleaving of producers, roll-backs, policy changes, the writer and its
      crash. */
  lemma {:induction false} RunsKeepInv(s: State, actions: seq<Action>)
    requires Inv(s) && Possible(s, actions)
    ensures Inv(Run(s, actions))
    decreases |actions|
  {
    hide Inv, Step;
    if actions != [] {
      StepKeepsInv(s, actions[0]);
      RunsKeepInv(Step(s, actions[0]), actions[1..]);
    }
  }

  lemma StartHasInv(enabled: bool, size: int, producers: nat)
    ensures Inv(Start(enabled, size, producers))
  {
    AllIdle(producers);
  }

  ghost predicate Reachable(s: State, enabled: bool, size: int, producers: nat, actions: seq<Action>) {
    Possible(Start(enabled, size, producers), actions) && s == Run(Start(enabled, size, producers), actions)
  }

  lemma ReachableHasInv(s: State, enabled: bool, size: int, producers: nat, actions: seq<Action>)
    requires Reachable(s, enabled, size, producers, actions)
    ensures Inv(s)
  {
    hide Inv, Start, Possible, Run;
    StartHasInv(enabled, size, producers);
    RunsKeepInv(Start(enabled, size, producers), actions);
  }

  /** Neither `max(..., 0)` ever clamps: whoever gives a slot back finds the counter positive. */
  lemma ClampsNeverFire(s: State, enabled: bool, size: int, producers: nat, actions: seq<Action>, a: Action)
    requires Reachable(s, enabled, size, producers, actions) && Enabled(s, a)
    requires a.GiveBack? || (a.Release? && IsLog(s.writer.task))
    ensures s.q.pendingLogs >= 1 && Step(s, a).q.pendingLogs == s.q.pendingLogs - 1
  {
    hide Count, Reachable, InOrder, AppliedInOrder, AttemptsAccounted, Bounded;
    ReachableHasInv(s, enabled, size, producers, actions);
    if a.GiveBack? {
      BusyIsCounted(s.producers, a.p);
    }
  }

  lemma {:induction false} BusyIsCounted(producers: seq<Producer>, p: nat)
    requires p < |producers| && IsBusy(producers[p])
    ensures Count(producers, IsBusy) >= 1
  {
    if p < |producers| - 1 {
      BusyIsCounted(Front(producers), p);
    }
  }

  /** When `flush` returns (`unfinished` is 0), every task put so far has been taken in order; unless the writer has
      died, every write among them has run. */
  lemma FlushWaitsForEverything(s: State, enabled: bool, size: int, producers: nat, actions: seq<Action>)
    requires Reachable(s, enabled, size, producers, actions) && s.q.unfinished == 0
    ensures s.finished == s.history && s.q.tasks == []
    ensures s.writer.Waiting? ==> s.applied == s.history
    ensures s.writer.Stopped? ==> s.history == s.applied + [Stop]
  {
    hide Reachable;
    ReachableHasInv(s, enabled, size, producers, actions);
  }

  // ---------------------------------------------------------------------------------------------
  // The reserve for other writes
  // ---------------------------------------------------------------------------------------------

  /** No policy change in `actions` asks for more than `most`. */
  ghost predicate PolicyAtMost(actions: seq<Action>, most: int) {
    forall a :: a in actions && a.ChangePolicy? ==> a.size <= most
  }

  lemma {:induction false} PeakIsBounded(s: State, actions: seq<Action>, most: int)
    requires Possible(s, actions) && PolicyAtMost(actions, most) && s.peak <= most && 1 <= most
    ensures Run(s, actions).peak <= most && Run(s, actions).q.maxsize == s.q.maxsize
    decreases |actions|
  {
    if actions != [] {
      PeakIsBounded(Step(s, actions[0]), actions[1..], most);
    }
  }

  /** A queue full to its `maxsize` holds at least `size + 256 - most` tasks that are not logs, where `most` bounds the
      sizes the log policy ever had: the full 256 if it was never raised above the constructed size. */
  lemma FullQueueKeepsReserve(s: State, enabled: bool, size: int, producers: nat, actions: seq<Action>, most: int)
    requires Reachable(s, enabled, size, producers, actions)
    requires PolicyAtMost(actions, most) && Max(size, 1) <= most && s.q.IsFull()
    ensures |s.q.tasks| - Logs(s.q.tasks) >= Max(size, 1) + HIGH_PRIORITY_QUEUE_RESERVE - most
  {
    hide Count, Run, Possible;
    ReachableHasInv(s, enabled, size, producers, actions);
    PeakIsBounded(Start(enabled, size, producers), actions, most);
  }

  /** One idle producer, an idle writer and room for more. */
  predicate CanFill(s: State, logs: nat, others: nat) {
    && s.producers == [Idle] && s.q.logsEnabled
    && s.q.pendingLogs + logs <= s.q.logLimit
    && |s.q.tasks| + logs + others <= s.q.maxsize
  }

  lemma {:induction false} Fill(s: State, logs: nat, others: nat) returns (actions: seq<Action>)
    requires CanFill(s, logs, others)
    ensures Possible(s, actions) && forall a :: a in actions ==> !a.ChangePolicy?
    ensures |Run(s, actions).q.tasks| == |s.q.tasks| + logs + others
    ensures Logs(Run(s, actions).q.tasks) == Logs(s.q.tasks) + logs
    decreases logs + others
  {
    hide Logs;
    if logs > 0 {
      var reserve, put := TryReserve(0, Write(0, true)), TryPut(0);
      var mid := Step(s, reserve);
      var next := Step(mid, put);
      LogsAfterPut(s.q.tasks, Write(0, true));
      assert next.producers == [Idle];
      var rest := Fill(next, logs - 1, others);
      Prepend(mid, put, rest);
      actions := [reserve] + ([put] + rest);
      Prepend(s, reserve, [put] + rest);
    } else if others > 0 {
      var put := PutBlocking(Write(0, false));
      LogsAfterPut(s.q.tasks, Write(0, false));
      var rest := Fill(Step(s, put), 0, others - 1);
      actions := [put] + rest;
      Prepend(s, put, rest);
    } else {
      actions := [];
    }
  }

  lemma Prepend(s: State, a: Action, rest: seq<Action>)
    requires Enabled(s, a) && Possible(Step(s, a), rest)
    ensures Possible(s, [a] + rest) && Run(s, [a] + rest) == Run(Step(s, a), rest)
  {
    assert ([a] + rest)[1..] == rest;
  }

  /** The bound is exact, so raising the policy above the constructed size does cost the reserve: for every `most` there
      is an interleaving whose full queue holds just that many tasks that are not logs, and none at all from a `most` of
      the queue's own size on. */
  lemma ReserveBoundIsReached(size: int, most: int) returns (actions: seq<Action>, s: State)
    requires Max(size, 1) <= most
    ensures Reachable(s, true, size, 1, actions) && PolicyAtMost(actions, most) && s.q.IsFull()
    ensures |s.q.tasks| - Logs(s.q.tasks) == Max(Max(size, 1) + HIGH_PRIORITY_QUEUE_RESERVE - most, 0)
  {
    var raise := ChangePolicy(true, most);
    var start := Start(true, size, 1);
    assert start.producers == [Idle];
    var raised := Step(start, raise);
    var logs := Min(most, start.q.maxsize);
    var rest := Fill(raised, logs, start.q.maxsize - logs);
    Prepend(start, raise, rest);
    actions := [raise] + rest;
    s := Run(start, actions);
    PeakIsBounded(start, actions, most);
  }

  // ---------------------------------------------------------------------------------------------
  // The policy
  // ---------------------------------------------------------------------------------------------

  /** An attempt to log under a policy that is off, or with no slot left, is one more drop and nothing else; otherwise
      the producer holds one more slot. */
  lemma ReserveIff(s: State, p: nat, t: Task)
    requires Enabled(s, TryReserve(p, t))
    ensures
      var next := Step(s, TryReserve(p, t));
      if s.q.logsEnabled && s.q.pendingLogs < s.q.logLimit
      then next == s.(producers := s.producers[p := Reserved(t)], q := s.q.(pendingLogs := s.q.pendingLogs + 1),
                      attempts := s.attempts + 1)
      else next == s.(q := s.q.(droppedLogs := s.q.droppedLogs + 1), attempts := s.attempts + 1)
  {
  }

  /** A change of policy sets both fields, a size of at least one, and neither the capacity nor anything pending. */
  lemma PolicyIs(s: State, enabled: bool, size: int)
    ensures
      var next := Step(s, ChangePolicy(enabled, size));
      && next.q == s.q.(logsEnabled := enabled, logLimit := if size >= 1 then size else 1)
      && next.producers == s.producers && next.writer == s.writer && next.history == s.history
    ensures Start(enabled, size, 0).q == Queue(enabled, Max(size, 1), Max(size, 1) + 256, 0, 0, [], 0)
  {
  }

  predicate TurnsOn(a: Action) {
    a.ChangePolicy? && a.enabled
  }

  function Attempts(actions: seq<Action>): nat
    decreases |actions|
  {
    if actions == [] then 0 else (if actions[0].TryReserve? then 1 else 0) + Attempts(actions[1..])
  }

  /** The log was held by a producer that had reserved its slot. */
  ghost predicate WasReserved(s: State, t: Task) {
    exists p: nat :: p < |s.producers| && s.producers[p] == Reserved(t)
  }

  /** While the policy stays off, in any interleaving: every log that still gets into the queue had its slot reserved
      before, and every attempt is dropped. */
  lemma {:induction false} OffMeansNoNewLogs(s: State, actions: seq<Action>)
    requires !s.q.logsEnabled && Possible(s, actions) && forall a :: a in actions ==> !TurnsOn(a)
    ensures
      var end := Run(s, actions);
      && !end.q.logsEnabled && s.history <= end.history
      && (forall t :: t in end.history[|s.history|..] && IsLog(t) ==> WasReserved(s, t))
      && end.q.droppedLogs >= s.q.droppedLogs + Attempts(actions)
    decreases |actions|
  {
    if actions != [] {
      var a, next, end := actions[0], Step(s, actions[0]), Run(s, actions);
      assert a in actions;
      OffStep(s, a);
      hide Step, Enabled;
      OffMeansNoNewLogs(next, actions[1..]);
      forall t | t in end.history[|s.history|..] && IsLog(t)
        ensures WasReserved(s, t)
      {
        assert end.history[|s.history|..] == next.history[|s.history|..] + end.history[|next.history|..];
      }
    }
  }

  lemma OffStep(s: State, a: Action)
    requires !s.q.logsEnabled && Enabled(s, a) && !TurnsOn(a)
    ensures
      var next := Step(s, a);
      && !next.q.logsEnabled && s.history <= next.history
      && (forall t :: t in next.history[|s.history|..] && IsLog(t) ==> WasReserved(s, t))
      && (forall t :: WasReserved(next, t) ==> WasReserved(s, t))
      && next.q.droppedLogs >= s.q.droppedLogs + if a.TryReserve? then 1 else 0
  {
    var next := Step(s, a);
    assert forall p: nat :: p < |next.producers| && next.producers[p].Reserved? ==> next.producers[p] == s.producers[p];
    if a.TryPut? {
      assert WasReserved(s, s.producers[a.p].task);
    }
  }
}
