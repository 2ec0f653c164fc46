/** Scheduled oracle tasks: when each one runs, how often, and what it pays. */
module Scheduler {
  import opened Bytes
  import opened Prelude

  type Address = nat
  type Feed = nat

  const MIN_INTERVAL := 100

  /** The text whose hash names a task; the hash is taken to be injective. */
  datatype TaskID = TaskID(caller: Address, feed: Feed, startBlock: UInt64, number: nat)

  datatype Task = Task(
    caller: Address, feed: Feed, interval: UInt64, nextBlock: UInt64, lastExecuted: UInt64,
    executions: nat, maxExecutions: UInt64, reward: UInt64, active: bool)

  datatype Error = IntervalTooShort | TaskNotFound | OnlyCallerCancels

  datatype Result<T> = Success(value: T) | Failure(error: Error)

  /** The task counter lives in storage and may have been advanced by earlier engines. */
  datatype Engine = Engine(tasks: map<TaskID, Task>, order: seq<TaskID>, taskCount: nat, balances: map<Address, int>)

  // ----- one task in one call

  predicate Exhausted(t: Task) {
    t.maxExecutions > 0 && t.executions >= t.maxExecutions
  }

  predicate Runs(t: Task, block: UInt64) {
    t.active && !Exhausted(t) && block >= t.nextBlock
  }

  /** The next block wraps around like every 64-bit sum. */
  function Stepped(t: Task, block: UInt64): Task {
    if !t.active then t
    else if Exhausted(t) then t.(active := false)
    else if block >= t.nextBlock then
      t.(executions := t.executions + 1, lastExecuted := block, nextBlock := (block + t.interval) % TWO_TO_64)
    else t
  }

  // ----- the three operations

  function NewID(e: Engine, caller: Address, feed: Feed, startBlock: UInt64): TaskID {
    TaskID(caller, feed, startBlock, e.taskCount + 1)
  }

  function AfterSchedule(e: Engine, caller: Address, feed: Feed, interval: UInt64, startBlock: UInt64,
                         maxExecutions: UInt64, reward: UInt64): Engine {
    if interval < MIN_INTERVAL then e
    else
      var id := NewID(e, caller, feed, startBlock);
      e.(tasks := e.tasks[id := Task(caller, feed, interval, startBlock, 0, 0, maxExecutions, reward, true)],
         order := e.order + [id],
         taskCount := e.taskCount + 1)
  }

  function AfterCancel(e: Engine, id: TaskID, caller: Address): Engine {
    if id in e.tasks && e.tasks[id].caller == caller
    then e.(tasks := e.tasks[id := e.tasks[id].(active := false)])
    else e
  }

  /** One turn of the loop over the task order. */
  function AfterTask(e: Engine, id: TaskID, block: UInt64): Engine
    requires id in e.tasks
  {
    var t := e.tasks[id];
    e.(tasks := e.tasks[id := Stepped(t, block)],
       balances := if Runs(t, block) && t.reward > 0
                   then e.balances[t.caller := At(e.balances, t.caller) + t.reward]
                   else e.balances)
  }

  ghost predicate Ordered(e: Engine) {
    && (forall i, j | 0 <= i < j < |e.order| :: e.order[i] != e.order[j])
    && (forall id :: id in e.tasks <==> id in e.order)
  }

  ghost function AfterFirst(e: Engine, block: UInt64, n: nat): (r: Engine)
    requires Ordered(e) && n <= |e.order|
    ensures r.tasks.Keys == e.tasks.Keys && r.order == e.order && r.taskCount == e.taskCount
  {
    if n == 0 then e else
      var before := AfterFirst(e, block, n - 1);
      assert e.order[n - 1] in before.tasks.Keys;
      AfterTask(before, e.order[n - 1], block)
  }

  ghost function AfterExecute(e: Engine, block: UInt64): Engine
    requires Ordered(e)
  {
    AfterFirst(e, block, |e.order|)
  }

  /** The tasks that run, in order. */
  ghost function Due(e: Engine, block: UInt64, n: nat): seq<TaskID>
    requires Ordered(e) && n <= |e.order|
  {
    if n == 0 then []
    else if Runs(e.tasks[e.order[n - 1]], block) then Due(e, block, n - 1) + [e.order[n - 1]]
    else Due(e, block, n - 1)
  }

  class TimeExecution {
    var Tasks: map<TaskID, Task>
    var TaskOrder: seq<TaskID>
    var TaskCount: nat
    var Balances: map<Address, int>

    ghost function Model(): Engine
      reads this
    {
      Engine(Tasks, TaskOrder, TaskCount, Balances)
    }

    /** A new engine starts without tasks, over the counter and balances of the state. */
    constructor (taskCount: nat, balances: map<Address, int>)
      ensures Model() == Engine(map[], [], taskCount, balances)
    {
      Tasks, TaskOrder, TaskCount, Balances := map[], [], taskCount, balances;
    }

    method ScheduleTask(caller: Address, feed: Feed, interval: UInt64, startBlock: UInt64,
                        maxExecutions: UInt64, reward: UInt64)
      returns (r: Result<TaskID>)
      modifies this
      ensures Model() == AfterSchedule(old(Model()), caller, feed, interval, startBlock, maxExecutions, reward)
      ensures r == if interval < MIN_INTERVAL then Failure(IntervalTooShort)
                   else Success(NewID(old(Model()), caller, feed, startBlock))
    {
      if interval < MIN_INTERVAL {
        return Failure(IntervalTooShort);
      }
      var id := TaskID(caller, feed, startBlock, TaskCount + 1);
      Tasks := Tasks[id := Task(caller, feed, interval, startBlock, 0, 0, maxExecutions, reward, true)];
      TaskOrder := TaskOrder + [id];
      TaskCount := TaskCount + 1;
      return Success(id);
    }

    method CancelTask(id: TaskID, caller: Address) returns (r: Result<()>)
      modifies this`Tasks
      ensures Model() == AfterCancel(old(Model()), id, caller)
      ensures r == if id !in old(Tasks) then Failure(TaskNotFound)
                   else if old(Tasks)[id].caller != caller then Failure(OnlyCallerCancels)
                   else Success(())
    {
      if id !in Tasks {
        return Failure(TaskNotFound);
      }
      var task := Tasks[id];
      if task.caller != caller {
        return Failure(OnlyCallerCancels);
      }
      Tasks := Tasks[id := task.(active := false)];
      return Success(());
    }

    method ExecuteDueTasks(block: UInt64) returns (executed: seq<TaskID>)
      requires Ordered(Model())
      modifies this`Tasks, this`Balances
      ensures Model() == AfterExecute(old(Model()), block)
      ensures executed == Due(old(Model()), block, |TaskOrder|)
    {
      hide AfterFirst, Due, Runs, Stepped;
      executed := [];
      FirstNone(Model(), block);
      for i := 0 to |TaskOrder|
        invariant TaskOrder == old(TaskOrder) && TaskCount == old(TaskCount)
        invariant Model() == AfterFirst(old(Model()), block, i)
        invariant executed == Due(old(Model()), block, i)
      {
        ghost var before := Model();
        var id := TaskOrder[i];
        FirstIs(old(Model()), block, i, id);
        FirstNext(old(Model()), block, i);
        var runs := TryTask(id, block);
        if runs {
          executed := executed + [id];
        }
      }
    }

    method TryTask(id: TaskID, block: UInt64) returns (runs: bool)
      requires id in Tasks
      modifies this`Tasks, this`Balances
      ensures Model() == AfterTask(old(Model()), id, block)
      ensures runs == Runs(old(Tasks)[id], block)
    {
      runs := false;
      var task := Tasks[id];
      if !task.active {
        assert Tasks[id := task] == Tasks;
        return;
      }
      if task.maxExecutions > 0 && task.executions >= task.maxExecutions {
        Tasks := Tasks[id := task.(active := false)];
        return;
      }
      if block >= task.nextBlock {
        runs := true;
        task := task.(executions := task.executions + 1);
        task := task.(lastExecuted := block);
        task := task.(nextBlock := (block + task.interval) % TWO_TO_64);
        Tasks := Tasks[id := task];
        if task.reward > 0 {
          Balances := Balances[task.caller := At(Balances, task.caller) + task.reward];
        }
      } else {
        assert Tasks[id := task] == Tasks;
      }
    }
  }

  lemma FirstNone(e: Engine, block: UInt64)
    requires Ordered(e)
    ensures AfterFirst(e, block, 0) == e && Due(e, block, 0) == []
  {
  }

  lemma FirstNext(e: Engine, block: UInt64, n: nat)
    requires Ordered(e) && n < |e.order|
    ensures e.order[n] in AfterFirst(e, block, n).tasks
    ensures AfterFirst(e, block, n + 1) == AfterTask(AfterFirst(e, block, n), e.order[n], block)
    ensures Due(e, block, n + 1) == Due(e, block, n) + if Runs(e.tasks[e.order[n]], block) then [e.order[n]] else []
  {
  }

  lemma OrderPrefix(e: Engine, n: nat, id: TaskID)
    requires Ordered(e) && 0 < n <= |e.order|
    ensures id in e.order[..n] <==> id in e.order[..n - 1] || id == e.order[n - 1]
    ensures e.order[n - 1] !in e.order[..n - 1] && e.order[n - 1] in e.tasks
  {
  }

  /** The loop visits every task once: each has moved by one step if its turn has come, and not at
      all otherwise. */
  lemma {:induction false} FirstIs(e: Engine, block: UInt64, n: nat, id: TaskID)
    requires Ordered(e) && n <= |e.order| && id in e.tasks
    ensures id in AfterFirst(e, block, n).tasks
    ensures AfterFirst(e, block, n).tasks[id] == if id in e.order[..n] then Stepped(e.tasks[id], block) else e.tasks[id]
    ensures id in Due(e, block, n) <==> id in e.order[..n] && Runs(e.tasks[id], block)
  {
    hide Stepped, Runs, Ordered, AfterFirst, Due;
    if n == 0 {
      FirstNone(e, block);
    } else {
      FirstIs(e, block, n - 1, id);
      OrderPrefix(e, n, id);
      FirstIs(e, block, n - 1, e.order[n - 1]);
      FirstNext(e, block, n - 1);
    }
  }

  lemma OrderIsAll(e: Engine, id: TaskID)
    requires Ordered(e) && id in e.tasks
    ensures id in e.order[..|e.order|]
  {
  }

  /** What one call does to a task, and whether it is reported as run. */
  lemma ExecuteIs(e: Engine, block: UInt64, id: TaskID)
    requires Ordered(e) && id in e.tasks
    ensures id in AfterExecute(e, block).tasks && AfterExecute(e, block).tasks[id] == Stepped(e.tasks[id], block)
    ensures id in Due(e, block, |e.order|) <==> Runs(e.tasks[id], block)
  {
    hide Stepped, Runs, AfterFirst, Due;
    FirstIs(e, block, |e.order|, id);
    OrderIsAll(e, id);
  }

  // ----- runs

  datatype Action =
    | Schedule(caller: Address, feed: Feed, interval: UInt64, startBlock: UInt64, maxExecutions: UInt64, reward: UInt64)
    | Cancel(id: TaskID, caller: Address)
    | Execute(block: UInt64)

  ghost function Do(e: Engine, a: Action): Engine {
    match a
    case Schedule(caller, feed, interval, startBlock, maxExecutions, reward) =>
      AfterSchedule(e, caller, feed, interval, startBlock, maxExecutions, reward)
    case Cancel(id, caller) => AfterCancel(e, id, caller)
    case Execute(block) => if Ordered(e) then AfterExecute(e, block) else e
  }

  ghost function After(start: Engine, actions: seq<Action>): Engine {
    if actions == [] then start else Do(After(start, actions[..|actions| - 1]), actions[|actions| - 1])
  }

  predicate Fresh(e: Engine) {
    e.tasks == map[] && e.order == []
  }

  /** Task ids are numbered by a counter that never repeats, so no task ever overwrites another. */
  ghost predicate WellFormed(e: Engine) {
    && Ordered(e)
    && forall id | id in e.tasks :: id.number <= e.taskCount
  }

  lemma StepKeepsForm(e: Engine, a: Action)
    requires WellFormed(e)
    ensures WellFormed(Do(e, a)) && forall id | id in e.tasks :: id in Do(e, a).tasks
  {
  }

  lemma {:induction false} RunKeepsForm(start: Engine, actions: seq<Action>)
    requires Fresh(start)
    ensures WellFormed(After(start, actions))
  {
    hide Do;
    if actions != [] {
      RunKeepsForm(start, actions[..|actions| - 1]);
      StepKeepsForm(After(start, actions[..|actions| - 1]), actions[|actions| - 1]);
    }
  }

  /** The blocks at which a task has run, in the order of the calls. */
  ghost function Log(start: Engine, actions: seq<Action>, id: TaskID): seq<UInt64>
  {
    if actions == [] then []
    else
      var e := After(start, actions[..|actions| - 1]);
      var log := Log(start, actions[..|actions| - 1], id);
      match actions[|actions| - 1]
      case Execute(block) => if Ordered(e) && id in Due(e, block, |e.order|) then log + [block] else log
      case _ => log
  }

  /** No block number and interval of the run add up to 2^64. */
  predicate NoWrap(actions: seq<Action>) {
    forall i, j | 0 <= i < |actions| && 0 <= j < |actions| && actions[i].Schedule? && actions[j].Execute? ::
      actions[i].interval + actions[j].block < TWO_TO_64
  }

  /** Runs at least interval apart, from startBlock on. */
  predicate Spaced(log: seq<UInt64>, startBlock: int, interval: int) {
    && (log != [] ==> log[0] >= startBlock)
    && forall i | 0 < i < |log| :: log[i] >= log[i - 1] + interval
  }

  /** How a task stands to its own history. */
  predicate Regular(t: Task, log: seq<UInt64>, startBlock: int) {
    && t.interval >= MIN_INTERVAL
    && t.executions == |log|
    && (t.maxExecutions > 0 ==> t.executions <= t.maxExecutions)
    && Spaced(log, startBlock, t.interval)
    && t.nextBlock == (if log == [] then startBlock else log[|log| - 1] + t.interval)
    && (log != [] ==> t.lastExecuted == log[|log| - 1])
  }

  lemma StepIsRegular(t: Task, log: seq<UInt64>, startBlock: int, block: UInt64)
    requires Regular(t, log, startBlock) && block + t.interval < TWO_TO_64
    ensures Regular(Stepped(t, block), if Runs(t, block) then log + [block] else log, startBlock)
  {
  }

  ghost predicate AllRegular(start: Engine, actions: seq<Action>) {
    forall id | id in After(start, actions).tasks ::
      Regular(After(start, actions).tasks[id], Log(start, actions, id), id.startBlock)
  }

  lemma {:induction false} NotYetLogged(start: Engine, actions: seq<Action>, id: TaskID)
    requires Fresh(start) && id !in After(start, actions).tasks
    ensures Log(start, actions, id) == []
  {
    hide Do;
    if actions != [] {
      var front := actions[..|actions| - 1];
      var e := After(start, front);
      RunKeepsForm(start, front);
      StepKeepsForm(e, actions[|actions| - 1]);
      NotYetLogged(start, front, id);
      if actions[|actions| - 1].Execute? {
        OnlyTasksRun(e, actions[|actions| - 1].block, |e.order|, id);
      }
    }
  }

  lemma {:induction false} OnlyTasksRun(e: Engine, block: UInt64, n: nat, id: TaskID)
    requires Ordered(e) && n <= |e.order|
    ensures id in Due(e, block, n) ==> id in e.tasks
  {
    if n > 0 {
      OnlyTasksRun(e, block, n - 1, id);
    }
  }

  /** Which task a step leaves under an id, and what it adds to the id's log. */
  lemma StepOf(start: Engine, front: seq<Action>, a: Action, id: TaskID)
    requires Fresh(start) && id in After(start, front + [a]).tasks
    ensures var e := After(start, front);
            var t' := After(start, front + [a]).tasks[id];
            var log, log' := Log(start, front, id), Log(start, front + [a], id);
            if id !in e.tasks then
              && a.Schedule? && a.interval >= MIN_INTERVAL && id.startBlock == a.startBlock && log' == log == []
              && t' == Task(a.caller, a.feed, a.interval, a.startBlock, 0, 0, a.maxExecutions, a.reward, true)
            else if a.Execute? then
              t' == Stepped(e.tasks[id], a.block) && log' == if Runs(e.tasks[id], a.block) then log + [a.block] else log
            else
              && log' == log
              && t' == if a.Cancel? && a.id == id && a.caller == e.tasks[id].caller
                       then e.tasks[id].(active := false)
                       else e.tasks[id]
  {
    hide Stepped, Runs, AfterFirst, AfterExecute, Due;
    var e := After(start, front);
    assert (front + [a])[..|front|] == front;
    RunKeepsForm(start, front);
    if a.Execute? {
      if id in e.tasks {
        ExecuteIs(e, a.block, id);
      } else {
        ExecuteAddsNone(e, a.block, id);
      }
    } else if id !in e.tasks {
      NotYetLogged(start, front, id);
    }
  }

  lemma ExecuteAddsNone(e: Engine, block: UInt64, id: TaskID)
    requires Ordered(e) && id in AfterExecute(e, block).tasks
    ensures id in e.tasks
  {
  }

  lemma {:induction false} IntervalsCome(start: Engine, actions: seq<Action>, id: TaskID)
    requires Fresh(start) && id in After(start, actions).tasks
    ensures exists i :: 0 <= i < |actions| && actions[i].Schedule?
                        && actions[i].interval == After(start, actions).tasks[id].interval
  {
    hide After, Log, Stepped;
    if actions == [] {
      EmptyRun(start);
    } else {
      var n := |actions| - 1;
      var front := actions[..n];
      assert actions == front + [actions[n]];
      StepOf(start, front, actions[n], id);
      if id in After(start, front).tasks {
        IntervalsCome(start, front, id);
        StepKeepsInterval(After(start, front).tasks[id]);
        var i :| 0 <= i < |front| && front[i].Schedule? && front[i].interval == After(start, front).tasks[id].interval;
        assert actions[i] == front[i];
      }
    }
  }

  lemma StepKeepsInterval(t: Task)
    ensures forall block :: Stepped(t, block).interval == t.interval
  {
  }

  lemma EmptyRun(start: Engine)
    ensures After(start, []) == start
  {
  }

  /** Over every run of schedule, cancel and execute calls, at any block numbers in any order, that
      never makes the 64-bit sum wrap: each task runs at least its interval apart and not before its
      start, at most once in a call, never more often than its maximum, and its record of itself
      (count, last run, next run) is exactly what its history says. */
  lemma {:induction false} TasksAreRegular(start: Engine, actions: seq<Action>)
    requires Fresh(start) && NoWrap(actions)
    ensures AllRegular(start, actions)
  {
    hide Do, Regular, Stepped, Runs, Log;
    if actions != [] {
      var n := |actions| - 1;
      var front, a := actions[..n], actions[n];
      assert actions == front + [a];
      TasksAreRegular(start, front);
      var e := After(start, front);
      forall id | id in After(start, actions).tasks
        ensures Regular(After(start, actions).tasks[id], Log(start, actions, id), id.startBlock)
      {
        StepOf(start, front, a, id);
        if id !in e.tasks {
          NewIsRegular(After(start, actions).tasks[id]);
        } else if a.Execute? {
          IntervalsCome(start, front, id);
          assert actions[n].Execute?;
          StepIsRegular(e.tasks[id], Log(start, front, id), id.startBlock, a.block);
        } else {
          CancelIsRegular(e.tasks[id], Log(start, front, id), id.startBlock);
        }
      }
    }
  }

  lemma NewIsRegular(t: Task)
    requires t.interval >= MIN_INTERVAL && t.executions == 0
    ensures Regular(t, [], t.nextBlock)
  {
  }

  lemma CancelIsRegular(t: Task, log: seq<UInt64>, startBlock: int)
    requires Regular(t, log, startBlock)
    ensures Regular(t.(active := false), log, startBlock)
  {
  }

  /** So the k-th run of a task is never before its start plus k intervals. */
  lemma {:induction false} RunsAreLate(log: seq<UInt64>, startBlock: int, interval: nat, k: nat)
    requires Spaced(log, startBlock, interval) && k < |log|
    ensures log[k] >= startBlock + k * interval
  {
    if k > 0 {
      RunsAreLate(log, startBlock, interval, k - 1);
      MulSum(k - 1, 1, interval);
    }
  }

  lemma NextIsLate(start: Engine, actions: seq<Action>, id: TaskID)
    requires Fresh(start) && NoWrap(actions) && id in After(start, actions).tasks
    ensures var t := After(start, actions).tasks[id];
            t.nextBlock >= id.startBlock + t.executions * t.interval
  {
    hide Log, After, Spaced, NoWrap;
    TasksAreRegular(start, actions);
    var t, log := After(start, actions).tasks[id], Log(start, actions, id);
    if log != [] {
      RunsAreLate(log, id.startBlock, t.interval, |log| - 1);
      MulSum(|log| - 1, 1, t.interval);
    }
  }

  /** Without the bound on the sum this fails: a task that has just run waits out its interval exactly
      when the block and the interval together stay below 2^64. */
  lemma WaitsExactly(t: Task, block: UInt64)
    requires Runs(t, block) && (t.maxExecutions == 0 || t.executions + 1 < t.maxExecutions) && t.interval > 0
    ensures (forall later: UInt64 | block < later < block + t.interval :: !Runs(Stepped(t, block), later))
            && !Runs(Stepped(t, block), block)
        <==> block + t.interval < TWO_TO_64
  {
  }

  // ----- cancellation is final

  lemma StaysInactive(start: Engine, front: seq<Action>, a: Action, id: TaskID)
    requires Fresh(start) && id in After(start, front).tasks && !After(start, front).tasks[id].active
    ensures id in After(start, front + [a]).tasks && !After(start, front + [a]).tasks[id].active
    ensures Log(start, front + [a], id) == Log(start, front, id)
  {
    hide Do, Log, AfterExecute, Due;
    assert (front + [a])[..|front|] == front;
    RunKeepsForm(start, front);
    StepKeepsForm(After(start, front), a);
    StepOf(start, front, a, id);
  }

  /** Once a task has been cancelled by its caller, or has used up its executions, no later call of
      any kind runs it again. */
  lemma {:induction false} InactiveIsFinal(start: Engine, front: seq<Action>, later: seq<Action>, id: TaskID)
    requires Fresh(start) && id in After(start, front).tasks && !After(start, front).tasks[id].active
    ensures id in After(start, front + later).tasks && !After(start, front + later).tasks[id].active
    ensures Log(start, front + later, id) == Log(start, front, id)
  {
    hide After, Log;
    if later == [] {
      assert front + later == front;
    } else {
      var before, a := front + later[..|later| - 1], later[|later| - 1];
      InactiveIsFinal(start, front, later[..|later| - 1], id);
      assert front + later == before + [a];
      StaysInactive(start, before, a, id);
    }
  }

  // ----- when a task runs

  /** A task by itself: the blocks at which it has run, whether its caller has cancelled it, and whether a
      call has found it used up. */
  datatype Clock = Clock(log: seq<UInt64>, cancelled: bool, retired: bool)

  /** Whether a call at this block runs a task with these settings and this past: it waits for its start, and
      then for its last run and interval, added as 64-bit numbers. */
  predicate Rings(settings: Action, c: Clock, block: UInt64)
    requires settings.Schedule?
  {
    && !c.cancelled
    && (settings.maxExecutions == 0 || |c.log| < settings.maxExecutions)
    && block >= if c.log == [] then settings.startBlock
                else (c.log[|c.log| - 1] + settings.interval) % 0x1_0000_0000_0000_0000
  }

  /** The task's life without an engine: nothing but its own settings, its caller's cancellations and the
      blocks of the calls. */
  function Life(settings: Action, id: TaskID, later: seq<Action>): Clock
    requires settings.Schedule?
  {
    if later == [] then Clock([], false, false)
    else
      var c := Life(settings, id, later[..|later| - 1]);
      match later[|later| - 1]
      case Cancel(which, caller) => if which == id && caller == settings.caller then c.(cancelled := true) else c
      case Execute(block) => Called(settings, c, block)
      case _ => c
  }

  function Called(settings: Action, c: Clock, block: UInt64): Clock
    requires settings.Schedule?
  {
    if Rings(settings, c, block) then c.(log := c.log + [block])
    else c.(retired := c.retired || (!c.cancelled && 0 < settings.maxExecutions <= |c.log|))
  }

  /** How the engine's record of a task stands to its clock. */
  predicate Keeps(settings: Action, c: Clock, t: Task)
    requires settings.Schedule?
  {
    && t.caller == settings.caller && t.feed == settings.feed && t.interval == settings.interval
    && t.maxExecutions == settings.maxExecutions && t.reward == settings.reward
    && t.executions == |c.log|
    && t.lastExecuted == (if c.log == [] then 0 else c.log[|c.log| - 1])
    && t.nextBlock == (if c.log == [] then settings.startBlock
                       else (c.log[|c.log| - 1] + settings.interval) % 0x1_0000_0000_0000_0000)
    && (t.active <==> !c.cancelled && !c.retired) && (c.retired ==> 0 < t.maxExecutions <= t.executions)
  }

  lemma StepKeepsClock(settings: Action, c: Clock, t: Task, block: UInt64)
    requires settings.Schedule? && Keeps(settings, c, t)
    ensures Runs(t, block) <==> Rings(settings, c, block)
    ensures Keeps(settings, Called(settings, c, block), Stepped(t, block))
  {
  }

  /** A task runs exactly when its own clock says so, whatever other tasks are scheduled, cancelled or run,
      and its record is that of its own history. */
  lemma {:induction false} TaskRunsAlone(start: Engine, front: seq<Action>, settings: Action, later: seq<Action>)
    requires Fresh(start) && settings.Schedule? && settings.interval >= 100
    ensures var id := NewID(After(start, front), settings.caller, settings.feed, settings.startBlock);
            var run := front + [settings] + later;
            && id in After(start, run).tasks
            && Log(start, run, id) == Life(settings, id, later).log
            && Keeps(settings, Life(settings, id, later), After(start, run).tasks[id])
  {
    hide After, Log, Do, Stepped, Runs, Keeps, Rings;
    var id := NewID(After(start, front), settings.caller, settings.feed, settings.startBlock);
    if later == [] {
      assert front + [settings] + later == front + [settings];
      StartsClock(start, front, settings);
    } else {
      var before, a := later[..|later| - 1], later[|later| - 1];
      var run := front + [settings] + before;
      TaskRunsAlone(start, front, settings, before);
      assert front + [settings] + later == run + [a];
      StepKeepsTask(start, run, a, id);
      StepOf(start, run, a, id);
      if a.Execute? {
        StepKeepsClock(settings, Life(settings, id, before), After(start, run).tasks[id], a.block);
      } else if a.Cancel? {
        CancelKeepsClock(settings, Life(settings, id, before), After(start, run).tasks[id]);
      }
    }
  }

  lemma CancelKeepsClock(settings: Action, c: Clock, t: Task)
    requires settings.Schedule? && Keeps(settings, c, t)
    ensures t.caller == settings.caller && Keeps(settings, c.(cancelled := true), t.(active := false))
  {
  }

  lemma StepKeepsTask(start: Engine, front: seq<Action>, a: Action, id: TaskID)
    requires Fresh(start) && id in After(start, front).tasks
    ensures id in After(start, front + [a]).tasks
  {
    hide Do;
    assert (front + [a])[..|front|] == front;
    RunKeepsForm(start, front);
    StepKeepsForm(After(start, front), a);
  }

  lemma StartsClock(start: Engine, front: seq<Action>, settings: Action)
    requires Fresh(start) && settings.Schedule? && settings.interval >= 100
    ensures var id := NewID(After(start, front), settings.caller, settings.feed, settings.startBlock);
            && id in After(start, front + [settings]).tasks
            && Log(start, front + [settings], id) == []
            && Keeps(settings, Clock([], false, false), After(start, front + [settings]).tasks[id])
  {
    hide Log;
    var id := NewID(After(start, front), settings.caller, settings.feed, settings.startBlock);
    assert (front + [settings])[..|front|] == front;
    RunKeepsForm(start, front);
    assert id !in After(start, front).tasks;
    StepOf(start, front, settings, id);
  }

  /** Tasks are numbered consecutively, in the order in which they were scheduled. */
  lemma {:induction false} TasksAreNumbered(start: Engine, actions: seq<Action>)
    requires Fresh(start)
    ensures var e := After(start, actions);
            && e.taskCount == start.taskCount + |e.order|
            && forall i | 0 <= i < |e.order| :: e.order[i].number == start.taskCount + i + 1
  {
    if actions != [] {
      hide AfterFirst;
      TasksAreNumbered(start, actions[..|actions| - 1]);
    }
  }

  // ----- rewards

  /** What a task has earned for an account. */
  function EarnedBy(t: Task, a: Address): int {
    if t.caller == a then t.executions * t.reward else 0
  }

  function Earnings(tasks: map<TaskID, Task>, a: Address): map<TaskID, int> {
    map id | id in tasks :: EarnedBy(tasks[id], a)
  }

  lemma EarningsWrite(tasks: map<TaskID, Task>, id: TaskID, t: Task, a: Address)
    ensures Sum(Earnings(tasks[id := t], a))
         == Sum(Earnings(tasks, a)) + EarnedBy(t, a) - if id in tasks then EarnedBy(tasks[id], a) else 0
  {
    assert Earnings(tasks[id := t], a) == Earnings(tasks, a)[id := EarnedBy(t, a)];
    SumUpdate(Earnings(tasks, a), id, EarnedBy(t, a));
  }

  /** An account's balance beyond what its tasks have earned. */
  ghost function Rest(e: Engine, a: Address): int {
    At(e.balances, a) - Sum(Earnings(e.tasks, a))
  }

  lemma TaskKeepsRest(e: Engine, id: TaskID, block: UInt64, a: Address)
    requires id in e.tasks
    ensures Rest(AfterTask(e, id, block), a) == Rest(e, a)
  {
    hide Earnings;
    var t := e.tasks[id];
    EarningsWrite(e.tasks, id, Stepped(t, block), a);
    MulSum(t.executions, 1, t.reward);
  }

  lemma {:induction false} FirstKeepsRest(e: Engine, block: UInt64, n: nat, a: Address)
    requires Ordered(e) && n <= |e.order|
    ensures Rest(AfterFirst(e, block, n), a) == Rest(e, a)
  {
    hide AfterTask, Rest, Ordered, AfterFirst;
    if n == 0 {
      FirstNone(e, block);
    } else {
      FirstKeepsRest(e, block, n - 1, a);
      FirstNext(e, block, n - 1);
      TaskKeepsRest(AfterFirst(e, block, n - 1), e.order[n - 1], block, a);
    }
  }

  lemma StepKeepsRest(e: Engine, action: Action, a: Address)
    requires WellFormed(e)
    ensures Rest(Do(e, action), a) == Rest(e, a)
  {
    hide Earnings, AfterFirst;
    match action
    case Schedule(caller, feed, interval, startBlock, maxExecutions, reward) =>
      if interval >= MIN_INTERVAL {
        var id := NewID(e, caller, feed, startBlock);
        assert id !in e.tasks;
        EarningsWrite(e.tasks, id, Task(caller, feed, interval, startBlock, 0, 0, maxExecutions, reward, true), a);
      }
    case Cancel(id, caller) =>
      if id in e.tasks && e.tasks[id].caller == caller {
        EarningsWrite(e.tasks, id, e.tasks[id].(active := false), a);
      }
    case Execute(block) =>
      FirstKeepsRest(e, block, |e.order|, a);
  }

  /** Over every run, wrapping or not, each account has gained exactly the sum over its tasks of the
      number of runs times the reward. */
  lemma {:induction false} RewardsAreExact(start: Engine, actions: seq<Action>, a: Address)
    requires Fresh(start)
    ensures At(After(start, actions).balances, a)
         == At(start.balances, a) + Sum(Earnings(After(start, actions).tasks, a))
  {
    hide Do, WellFormed;
    if actions == [] {
      assert Earnings(start.tasks, a) == map[];
    } else {
      var front := actions[..|actions| - 1];
      RewardsAreExact(start, front, a);
      RunKeepsForm(start, front);
      StepKeepsRest(After(start, front), actions[|actions| - 1], a);
    }
  }

  /** The engine that block production makes for each block is new, so it runs nothing and pays
      nobody, whatever was scheduled through the precompile before. */
  lemma NewEngineRunsNothing(e: Engine, block: UInt64)
    requires Fresh(e)
    ensures Ordered(e) && AfterExecute(e, block) == e && Due(e, block, |e.order|) == []
  {
  }
}
