/** The tasks queue over an asynchronous executor: pushes, clears and completions interleave under its lock. */
module AsyncTasks {
  import opened Common

  /** A task leaving the queue, with the tasks that were waiting when it was chosen. */
  datatype Dispatch = Dispatch(task: nat, among: seq<nat>)

  /** Tasks are numbered in push order. */
  datatype Queue = Queue(
    maxTasks: nat,
    mode: Mode,
    pushed: nat,
    waiting: seq<nat>,
    executing: seq<nat>,
    finished: seq<nat>,
    cleared: seq<nat>,
    dispatches: seq<Dispatch>)

  datatype Step = Push | Clear | Finish(task: nat)

  function Init(heavyWorkers: nat, mode: Mode): Queue {
    Queue(heavyWorkers + 2, mode, 0, [], [], [], [], [])
  }

  function Fire(q: Queue): Queue
    requires q.waiting != []
  {
    var i := if q.mode == Fifo then 0 else |q.waiting| - 1;
    q.(waiting := Without(q.waiting, i),
       executing := q.executing + [q.waiting[i]],
       dispatches := q.dispatches + [Dispatch(q.waiting[i], q.waiting)])
  }

  function TryToFire(q: Queue): Queue
    decreases |q.waiting|
  {
    if q.maxTasks > |q.executing| && q.waiting != [] then TryToFire(Fire(q)) else q
  }

  predicate Enabled(q: Queue, step: Step) {
    step.Finish? ==> step.task in q.executing
  }

  function IndexOf(s: seq<nat>, x: nat): (i: nat)
    requires x in s
    ensures i < |s| && s[i] == x
  {
    if s[0] == x then 0 else 1 + IndexOf(s[1..], x)
  }

  function Take(q: Queue, step: Step): Queue
    requires Enabled(q, step)
  {
    match step
    case Push => TryToFire(q.(waiting := q.waiting + [q.pushed], pushed := q.pushed + 1))
    case Clear => q.(waiting := [], cleared := q.cleared + q.waiting)
    case Finish(task) =>
      TryToFire(q.(executing := Without(q.executing, IndexOf(q.executing, task)), finished := q.finished + [task]))
  }

  // ---------------------------------------------------------------------------
  // What every run keeps
  // ---------------------------------------------------------------------------

  ghost predicate Ascending(s: seq<nat>) {
    forall i, j :: 0 <= i < j < |s| ==> s[i] < s[j]
  }

  /** How often a task occurs in the four places it can be in. */
  function Places(q: Queue, task: nat): nat {
    multiset(q.waiting)[task] + multiset(q.executing)[task] + multiset(q.finished)[task] + multiset(q.cleared)[task]
  }

  ghost predicate Chosen(mode: Mode, d: Dispatch) {
    && d.task in d.among
    && forall t :: t in d.among ==> if mode == Fifo then d.task <= t else t <= d.task
  }

  /** Tasks left in the queue in push order, and all of them after the dispatched ones. */
  ghost predicate InPushOrder(q: Queue) {
    && (forall i, j :: 0 <= i < j < |q.dispatches| ==> q.dispatches[i].task < q.dispatches[j].task)
    && (forall i, t :: 0 <= i < |q.dispatches| && t in q.waiting ==> q.dispatches[i].task < t)
    && (forall i :: 0 <= i < |q.dispatches| ==> q.dispatches[i].task < q.pushed)
  }

  ghost predicate Bounded(q: Queue) {
    |q.executing| <= q.maxTasks
  }

  /** Between the atomic steps a task waits only because the limit is reached. */
  ghost predicate NoIdleWait(q: Queue) {
    q.waiting != [] ==> |q.executing| == q.maxTasks
  }

  ghost predicate Loose(q: Queue) {
    && Bounded(q)
    && Ascending(q.waiting) && (forall t :: t in q.waiting ==> t < q.pushed)
    && (forall t: nat :: Places(q, t) == if t < q.pushed then 1 else 0)
    && (forall i :: 0 <= i < |q.dispatches| ==> Chosen(q.mode, q.dispatches[i]))
    && (q.mode == Fifo ==> InPushOrder(q))
  }

  ghost predicate Inv(q: Queue) {
    Loose(q) && NoIdleWait(q)
  }

  lemma StillAscending(s: seq<nat>, i: nat)
    requires i < |s| && Ascending(s)
    ensures Ascending(Without(s, i))
  {
  }

  lemma FireKeepsPlaces(q: Queue)
    requires q.waiting != []
    ensures forall t :: Places(Fire(q), t) == Places(q, t)
  {
    var i := if q.mode == Fifo then 0 else |q.waiting| - 1;
    TakenOut(q.waiting, i);
    assert multiset(Fire(q).executing) == multiset(q.executing) + multiset{q.waiting[i]};
  }

  lemma FireChooses(q: Queue)
    requires q.waiting != [] && Ascending(q.waiting)
    ensures Chosen(q.mode, Dispatch(q.waiting[if q.mode == Fifo then 0 else |q.waiting| - 1], q.waiting))
  {
  }

  lemma FireKeepsOrder(q: Queue)
    requires q.waiting != [] && q.mode == Fifo && Ascending(q.waiting) && InPushOrder(q)
    requires forall t :: t in q.waiting ==> t < q.pushed
    ensures InPushOrder(Fire(q))
  {
    var after := Fire(q);
    var first := q.waiting[0];
    assert after.waiting == q.waiting[1..];
    HeadIsLeast(q.waiting);
    assert first in q.waiting && first < q.pushed;
    forall i | 0 <= i < |after.dispatches|
      ensures after.dispatches[i].task <= first && (i < |q.dispatches| ==> after.dispatches[i].task < first)
    {
      if i < |q.dispatches| {
        assert after.dispatches[i] == q.dispatches[i] && first in q.waiting;
      }
    }
  }

  lemma HeadIsLeast(s: seq<nat>)
    requires s != [] && Ascending(s)
    ensures forall t :: t in s[1..] ==> s[0] < t && t in s
  {
  }

  lemma FireKeepsWaiting(q: Queue)
    requires q.waiting != [] && Ascending(q.waiting) && forall t :: t in q.waiting ==> t < q.pushed
    ensures Ascending(Fire(q).waiting) && forall t :: t in Fire(q).waiting ==> t < q.pushed
  {
    var i := if q.mode == Fifo then 0 else |q.waiting| - 1;
    TakenOut(q.waiting, i);
    StillAscending(q.waiting, i);
  }

  lemma FireKeeps(q: Queue)
    requires Loose(q) && q.waiting != [] && |q.executing| < q.maxTasks
    ensures Loose(Fire(q))
  {
    FireKeepsWaiting(q);
    FireKeepsPlaces(q);
    FireChooses(q);
    if q.mode == Fifo {
      FireKeepsOrder(q);
    }
  }

  lemma {:induction false} TryToFireKeeps(q: Queue)
    requires Loose(q)
    ensures Inv(TryToFire(q))
    ensures TryToFire(q).maxTasks == q.maxTasks && TryToFire(q).pushed == q.pushed
    decreases |q.waiting|
  {
    if q.maxTasks > |q.executing| && q.waiting != [] {
      FireKeeps(q);
      TryToFireKeeps(Fire(q));
    }
  }

  lemma NewestLast(s: seq<nat>, newest: nat)
    requires Ascending(s) && forall t :: t in s ==> t < newest
    ensures Ascending(s + [newest]) && forall t :: t in s + [newest] ==> t in s || t == newest
  {
    forall i, j | 0 <= i < j < |s| + 1
      ensures (s + [newest])[i] < (s + [newest])[j]
    {
      assert s[i] in s;
    }
  }

  lemma PushIsLoose(q: Queue)
    requires Inv(q)
    ensures Loose(q.(waiting := q.waiting + [q.pushed], pushed := q.pushed + 1))
  {
    var next := q.(waiting := q.waiting + [q.pushed], pushed := q.pushed + 1);
    forall t: nat
      ensures Places(next, t) == if t < next.pushed then 1 else 0
    {
      assert multiset(next.waiting) == multiset(q.waiting) + multiset{q.pushed};
      assert Places(q, t) == if t < q.pushed then 1 else 0;
    }
    NewestLast(q.waiting, q.pushed);
  }

  lemma ClearKeeps(q: Queue)
    requires Inv(q)
    ensures Inv(Take(q, Clear))
  {
    var next := Take(q, Clear);
    assert multiset(next.cleared) == multiset(q.cleared) + multiset(q.waiting);
    forall t: nat
      ensures Places(next, t) == Places(q, t)
    {
    }
  }

  lemma FinishIsLoose(q: Queue, task: nat)
    requires Inv(q) && task in q.executing
    ensures Loose(q.(executing := Without(q.executing, IndexOf(q.executing, task)), finished := q.finished + [task]))
  {
    var next := q.(executing := Without(q.executing, IndexOf(q.executing, task)), finished := q.finished + [task]);
    TakenOut(q.executing, IndexOf(q.executing, task));
    assert multiset(next.finished) == multiset(q.finished) + multiset{task};
    forall t: nat
      ensures Places(next, t) == Places(q, t)
    {
    }
  }

  lemma PushKeeps(q: Queue)
    requires Inv(q)
    ensures Inv(Take(q, Push)) && Take(q, Push).maxTasks == q.maxTasks
  {
    var next := q.(waiting := q.waiting + [q.pushed], pushed := q.pushed + 1);
    PushIsLoose(q);
    assert Take(q, Push) == TryToFire(next);
    TryToFireKeeps(next);
  }

  lemma FinishKeeps(q: Queue, task: nat)
    requires Inv(q) && task in q.executing
    ensures Inv(Take(q, Finish(task))) && Take(q, Finish(task)).maxTasks == q.maxTasks
  {
    FinishIsLoose(q, task);
    TryToFireKeeps(q.(executing := Without(q.executing, IndexOf(q.executing, task)), finished := q.finished + [task]));
  }

  lemma StepKeeps(q: Queue, step: Step)
    requires Inv(q) && Enabled(q, step)
    ensures Inv(Take(q, step)) && Take(q, step).maxTasks == q.maxTasks
  {
    if step.Push? {
      PushKeeps(q);
    } else if step.Finish? {
      FinishKeeps(q, step.task);
    } else {
      ClearKeeps(q);
    }
  }

  /** The states of a run, one step after the other; completions of tasks that are not executing do not happen. */
  ghost predicate IsRun(run: seq<Queue>, steps: seq<Step>, heavyWorkers: nat, mode: Mode) {
    && |run| == |steps| + 1 && run[0] == Init(heavyWorkers, mode)
    && forall i :: 0 <= i < |steps| ==> Enabled(run[i], steps[i]) && run[i + 1] == Take(run[i], steps[i])
  }

  /** In every state of every interleaving the limit holds, nothing waits needlessly, each pushed task is in
      exactly one place, and every dispatch chose the oldest (or the newest) waiting task. */
  lemma {:induction false} EveryRunKeeps(run: seq<Queue>, steps: seq<Step>, heavyWorkers: nat, mode: Mode, n: nat)
    requires IsRun(run, steps, heavyWorkers, mode) && n < |run|
    ensures Inv(run[n]) && run[n].maxTasks == heavyWorkers + 2
  {
    if n > 0 {
      EveryRunKeeps(run, steps, heavyWorkers, mode, n - 1);
      assert run[n] == Take(run[n - 1], steps[n - 1]);
      StepKeeps(run[n - 1], steps[n - 1]);
    }
  }

  /** What the bound and the partition say in plain numbers. */
  lemma OnePlaceEach(q: Queue, task: nat)
    requires Inv(q) && task < q.pushed
    ensures task in q.waiting || task in q.executing || task in q.finished || task in q.cleared
    ensures task in q.waiting ==> task !in q.executing && task !in q.finished && task !in q.cleared
    ensures task in q.executing ==> task !in q.finished && task !in q.cleared
    ensures task in q.finished ==> task !in q.cleared
  {
    assert Places(q, task) == 1;
  }

  /** A run of completions only. */
  ghost predicate FinishRun(q: Queue, tasks: seq<nat>, last: Queue)
    decreases |tasks|
  {
    if tasks == [] then q == last
    else Enabled(q, Finish(tasks[0])) && FinishRun(Take(q, Finish(tasks[0])), tasks[1..], last)
  }

  /** With nothing waiting a completion takes its task out of execution and starts none. */
  lemma FinishOne(q: Queue, task: nat)
    requires Inv(q) && q.waiting == [] && task in q.executing
    ensures var next := Take(q, Finish(task));
            && Inv(next) && next.waiting == [] && |next.executing| == |q.executing| - 1
            && multiset(q.executing) == multiset(next.executing) + multiset{task}
            && next.finished == q.finished + [task] && next.cleared == q.cleared && next.dispatches == q.dispatches
  {
    StepKeeps(q, Finish(task));
    TakenOut(q.executing, IndexOf(q.executing, task));
  }

  lemma {:induction false} FinishesOneByOne(q: Queue, tasks: seq<nat>, last: Queue)
    requires Inv(q) && q.waiting == [] && FinishRun(q, tasks, last)
    ensures last.waiting == [] && |last.executing| == |q.executing| - |tasks|
    ensures multiset(q.executing) == multiset(last.executing) + multiset(tasks)
    decreases |tasks|
  {
    if tasks != [] {
      FinishOne(q, tasks[0]);
      FinishesOneByOne(Take(q, Finish(tasks[0])), tasks[1..], last);
      HeadAndTail(tasks);
    } else {
      assert multiset(tasks) == multiset{};
    }
  }

  lemma AppendInParts(s: seq<nat>, tasks: seq<nat>)
    requires tasks != []
    ensures s + tasks == (s + [tasks[0]]) + tasks[1..]
  {
  }

  lemma {:induction false} OnlyFinishes(q: Queue, tasks: seq<nat>, last: Queue)
    requires Inv(q) && q.waiting == [] && FinishRun(q, tasks, last)
    ensures last.finished == q.finished + tasks && last.cleared == q.cleared && last.dispatches == q.dispatches
    decreases |tasks|
  {
    if tasks != [] {
      FinishOne(q, tasks[0]);
      OnlyFinishes(Take(q, Finish(tasks[0])), tasks[1..], last);
      AppendInParts(q.finished, tasks);
    }
  }

  /** What waited is dropped; what executes goes on. */
  lemma ClearMeans(q: Queue)
    requires Inv(q)
    ensures var next := Take(q, Clear);
            && Inv(next) && next.waiting == [] && next.cleared == q.cleared + q.waiting
            && next.executing == q.executing && next.finished == q.finished && next.dispatches == q.dispatches
  {
    StepKeeps(q, Clear);
  }

  /** Destroying clears and waits: then the executing tasks finish one by one, in any order, no other is started, and after
      as many completions as were executing nothing is left to run. */
  lemma DestructionEnds(q: Queue, tasks: seq<nat>, last: Queue)
    requires Inv(q) && FinishRun(Take(q, Clear), tasks, last)
    ensures last.waiting == [] && |last.executing| == |q.executing| - |tasks|
    ensures multiset(q.executing) == multiset(last.executing) + multiset(tasks)
    ensures last.finished == q.finished + tasks && last.cleared == q.cleared + q.waiting && last.dispatches == q.dispatches
  {
    ClearMeans(q);
    FinishesOneByOne(Take(q, Clear), tasks, last);
    OnlyFinishes(Take(q, Clear), tasks, last);
  }

  /** And every order is possible. */
  lemma FinishInAnyOrder(q: Queue, tasks: seq<nat>) returns (last: Queue)
    requires Inv(q) && multiset(tasks) == multiset(q.executing)
    ensures FinishRun(Take(q, Clear), tasks, last) && last.executing == [] && last.waiting == []
  {
    ClearMeans(q);
    last := FinishAll(Take(q, Clear), tasks);
  }

  lemma {:induction false} FinishAll(q: Queue, tasks: seq<nat>) returns (last: Queue)
    requires Inv(q) && q.waiting == [] && multiset(tasks) == multiset(q.executing)
    ensures FinishRun(q, tasks, last) && last.executing == [] && last.waiting == []
    decreases |tasks|
  {
    if tasks == [] {
      last := q;
      assert |multiset(q.executing)| == |q.executing|;
    } else {
      var first, rest := tasks[0], tasks[1..];
      HeadAndTail(tasks);
      assert first in multiset(q.executing);
      FinishOne(q, first);
      var next := Take(q, Finish(first));
      assert multiset(next.executing) == multiset(q.executing) - multiset{first};
      assert multiset(rest) == multiset(tasks) - multiset{first};
      last := FinishAll(next, rest);
    }
  }

  // ---------------------------------------------------------------------------
  // What became of a task
  // ---------------------------------------------------------------------------

  /** A dispatched task is executing or has finished. */
  ghost predicate DispatchedRan(q: Queue) {
    forall i :: 0 <= i < |q.dispatches| ==> q.dispatches[i].task in q.executing || q.dispatches[i].task in q.finished
  }

  /** Firing only moves tasks from waiting to executing. */
  lemma {:induction false} TryToFireMoves(q: Queue)
    ensures var next := TryToFire(q);
            && next.finished == q.finished && next.cleared == q.cleared && next.pushed == q.pushed && next.mode == q.mode
            && q.executing <= next.executing
    ensures DispatchedRan(q) ==> DispatchedRan(TryToFire(q))
    decreases |q.waiting|
  {
    if q.maxTasks > |q.executing| && q.waiting != [] {
      FireMoves(q);
      TryToFireMoves(Fire(q));
    }
  }

  lemma FireMoves(q: Queue)
    requires q.waiting != []
    ensures q.executing <= Fire(q).executing
    ensures DispatchedRan(q) ==> DispatchedRan(Fire(q))
  {
    var next := Fire(q);
    assert forall t :: t in q.executing ==> t in next.executing;
    assert next.dispatches[|q.dispatches|].task in next.executing;
  }

  /** What each step adds to the history. */
  lemma StepHistory(q: Queue, step: Step)
    requires Enabled(q, step)
    ensures var next := Take(q, step);
            && next.pushed == q.pushed + (if step.Push? then 1 else 0)
            && next.finished == q.finished + (if step.Finish? then [step.task] else [])
            && next.cleared == q.cleared + (if step.Clear? then q.waiting else [])
    ensures DispatchedRan(q) ==> DispatchedRan(Take(q, step))
  {
    match step
    case Push => TryToFireMoves(q.(waiting := q.waiting + [q.pushed], pushed := q.pushed + 1));
    case Clear =>
    case Finish(task) =>
      var next := q.(executing := Without(q.executing, IndexOf(q.executing, task)), finished := q.finished + [task]);
      FinishedRan(q, task);
      TryToFireMoves(next);
  }

  lemma FinishedRan(q: Queue, task: nat)
    requires task in q.executing
    ensures DispatchedRan(q) ==>
      DispatchedRan(q.(executing := Without(q.executing, IndexOf(q.executing, task)), finished := q.finished + [task]))
  {
    var next := q.(executing := Without(q.executing, IndexOf(q.executing, task)), finished := q.finished + [task]);
    var k := IndexOf(q.executing, task);
    forall t | t in q.executing
      ensures t in next.executing || t in next.finished
    {
      var i :| 0 <= i < |q.executing| && q.executing[i] == t;
      if i < k {
        assert next.executing[i] == t;
      } else if i > k {
        assert next.executing[i - 1] == t;
      } else {
        assert next.finished[|q.finished|] == t;
      }
    }
    assert forall t :: t in q.finished ==> t in next.finished;
  }

  /** The tasks whose completions are among the steps, in order. */
  function Completions(steps: seq<Step>): seq<nat> {
    if steps == [] then []
    else
      var last := steps[|steps| - 1];
      Completions(steps[..|steps| - 1]) + if last.Finish? then [last.task] else []
  }

  function Pushes(steps: seq<Step>): nat {
    if steps == [] then 0
    else Pushes(steps[..|steps| - 1]) + if steps[|steps| - 1].Push? then 1 else 0
  }

  /** In every run the finished tasks are those whose completions happened, in that order, and nothing was dispatched that
      is not executing or finished. */
  lemma {:induction false} RunHistory(run: seq<Queue>, steps: seq<Step>, heavyWorkers: nat, mode: Mode, n: nat)
    requires IsRun(run, steps, heavyWorkers, mode) && n < |run|
    ensures run[n].pushed == Pushes(steps[..n]) && run[n].finished == Completions(steps[..n]) && DispatchedRan(run[n])
  {
    if n > 0 {
      RunHistory(run, steps, heavyWorkers, mode, n - 1);
      assert run[n] == Take(run[n - 1], steps[n - 1]);
      StepHistory(run[n - 1], steps[n - 1]);
      assert steps[..n][..n - 1] == steps[..n - 1];
    }
  }

  /** Main result on clearing: a task that waits when the queue is cleared stays cleared in every later state of the run;
      it never executes, and no dispatch ever chooses it. */
  lemma {:induction false} ClearedForGood(run: seq<Queue>, steps: seq<Step>, heavyWorkers: nat, mode: Mode, m: nat, n: nat, task: nat)
    requires IsRun(run, steps, heavyWorkers, mode) && m < n < |run|
    requires steps[m] == Clear && task in run[m].waiting
    ensures task in run[n].cleared && task !in run[n].waiting && task !in run[n].executing && task !in run[n].finished
    ensures forall i :: 0 <= i < |run[n].dispatches| ==> run[n].dispatches[i].task != task
  {
    EveryRunKeeps(run, steps, heavyWorkers, mode, m);
    EveryRunKeeps(run, steps, heavyWorkers, mode, n);
    ClearedStays(run, steps, heavyWorkers, mode, m, n, task);
    RunHistory(run, steps, heavyWorkers, mode, n);
    assert Places(run[n], task) == 1;
  }

  lemma {:induction false} ClearedStays(run: seq<Queue>, steps: seq<Step>, heavyWorkers: nat, mode: Mode, m: nat, n: nat, task: nat)
    requires IsRun(run, steps, heavyWorkers, mode) && m < n < |run|
    requires steps[m] == Clear && task in run[m].waiting
    ensures task in run[n].cleared
  {
    assert run[n] == Take(run[n - 1], steps[n - 1]);
    StepHistory(run[n - 1], steps[n - 1]);
    if n - 1 > m {
      ClearedStays(run, steps, heavyWorkers, mode, m, n - 1, task);
    }
  }

  // ---------------------------------------------------------------------------
  // The queue as it is kept
  // ---------------------------------------------------------------------------

  class TasksQueue {
    const maxTasks: nat
    const mode: Mode
    var waiting: seq<nat>
    var executing: nat
    // tasks handed over to the executor, in order
    var submitted: seq<nat>
    ghost var state: Queue

    constructor (heavyWorkers: nat, mode: Mode)
      ensures Valid() && state == Init(heavyWorkers, mode)
    {
      maxTasks, this.mode := heavyWorkers + 2, mode;
      waiting, executing, submitted := [], 0, [];
      state := Init(heavyWorkers, mode);
    }

    ghost predicate Represents()
      reads this
    {
      && maxTasks == state.maxTasks && mode == state.mode
      && waiting == state.waiting && executing == |state.executing|
      && |submitted| == |state.dispatches|
      && forall i :: 0 <= i < |submitted| ==> submitted[i] == state.dispatches[i].task
    }

    ghost predicate Valid()
      reads this
    {
      Represents() && Inv(state)
    }

    /** Tasks come with the number of their push. */
    method PushTask(task: nat)
      requires Valid() && task == state.pushed
      modifies this
      ensures Valid() && state == Take(old(state), Push)
    {
      ghost var before := state;
      waiting := waiting + [task];
      state := state.(waiting := state.waiting + [state.pushed], pushed := state.pushed + 1);
      TryToFireTasks();
      StepKeeps(before, Push);
    }

    method ClearTasks()
      requires Valid()
      modifies this
      ensures Valid() && state == Take(old(state), Clear)
    {
      StepKeeps(state, Clear);
      waiting := [];
      state := Take(state, Clear);
    }

    method TaskFinished(ghost task: nat)
      requires Valid() && task in state.executing
      modifies this
      ensures Valid() && state == Take(old(state), Finish(task))
    {
      ghost var before := state;
      executing := executing - 1;
      state := state.(executing := Without(state.executing, IndexOf(state.executing, task)), finished := state.finished + [task]);
      TryToFireTasks();
      StepKeeps(before, Finish(task));
    }

    method TryToFireTasks()
      requires Represents()
      modifies this
      ensures Represents() && state == TryToFire(old(state))
    {
      while maxTasks > executing && waiting != []
        invariant Represents() && TryToFire(state) == TryToFire(old(state))
        decreases |waiting|
      {
        FireTask();
      }
    }

    method FireTask()
      requires Represents() && waiting != []
      modifies this
      ensures Represents() && state == Fire(old(state))
    {
      var i := if mode == Fifo then 0 else |waiting| - 1;
      var task := waiting[i];
      waiting := Without(waiting, i);
      executing := executing + 1;
      submitted := submitted + [task];
      state := Fire(state);
    }
  }
}
