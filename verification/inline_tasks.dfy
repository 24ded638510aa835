/** The tasks queue over an executor that performs a task inside `add`: the queue is re-entered while it fires. */
module InlineTasks {
  import opened Common

  /** A task and the tasks its own code pushes, in order. */
  datatype Task = Task(id: int, pushes: seq<Task>)

  /** The task and everything it leads to, in the order a depth-first run starts them. */
  function Preorder(t: Task): (s: seq<Task>)
    ensures s != []
    decreases t, 1
  {
    [t] + PreorderAll(t.pushes)
  }

  function PreorderAll(ts: seq<Task>): seq<Task>
    decreases ts, 0
  {
    if ts == [] then [] else Preorder(ts[0]) + PreorderAll(ts[1..])
  }

  function Depth(t: Task): (d: nat)
    ensures d >= 1
    decreases t, 1
  {
    1 + DepthAll(t.pushes)
  }

  function DepthAll(ts: seq<Task>): (d: nat)
    ensures forall t :: t in ts ==> Depth(t) <= d
    decreases ts, 0
  {
    if ts == [] then 0
    else
      var first, rest := Depth(ts[0]), DepthAll(ts[1..]);
      if first < rest then rest else first
  }

  /** How many tasks there are in all. */
  function Size(t: Task): (n: nat)
    ensures n >= 1
    decreases t, 1
  {
    1 + Sizes(t.pushes)
  }

  function Sizes(ts: seq<Task>): nat
    decreases ts, 0
  {
    if ts == [] then 0 else Size(ts[0]) + Sizes(ts[1..])
  }

  lemma {:induction false} SizesConcat(a: seq<Task>, b: seq<Task>)
    ensures Sizes(a + b) == Sizes(a) + Sizes(b)
  {
    if a == [] {
      assert a + b == b;
    } else {
      assert (a + b)[1..] == a[1..] + b;
      SizesConcat(a[1..], b);
    }
  }

  lemma SizesOne(t: Task)
    ensures Sizes([t]) == Size(t)
  {
    assert [t][1..] == [];
  }

  /** The same tasks as a bag. */
  function Nodes(t: Task): multiset<Task>
    decreases t, 1
  {
    multiset{t} + NodesOf(t.pushes)
  }

  function NodesOf(ts: seq<Task>): multiset<Task>
    decreases ts, 0
  {
    if ts == [] then multiset{} else Nodes(ts[0]) + NodesOf(ts[1..])
  }

  lemma {:induction false} NodesConcat(a: seq<Task>, b: seq<Task>)
    ensures NodesOf(a + b) == NodesOf(a) + NodesOf(b)
  {
    if a == [] {
      assert a + b == b;
    } else {
      assert (a + b)[1..] == a[1..] + b;
      NodesConcat(a[1..], b);
    }
  }

  lemma NodesOne(t: Task)
    ensures NodesOf([t]) == Nodes(t)
  {
    assert [t][1..] == [];
  }

  lemma {:induction false} NodesArePreorder(t: Task)
    ensures Nodes(t) == multiset(Preorder(t))
    decreases t, 1
  {
    AllNodesArePreorder(t.pushes);
  }

  lemma {:induction false} AllNodesArePreorder(ts: seq<Task>)
    ensures NodesOf(ts) == multiset(PreorderAll(ts))
    decreases ts, 0
  {
    if ts != [] {
      NodesArePreorder(ts[0]);
      AllNodesArePreorder(ts[1..]);
    }
  }

  lemma OneMore(ts: seq<Task>, t: Task)
    ensures Sizes(ts + [t]) == Sizes(ts) + Size(t)
    ensures NodesOf(ts + [t]) == NodesOf(ts) + Nodes(t)
  {
    SizesConcat(ts, [t]);
    SizesOne(t);
    NodesConcat(ts, [t]);
    NodesOne(t);
  }

  lemma NodesMiddle(a: seq<Task>, t: Task, b: seq<Task>)
    ensures NodesOf(a + ([t] + b)) == NodesOf(a + b) + Nodes(t)
  {
    NodesConcat(a, [t] + b);
    NodesConcat([t], b);
    NodesOne(t);
    NodesConcat(a, b);
  }

  lemma SizesMiddle(a: seq<Task>, t: Task, b: seq<Task>)
    ensures Sizes(a + ([t] + b)) == Sizes(a + b) + Size(t)
  {
    SizesConcat(a, [t] + b);
    SizesConcat([t], b);
    SizesOne(t);
    SizesConcat(a, b);
  }

  lemma Apart(ts: seq<Task>, i: nat)
    requires i < |ts|
    ensures ts == ts[..i] + ([ts[i]] + ts[i + 1..])
  {
  }

  /** Taking any task out splits the rest of the work from the work of that task. */
  lemma Taken(ts: seq<Task>, i: nat)
    requires i < |ts|
    ensures Sizes(ts) == Sizes(ts[..i] + ts[i + 1..]) + Size(ts[i])
    ensures NodesOf(ts) == NodesOf(ts[..i] + ts[i + 1..]) + Nodes(ts[i])
  {
    Apart(ts, i);
    NodesMiddle(ts[..i], ts[i], ts[i + 1..]);
    SizesMiddle(ts[..i], ts[i], ts[i + 1..]);
  }

  // ---------------------------------------------------------------------------
  // The queue as a value
  // ---------------------------------------------------------------------------

  /** `started` holds every task whose code was entered, oldest first; `peak` the highest number executing so far. */
  datatype Queue = Queue(maxTasks: nat, mode: Mode, waiting: seq<Task>, executing: nat, started: seq<Task>, peak: nat)

  predicate Valid(q: Queue) {
    q.executing <= q.peak <= q.maxTasks
  }

  /** What no operation changes, and that the limit was never passed. */
  predicate Kept(q: Queue, r: Queue) {
    Valid(r) && r.maxTasks == q.maxTasks && r.mode == q.mode
  }

  function Push(q: Queue, t: Task): (r: Queue)
    requires Valid(q)
    ensures Kept(q, r) && r.executing == q.executing && Sizes(r.waiting) <= Sizes(q.waiting) + Size(t)
    decreases Sizes(q.waiting) + Size(t), 3
  {
    OneMore(q.waiting, t);
    TryToFire(q.(waiting := q.waiting + [t]))
  }

  function TryToFire(q: Queue): (r: Queue)
    requires Valid(q)
    ensures Kept(q, r) && r.executing == q.executing && Sizes(r.waiting) <= Sizes(q.waiting)
    decreases Sizes(q.waiting), 2
  {
    if q.maxTasks > q.executing && q.waiting != [] then TryToFire(Fire(q)) else q
  }

  /** Where the next task is taken from. */
  function NextIndex(q: Queue): (i: nat)
    requires q.waiting != []
    ensures i < |q.waiting|
  {
    if q.mode == Fifo then 0 else |q.waiting| - 1
  }

  function Dispatched(q: Queue): (r: Queue)
    requires Valid(q) && q.executing < q.maxTasks && q.waiting != []
    ensures Kept(q, r) && r.executing == q.executing + 1
    ensures Sizes(r.waiting) + Size(q.waiting[NextIndex(q)]) == Sizes(q.waiting)
  {
    var i := NextIndex(q);
    Taken(q.waiting, i);
    q.(waiting := q.waiting[..i] + q.waiting[i + 1..],
       executing := q.executing + 1,
       peak := if q.peak < q.executing + 1 then q.executing + 1 else q.peak)
  }

  /** First in, first out takes the task that waits longest, last in, first out the newest; the others stay in order. */
  lemma DispatchedByMode(q: Queue)
    requires Valid(q) && q.executing < q.maxTasks && q.waiting != []
    ensures q.mode == Fifo ==> q.waiting == [q.waiting[NextIndex(q)]] + Dispatched(q).waiting
    ensures q.mode == Lifo ==> q.waiting == Dispatched(q).waiting + [q.waiting[NextIndex(q)]]
  {
  }

  function Fire(q: Queue): (r: Queue)
    requires Valid(q) && q.executing < q.maxTasks && q.waiting != []
    ensures Kept(q, r) && r.executing == q.executing && Sizes(r.waiting) < Sizes(q.waiting)
    decreases Sizes(q.waiting), 1
  {
    Perform(Dispatched(q), q.waiting[NextIndex(q)])
  }

  /** What the executor runs inside `add`: the task's own code, then the notification. */
  function Perform(q: Queue, t: Task): (r: Queue)
    requires Valid(q) && q.executing > 0
    ensures Kept(q, r) && r.executing == q.executing - 1 && Sizes(r.waiting) < Sizes(q.waiting) + Size(t)
    decreases Sizes(q.waiting) + Size(t), 0
  {
    TaskFinished(PushEach(q.(started := q.started + [t]), t.pushes))
  }

  function PushEach(q: Queue, ts: seq<Task>): (r: Queue)
    requires Valid(q)
    ensures Kept(q, r) && r.executing == q.executing && Sizes(r.waiting) <= Sizes(q.waiting) + Sizes(ts)
    decreases Sizes(q.waiting) + Sizes(ts), 4, |ts|
  {
    if ts == [] then q else PushEach(Push(q, ts[0]), ts[1..])
  }

  function TaskFinished(q: Queue): (r: Queue)
    requires Valid(q) && q.executing > 0
    ensures Kept(q, r) && r.executing == q.executing - 1 && Sizes(r.waiting) <= Sizes(q.waiting)
    decreases Sizes(q.waiting), 3
  {
    TryToFire(q.(executing := q.executing - 1))
  }

  // ---------------------------------------------------------------------------
  // Nothing waits needlessly
  // ---------------------------------------------------------------------------

  lemma {:induction false} NothingLeftWaiting(q: Queue)
    requires Valid(q)
    ensures if q.executing < q.maxTasks then TryToFire(q).waiting == [] else TryToFire(q) == q
    decreases Sizes(q.waiting)
  {
    if q.maxTasks > q.executing && q.waiting != [] {
      NothingLeftWaiting(Fire(q));
    }
  }

  /** A push returns with nothing waiting, unless the limit was reached before it: then only the new task waits on. */
  lemma PushLeavesNothingWaiting(q: Queue, t: Task)
    requires Valid(q)
    ensures if q.executing < q.maxTasks then Push(q, t).waiting == [] else Push(q, t) == q.(waiting := q.waiting + [t])
  {
    NothingLeftWaiting(q.(waiting := q.waiting + [t]));
  }

  // ---------------------------------------------------------------------------
  // Conservation
  // ---------------------------------------------------------------------------

  /** Everything that was started or is still to be. */
  function Work(q: Queue): multiset<Task> {
    multiset(q.started) + NodesOf(q.waiting)
  }

  /** A pushed task and all it leads to are started once or wait. */
  lemma {:induction false} PushConserves(q: Queue, t: Task)
    requires Valid(q)
    ensures Work(Push(q, t)) == Work(q) + Nodes(t)
    decreases Sizes(q.waiting) + Size(t), 3
  {
    OneMore(q.waiting, t);
    TryToFireConserves(q.(waiting := q.waiting + [t]));
  }

  lemma {:induction false} TryToFireConserves(q: Queue)
    requires Valid(q)
    ensures Work(TryToFire(q)) == Work(q)
    decreases Sizes(q.waiting), 2
  {
    if q.maxTasks > q.executing && q.waiting != [] {
      FireConserves(q);
      TryToFireConserves(Fire(q));
    }
  }

  lemma {:induction false} FireConserves(q: Queue)
    requires Valid(q) && q.executing < q.maxTasks && q.waiting != []
    ensures Work(Fire(q)) == Work(q)
    decreases Sizes(q.waiting), 1
  {
    Taken(q.waiting, NextIndex(q));
    PerformConserves(Dispatched(q), q.waiting[NextIndex(q)]);
  }

  lemma {:induction false} PerformConserves(q: Queue, t: Task)
    requires Valid(q) && q.executing > 0
    ensures Work(Perform(q, t)) == Work(q) + Nodes(t)
    decreases Sizes(q.waiting) + Size(t), 0
  {
    var entered := q.(started := q.started + [t]);
    var pushed := PushEach(entered, t.pushes);
    PushEachConserves(entered, t.pushes);
    TryToFireConserves(pushed.(executing := pushed.executing - 1));
    assert Work(entered) == Work(q) + multiset{t};
  }

  lemma {:induction false} PushEachConserves(q: Queue, ts: seq<Task>)
    requires Valid(q)
    ensures Work(PushEach(q, ts)) == Work(q) + NodesOf(ts)
    decreases Sizes(q.waiting) + Sizes(ts), 4, |ts|
  {
    if ts != [] {
      PushConserves(q, ts[0]);
      PushEachConserves(Push(q, ts[0]), ts[1..]);
    }
  }

  /** Pushed on an idle queue, a task and all it leads to are started exactly once each, however deep the tree is. */
  lemma EachStartedOnce(q: Queue, ts: seq<Task>)
    requires Valid(q) && q.executing < q.maxTasks && q.waiting == [] && q.started == []
    ensures PushEach(q, ts).waiting == [] && multiset(PushEach(q, ts).started) == multiset(PreorderAll(ts))
  {
    PushEachConserves(q, ts);
    PushEachLeavesNothing(q, ts);
    AllNodesArePreorder(ts);
    assert Work(q) == multiset{};
    assert Work(PushEach(q, ts)) == multiset(PushEach(q, ts).started);
  }

  lemma {:induction false} PushEachLeavesNothing(q: Queue, ts: seq<Task>)
    requires Valid(q) && q.executing < q.maxTasks && q.waiting == []
    ensures PushEach(q, ts).waiting == []
    decreases |ts|
  {
    if ts != [] {
      PushLeavesNothingWaiting(q, ts[0]);
      PushEachLeavesNothing(Push(q, ts[0]), ts[1..]);
    }
  }

  // ---------------------------------------------------------------------------
  // Order
  // ---------------------------------------------------------------------------

  lemma Associative(a: seq<Task>, b: seq<Task>, c: seq<Task>)
    ensures (a + b) + c == a + (b + c)
  {
  }

  /** While the limit allows it, tasks start in the order of a depth-first run. */
  lemma {:induction false} PushesDepthFirst(q: Queue, ts: seq<Task>)
    requires Valid(q) && q.waiting == [] && q.executing < q.maxTasks && q.executing + DepthAll(ts) <= q.maxTasks
    ensures PushEach(q, ts).waiting == [] && PushEach(q, ts).started == q.started + PreorderAll(ts)
    decreases ts
  {
    if ts != [] {
      var t, next := ts[0], Push(q, ts[0]);
      PushDepthFirst(q, t);
      PushesDepthFirst(next, ts[1..]);
      Associative(q.started, Preorder(t), PreorderAll(ts[1..]));
    }
  }

  lemma {:induction false} PushDepthFirst(q: Queue, t: Task)
    requires Valid(q) && q.waiting == [] && q.executing + Depth(t) <= q.maxTasks
    ensures Push(q, t).waiting == [] && Push(q, t).started == q.started + Preorder(t)
    decreases t
  {
    var one := q.(waiting := [t]);
    assert q.waiting + [t] == [t];
    var taken := Dispatched(one);
    assert taken.waiting == [] && one.waiting[NextIndex(one)] == t;
    PerformDepthFirst(taken, t);
    NothingLeftWaiting(Fire(one));
    assert Push(q, t) == TryToFire(one) == TryToFire(Fire(one)) == Fire(one);
  }

  lemma {:induction false} PerformDepthFirst(q: Queue, t: Task)
    requires Valid(q) && q.waiting == [] && q.executing > 0 && q.executing - 1 + Depth(t) <= q.maxTasks
    ensures Perform(q, t).waiting == [] && Perform(q, t).started == q.started + Preorder(t)
    decreases t, 0
  {
    var entered := q.(started := q.started + [t]);
    if t.pushes != [] {
      PushesDepthFirst(entered, t.pushes);
    }
    var pushed := PushEach(entered, t.pushes);
    assert pushed.waiting == [] && pushed.started == (q.started + [t]) + PreorderAll(t.pushes);
    assert TaskFinished(pushed) == pushed.(executing := pushed.executing - 1);
    Associative(q.started, [t], PreorderAll(t.pushes));
  }

  // ---------------------------------------------------------------------------
  // The queue as it is kept
  // ---------------------------------------------------------------------------

  class ReentrantQueue {
    const maxTasks: nat
    const mode: Mode
    var waiting: seq<Task>
    var executing: nat
    var started: seq<Task>
    ghost var peak: nat

    constructor (heavyWorkers: nat, mode: Mode)
      ensures State() == Queue(heavyWorkers + 2, mode, [], 0, [], 0)
    {
      maxTasks, this.mode := heavyWorkers + 2, mode;
      waiting, executing, started := [], 0, [];
      peak := 0;
    }

    ghost function State(): Queue
      reads this
    {
      Queue(maxTasks, mode, waiting, executing, started, peak)
    }

    method PushTask(t: Task)
      requires Valid(State())
      modifies this
      ensures State() == Push(old(State()), t)
      decreases Sizes(waiting) + Size(t), 3
    {
      OneMore(waiting, t);
      waiting := waiting + [t];
      TryToFireTasks();
    }

    method TryToFireTasks()
      requires Valid(State())
      modifies this
      ensures State() == TryToFire(old(State()))
      decreases Sizes(waiting), 2
    {
      while maxTasks > executing && waiting != []
        invariant Valid(State()) && TryToFire(State()) == TryToFire(old(State()))
        invariant Sizes(waiting) <= old(Sizes(waiting))
        decreases Sizes(waiting)
      {
        FireTask();
      }
    }

    /** The queue is entered again from inside the executor. */
    method FireTask()
      requires Valid(State()) && executing < maxTasks && waiting != []
      modifies this
      ensures State() == Fire(old(State()))
      decreases Sizes(waiting), 1
    {
      var task := TakeNext();
      PerformTask(task);
    }

    method TakeNext() returns (task: Task)
      requires Valid(State()) && executing < maxTasks && waiting != []
      modifies this
      ensures State() == Dispatched(old(State())) && task == old(waiting[NextIndex(State())])
    {
      var i := if mode == Fifo then 0 else |waiting| - 1;
      task := waiting[i];
      waiting := waiting[..i] + waiting[i + 1..];
      executing := executing + 1;
      peak := if peak < executing then executing else peak;
    }

    method PerformTask(t: Task)
      requires Valid(State()) && executing > 0
      modifies this
      ensures State() == Perform(old(State()), t)
      decreases Sizes(waiting) + Size(t), 0
    {
      started := started + [t];
      RunPushes(t.pushes);
      executing := executing - 1;
      TryToFireTasks();
    }

    method RunPushes(ts: seq<Task>)
      requires Valid(State())
      modifies this
      ensures State() == PushEach(old(State()), ts)
      decreases Sizes(waiting) + Sizes(ts), 4, |ts|
    {
      if ts != [] {
        PushTask(ts[0]);
        RunPushes(ts[1..]);
      }
    }
  }
}
