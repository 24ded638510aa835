/** The analyzer: photos wait in line, one batch at a time is loaded, and each loaded photo gets the update tasks it lacks. */
module PhotosAnalyzer {
  import opened Common

  /** A loaded photo, with the two flags that tell what it lacks. */
  datatype Photo = Photo(id: int, geometryLoaded: int, exifLoaded: int)

  datatype Task = UpdateGeometry(id: int) | UpdateTags(id: int)

  /** The batch in flight: asked for, then loaded on the database thread and posted back. */
  datatype Batch = NoBatch | Asked(ids: seq<int>) | Posted(photos: seq<Photo>)

  datatype State = State(
    workers: nat,
    waiting: seq<int>,
    loading: bool,
    batch: Batch,
    tasks: seq<Task>,
    unsignalled: nat,     // tasks taken off the list whose signal is not emitted yet
    signals: nat,         // emitted signals the main thread has not handled yet
    // the history of the run
    accepted: seq<int>,   // every photo ever queued, without those dropped by a stop
    handled: seq<Photo>,  // every photo handed to the updater
    created: seq<Task>,   // every task ever added
    finished: seq<Task>)  // every task taken off the list

  datatype Step =
    | Add(ids: seq<int>)
    | Load(photos: seq<Photo>)
    | Update
    | Finish(i: nat)
    | Emit
    | HandleSignal
    | Stop

  function Init(workers: nat): State {
    State(workers, [], false, NoBatch, [], 0, 0, [], [], [], [])
  }

  function Process(st: State): State {
    if !st.loading && st.waiting != [] && |st.tasks| < st.workers * 2 then
      var n := Min(|st.waiting|, st.workers);
      st.(loading := true, batch := Asked(st.waiting[..n]), waiting := st.waiting[n..])
    else st
  }

  /** The tasks a photo lacks: geometry first, then tags. */
  function Missing(p: Photo): (tasks: seq<Task>)
    ensures |tasks| <= 2
    ensures tasks != [] <==> p.geometryLoaded == 0 || p.exifLoaded == 0
  {
    (if p.geometryLoaded == 0 then [UpdateGeometry(p.id)] else []) + (if p.exifLoaded == 0 then [UpdateTags(p.id)] else [])
  }

  function AllMissing(photos: seq<Photo>): seq<Task> {
    if photos == [] then [] else Missing(photos[0]) + AllMissing(photos[1..])
  }

  function IdsOf(photos: seq<Photo>): (ids: seq<int>)
    ensures |ids| == |photos| && forall i :: 0 <= i < |ids| ==> ids[i] == photos[i].id
  {
    seq(|photos|, i requires 0 <= i < |photos| => photos[i].id)
  }

  predicate Enabled(st: State, step: Step) {
    match step
    case Load(photos) => st.batch.Asked? && IdsOf(photos) == st.batch.ids
    case Update => st.batch.Posted?
    case Finish(i) => i < |st.tasks|
    case Emit => st.unsignalled > 0
    case HandleSignal => st.signals > 0
    case _ => true
  }

  function WithoutLast(s: seq<int>, n: nat): seq<int> {
    if n <= |s| then s[..|s| - n] else []
  }

  function Take(st: State, step: Step): State
    requires Enabled(st, step)
  {
    match step
    case Add(ids) => Process(st.(waiting := st.waiting + ids, accepted := st.accepted + ids))
    case Load(photos) => st.(batch := Posted(photos))
    case Update =>
      var tasks := AllMissing(st.batch.photos);
      st.(tasks := st.tasks + tasks, created := st.created + tasks, handled := st.handled + st.batch.photos,
          loading := false, batch := NoBatch)
    case Finish(i) =>
      st.(tasks := st.tasks[..i] + st.tasks[i + 1..], unsignalled := st.unsignalled + 1, finished := st.finished + [st.tasks[i]])
    case Emit => st.(unsignalled := st.unsignalled - 1, signals := st.signals + 1)
    case HandleSignal => Process(st.(signals := st.signals - 1))
    case Stop => st.(waiting := [], accepted := WithoutLast(st.accepted, |st.waiting|))
  }

  // ---------------------------------------------------------------------------
  // What every run keeps
  // ---------------------------------------------------------------------------

  function InFlight(batch: Batch): seq<int> {
    match batch
    case NoBatch => []
    case Asked(ids) => ids
    case Posted(photos) => IdsOf(photos)
  }

  /** The bound counts the two tasks that each photo in flight may still become. */
  ghost predicate Bounded(st: State) {
    && st.workers >= 1
    && (st.loading <==> st.batch != NoBatch)
    && (st.loading ==> 1 <= |InFlight(st.batch)| <= st.workers)
    && |st.tasks| + 2 * |InFlight(st.batch)| <= 4 * st.workers - 1
  }

  /** In order, each queued photo is handled, in flight or waiting, exactly once. */
  ghost predicate InOrder(st: State) {
    st.accepted == IdsOf(st.handled) + InFlight(st.batch) + st.waiting
  }

  /** The tasks ever created are those the handled photos lacked; each is alive or was finished. */
  ghost predicate Conserved(st: State) {
    && st.created == AllMissing(st.handled)
    && multiset(st.created) == multiset(st.tasks) + multiset(st.finished)
  }

  ghost predicate Inv(st: State) {
    Bounded(st) && InOrder(st) && Conserved(st)
  }

  lemma {:induction false} AllMissingBounded(photos: seq<Photo>)
    ensures |AllMissing(photos)| <= 2 * |photos|
    ensures AllMissing(photos) == [] <==> forall i :: 0 <= i < |photos| ==> Missing(photos[i]) == []
  {
    if photos != [] {
      AllMissingBounded(photos[1..]);
      if AllMissing(photos) == [] {
        forall i | 0 <= i < |photos|
          ensures Missing(photos[i]) == []
        {
          if i > 0 {
            assert photos[i] == photos[1..][i - 1];
          }
        }
      }
    }
  }

  predicate Lacks(p: Photo, t: Task) {
    p.id == t.id && (if t.UpdateGeometry? then p.geometryLoaded == 0 else p.exifLoaded == 0)
  }

  /** No photo gets an update it does not lack, and each gets every update it lacks. */
  lemma {:induction false} UpdatesExactly(photos: seq<Photo>, t: Task)
    ensures t in AllMissing(photos) <==> exists k :: 0 <= k < |photos| && Lacks(photos[k], t)
  {
    if photos != [] {
      var rest := photos[1..];
      UpdatesExactly(rest, t);
      assert forall k :: 0 <= k < |rest| ==> rest[k] == photos[k + 1];
      assert t in Missing(photos[0]) <==> Lacks(photos[0], t);
    }
  }

  lemma MissingOnce(p: Photo, t: Task)
    ensures multiset(Missing(p))[t] == if Lacks(p, t) then 1 else 0
  {
  }

  /** Distinct photos never get the same update twice. */
  lemma {:induction false} UpdatesOnce(photos: seq<Photo>, t: Task)
    requires forall i, j :: 0 <= i < j < |photos| ==> photos[i].id != photos[j].id
    ensures multiset(AllMissing(photos))[t] <= 1
  {
    if photos != [] {
      var rest := photos[1..];
      UpdatesOnce(rest, t);
      UpdatesExactly(rest, t);
      MissingOnce(photos[0], t);
      assert multiset(AllMissing(photos)) == multiset(Missing(photos[0])) + multiset(AllMissing(rest));
      if Lacks(photos[0], t) {
        assert forall k :: 0 <= k < |rest| ==> rest[k] == photos[k + 1] && !Lacks(rest[k], t);
      }
    }
  }

  lemma {:induction false} AllMissingConcat(a: seq<Photo>, b: seq<Photo>)
    ensures AllMissing(a + b) == AllMissing(a) + AllMissing(b)
  {
    if a == [] {
      assert a + b == b;
    } else {
      assert (a + b)[1..] == a[1..] + b;
      AllMissingConcat(a[1..], b);
    }
  }

  lemma IdsOfConcat(a: seq<Photo>, b: seq<Photo>)
    ensures IdsOf(a + b) == IdsOf(a) + IdsOf(b)
  {
  }

  lemma StepBounded(st: State, step: Step)
    requires Bounded(st) && Enabled(st, step)
    ensures Bounded(Take(st, step))
  {
    if step == Update {
      AllMissingBounded(st.batch.photos);
    }
  }

  lemma ProcessInOrder(st: State)
    requires InOrder(st) && (st.loading <==> st.batch != NoBatch)
    ensures InOrder(Process(st))
  {
    if !st.loading && st.waiting != [] && |st.tasks| < st.workers * 2 {
      var n := Min(|st.waiting|, st.workers);
      assert st.waiting == st.waiting[..n] + st.waiting[n..];
    }
  }

  lemma UpdateInOrder(st: State)
    requires InOrder(st) && st.batch.Posted?
    ensures InOrder(Take(st, Update))
  {
    IdsOfConcat(st.handled, st.batch.photos);
  }

  lemma StopInOrder(st: State)
    requires InOrder(st)
    ensures InOrder(Take(st, Stop))
  {
    var kept := IdsOf(st.handled) + InFlight(st.batch);
    assert WithoutLast(st.accepted, |st.waiting|) == kept;
  }

  lemma StepInOrder(st: State, step: Step)
    requires InOrder(st) && (st.loading <==> st.batch != NoBatch) && Enabled(st, step)
    ensures InOrder(Take(st, step))
  {
    match step
    case Add(ids) => ProcessInOrder(st.(waiting := st.waiting + ids, accepted := st.accepted + ids));
    case Load(photos) =>
    case Update => UpdateInOrder(st);
    case Finish(i) =>
    case Emit =>
    case HandleSignal => ProcessInOrder(st.(signals := st.signals - 1));
    case Stop => StopInOrder(st);
  }

  lemma UpdateConserves(st: State)
    requires Conserved(st) && st.batch.Posted?
    ensures Conserved(Take(st, Update))
  {
    var next, more := Take(st, Update), AllMissing(st.batch.photos);
    AllMissingConcat(st.handled, st.batch.photos);
    assert multiset(next.created) == multiset(st.created) + multiset(more);
    assert multiset(next.tasks) == multiset(st.tasks) + multiset(more);
  }

  lemma FinishConserves(st: State, i: nat)
    requires Conserved(st) && i < |st.tasks|
    ensures Conserved(Take(st, Finish(i)))
  {
    var next := Take(st, Finish(i));
    assert st.tasks == st.tasks[..i] + [st.tasks[i]] + st.tasks[i + 1..];
    assert multiset(st.tasks) == multiset(next.tasks) + multiset{st.tasks[i]};
    assert multiset(next.finished) == multiset(st.finished) + multiset{st.tasks[i]};
  }

  lemma ProcessConserves(st: State)
    ensures var next := Process(st);
            next.tasks == st.tasks && next.created == st.created && next.finished == st.finished && next.handled == st.handled
  {
  }

  /** No other step has anything to do with tasks. */
  lemma OthersConserve(st: State, step: Step)
    requires Enabled(st, step) && step != Update && !step.Finish?
    ensures var next := Take(st, step);
            next.tasks == st.tasks && next.created == st.created && next.finished == st.finished && next.handled == st.handled
  {
    match step
    case Add(ids) => ProcessConserves(st.(waiting := st.waiting + ids, accepted := st.accepted + ids));
    case HandleSignal => ProcessConserves(st.(signals := st.signals - 1));
    case _ =>
  }

  lemma StepConserves(st: State, step: Step)
    requires Conserved(st) && Enabled(st, step)
    ensures Conserved(Take(st, step))
  {
    if step == Update {
      UpdateConserves(st);
    } else if step.Finish? {
      FinishConserves(st, step.i);
    } else {
      OthersConserve(st, step);
    }
  }

  lemma StepKeeps(st: State, step: Step)
    requires Inv(st) && Enabled(st, step)
    ensures Inv(Take(st, step)) && Take(st, step).workers == st.workers
  {
    StepBounded(st, step);
    StepInOrder(st, step);
    StepConserves(st, step);
  }

  ghost predicate IsRun(run: seq<State>, steps: seq<Step>, workers: nat) {
    && |run| == |steps| + 1 && run[0] == Init(workers)
    && forall i :: 0 <= i < |steps| ==>
      Enabled(run[i], steps[i]) && run[i + 1] == Take(run[i], steps[i])
  }

  /** In every interleaving: never more than 4w - 1 tasks, and every queued photo is loaded once, in order,
      and gets exactly the updates it lacks. */
  lemma {:induction false} EveryRunKeeps(run: seq<State>, steps: seq<Step>, workers: nat, n: nat)
    requires workers >= 1 && IsRun(run, steps, workers) && n < |run|
    ensures Inv(run[n]) && run[n].workers == workers && |run[n].tasks| <= 4 * workers - 1
  {
    if n > 0 {
      EveryRunKeeps(run, steps, workers, n - 1);
      assert run[n] == Take(run[n - 1], steps[n - 1]);
      StepKeeps(run[n - 1], steps[n - 1]);
    }
  }

  // ---------------------------------------------------------------------------
  // No stall
  // ---------------------------------------------------------------------------

  /** Something will still happen that makes the analyzer look at its line. */
  predicate Alive(st: State) {
    st.loading || st.tasks != [] || st.unsignalled > 0 || st.signals > 0
  }

  ghost predicate NoStall(st: State) {
    st.waiting != [] ==> Alive(st)
  }

  // ---------------------------------------------------------------------------
  // Taking photos off the line, and leaving them behind
  // ---------------------------------------------------------------------------

  /** Photos leave the front of the line as many as there are workers, or all of them; and afterwards some wait only while a
      batch is loading or there are tasks enough. */
  lemma ProcessTakes(st: State)
    ensures var next := Process(st);
            next.waiting != [] ==> next.loading || |next.tasks| >= 2 * next.workers
    ensures var next := Process(st);
            next != st ==>
              && !st.loading && next.loading && next.batch.Asked? && next.batch.ids + next.waiting == st.waiting
              && |next.batch.ids| <= st.workers && (next.waiting == [] || |next.batch.ids| == st.workers)
  {
  }

  /** All ids that the m-th step and those after it, before the n-th, put in line. */
  ghost function QueuedBetween(steps: seq<Step>, m: nat, n: nat): multiset<int>
    requires n <= |steps|
  {
    if n <= m then multiset{} else QueuedBetween(steps, m, n - 1) + multiset(IdsIn(steps[n - 1]))
  }

  lemma StepAccepts(st: State, step: Step)
    requires InOrder(st) && Enabled(st, step)
    ensures multiset(Take(st, step).accepted) <= multiset(st.accepted) + multiset(IdsIn(step))
    ensures step == Stop ==> Take(st, step).waiting == [] && Take(st, step).accepted == IdsOf(st.handled) + InFlight(st.batch)
  {
    match step
    case Stop =>
      var kept := IdsOf(st.handled) + InFlight(st.batch);
      assert st.accepted == kept + st.waiting;
      assert WithoutLast(st.accepted, |st.waiting|) == kept;
      assert multiset(st.accepted) == multiset(kept) + multiset(st.waiting);
    case Add(ids) => assert multiset(st.accepted + ids) == multiset(st.accepted) + multiset(ids);
    case _ =>
  }

  /** Photos waiting at a stop are left behind: whatever is handled, in flight or in line at any later time had been handled
      or was in flight at the stop, or was queued since. */
  lemma LeftBehind(run: seq<State>, steps: seq<Step>, workers: nat, m: nat, n: nat)
    requires workers >= 1 && IsRun(run, steps, workers) && m < n < |run| && steps[m] == Stop
    ensures multiset(IdsOf(run[n].handled) + InFlight(run[n].batch) + run[n].waiting) <= KeptAt(run[m]) + QueuedBetween(steps, m + 1, n)
  {
    EveryRunKeeps(run, steps, workers, n);
    RunAccepts(run, steps, workers, m);
    forall i: nat | m < i < n
      ensures AcceptsAt(run, steps, i)
    {
      RunAccepts(run, steps, workers, i);
    }
    AcceptedSince(run, steps, KeptAt(run[m]), m, n);
  }

  function IdsIn(step: Step): seq<int> {
    match step
    case Add(ids) => ids
    case _ => []
  }

  ghost predicate Accepts(st: State, next: State, step: Step) {
    multiset(next.accepted) <= multiset(st.accepted) + multiset(IdsIn(step))
  }

  ghost predicate Within(st: State, kept: multiset<int>, queued: multiset<int>) {
    multiset(st.accepted) <= kept + queued
  }

  lemma RunAccepts(run: seq<State>, steps: seq<Step>, workers: nat, n: nat)
    requires workers >= 1 && IsRun(run, steps, workers) && n < |steps|
    ensures Accepts(run[n], run[n + 1], steps[n])
    ensures steps[n] == Stop ==> run[n + 1].accepted == IdsOf(run[n].handled) + InFlight(run[n].batch)
  {
    EveryRunKeeps(run, steps, workers, n);
    assert Enabled(run[n], steps[n]) && run[n + 1] == Take(run[n], steps[n]);
    StepAccepts(run[n], steps[n]);
  }

  lemma WithinOneMore(st: State, next: State, step: Step, kept: multiset<int>, queued: multiset<int>)
    requires Accepts(st, next, step) && Within(st, kept, queued)
    ensures Within(next, kept, queued + multiset(IdsIn(step)))
  {
  }

  ghost function KeptAt(st: State): multiset<int> {
    multiset(IdsOf(st.handled) + InFlight(st.batch))
  }

  ghost predicate AcceptsAt(run: seq<State>, steps: seq<Step>, i: nat) {
    i < |steps| && i + 1 < |run| && Accepts(run[i], run[i + 1], steps[i])
  }

  lemma {:induction false} AcceptedSince(run: seq<State>, steps: seq<Step>, kept: multiset<int>, m: nat, n: nat)
    requires m < n < |run| && n <= |steps| && Within(run[m + 1], kept, multiset{})
    requires forall i: nat :: m < i < n ==> AcceptsAt(run, steps, i)
    ensures Within(run[n], kept, QueuedBetween(steps, m + 1, n))
  {
    if n - 1 > m {
      AcceptedSince(run, steps, kept, m, n - 1);
      assert AcceptsAt(run, steps, n - 1);
      WithinOneMore(run[n - 1], run[n], steps[n - 1], kept, QueuedBetween(steps, m + 1, n - 1));
    }
  }

  /** A loaded batch where no photo lacks anything adds no task, and nothing looks at the line again. */
  predicate NeedsNothing(photos: seq<Photo>) {
    forall i :: 0 <= i < |photos| ==> photos[i].geometryLoaded != 0 && photos[i].exifLoaded != 0
  }

  /** Exactly: a step leads into a stall if and only if it hands over a batch that needs nothing
      while photos wait and no task or signal is left. */
  lemma StallsExactly(st: State, step: Step)
    requires Bounded(st) && NoStall(st) && Enabled(st, step)
    ensures !NoStall(Take(st, step)) <==>
      && step == Update && NeedsNothing(st.batch.photos)
      && st.waiting != [] && st.tasks == [] && st.unsignalled == 0 && st.signals == 0
  {
    match step
    case Update =>
      AllMissingBounded(st.batch.photos);
    case _ =>
  }

  /** Every batch that was loaded had a photo lacking something. */
  ghost predicate EveryBatchNeedsSomething(run: seq<State>, steps: seq<Step>)
    requires |run| == |steps| + 1
  {
    forall i :: 0 <= i < |steps| && steps[i] == Update && run[i].batch.Posted? ==> !NeedsNothing(run[i].batch.photos)
  }

  lemma RunBounded(run: seq<State>, steps: seq<Step>, workers: nat, n: nat)
    requires workers >= 1 && IsRun(run, steps, workers) && n < |run|
    ensures Bounded(run[n])
  {
    EveryRunKeeps(run, steps, workers, n);
  }

  lemma {:induction false} NeverStalls(run: seq<State>, steps: seq<Step>, workers: nat, n: nat)
    requires workers >= 1 && IsRun(run, steps, workers) && n < |run|
    requires EveryBatchNeedsSomething(run, steps)
    ensures NoStall(run[n])
  {
    if n > 0 {
      NeverStalls(run, steps, workers, n - 1);
      RunBounded(run, steps, workers, n - 1);
      assert Enabled(run[n - 1], steps[n - 1]) && run[n] == Take(run[n - 1], steps[n - 1]);
      StallsExactly(run[n - 1], steps[n - 1]);
    }
  }

  /** Photos that are already complete do stop the line: one worker, two such photos, and nothing under way will look at the
      second, which waits until photos are queued again. */
  lemma CompletePhotosStall()
    ensures var a := Take(Init(1), Add([1, 2]));
            var b := Take(Take(a, Load([Photo(1, 1, 1)])), Update);
            b.waiting == [2] && !Alive(b)
  {
    var a := Take(Init(1), Add([1, 2]));
    assert a.batch == Asked([1]) && a.waiting == [2];
    assert [Photo(1, 1, 1)][1..] == [];
  }

  // ---------------------------------------------------------------------------
  // The analyzer as it is kept
  // ---------------------------------------------------------------------------

  class Analyzer {
    const workers: nat
    var waiting: seq<int>
    var loading: bool
    // the updater's list of tasks, and the request in flight
    var tasks: seq<Task>
    var batch: Batch
    ghost var state: State

    constructor (workers: nat)
      requires workers >= 1
      ensures Represents() && state == Init(workers)
    {
      this.workers := workers;
      waiting, loading, tasks, batch := [], false, [], NoBatch;
      state := Init(workers);
    }

    ghost predicate Represents()
      reads this
    {
      && workers == state.workers && waiting == state.waiting && loading == state.loading
      && tasks == state.tasks && batch == state.batch
    }

    method AddPhotos(ids: seq<int>)
      requires Represents()
      modifies this
      ensures Represents() && state == Take(old(state), Add(ids))
    {
      waiting := waiting + ids;
      state := state.(waiting := state.waiting + ids, accepted := state.accepted + ids);
      ProcessPhotos();
    }

    method ProcessPhotos()
      requires Represents()
      modifies this
      ensures Represents() && state == Process(old(state))
    {
      state := Process(state);
      if !loading && waiting != [] && |tasks| < workers * 2 {
        loading := true;
        var toProcess := Min(|waiting|, workers);
        batch := Asked(waiting[..toProcess]);
        waiting := waiting[toProcess..];
      }
    }

    /** The loaded photos arrive: each adds the tasks it lacks, one after the other. */
    method UpdatePhotos(photos: seq<Photo>)
      requires Represents() && batch == Posted(photos)
      modifies this
      ensures Represents() && state == Take(old(state), Update)
    {
      AddMissing(photos);
      loading := false;
      batch := NoBatch;
      state := Take(state, Update);
    }

    method AddMissing(photos: seq<Photo>)
      modifies this`tasks
      ensures tasks == old(tasks) + AllMissing(photos)
    {
      ghost var before := tasks;
      var rest := photos;
      while rest != []
        invariant tasks + AllMissing(rest) == before + AllMissing(photos)
        decreases |rest|
      {
        assert tasks + AllMissing(rest) == (tasks + Missing(rest[0])) + AllMissing(rest[1..]);
        var photo := rest[0];
        if photo.geometryLoaded == 0 {
          tasks := tasks + [UpdateGeometry(photo.id)];
        }
        if photo.exifLoaded == 0 {
          tasks := tasks + [UpdateTags(photo.id)];
        }
        rest := rest[1..];
      }
    }

    /** Waiting photos are dropped; the wait for the tasks is the updater's. */
    method StopAnalyzing()
      requires Represents()
      modifies this
      ensures Represents() && state == Take(old(state), Stop)
    {
      waiting := [];
      state := Take(state, Stop);
    }

    method TaskFinished(i: nat)
      requires Represents() && i < |tasks|
      modifies this
      ensures Represents() && state == Take(old(state), Finish(i))
    {
      tasks := tasks[..i] + tasks[i + 1..];
      state := Take(state, Finish(i));
    }

    method PhotoProcessed()
      requires Represents() && state.signals > 0
      modifies this
      ensures Represents() && state == Take(old(state), HandleSignal)
    {
      state := state.(signals := state.signals - 1);
      ProcessPhotos();
    }
  }
}
