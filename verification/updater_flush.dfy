/** The updater's cache of touched photos: which of the deltas that tasks post are stored by the last flush. */
module UpdaterFlush {
  import opened Common
  import opened Photos
  import opened DeltaMerge

  /** Tasks post their deltas from threads of the executor; the updater's own event loop applies them one by one. */
  datatype State = State(
    tasks: set<nat>,
    events: seq<Delta>,            // posted, and not yet applied
    touched: map<int, Delta>,
    // the history of the run
    posted: seq<Delta>,
    since: seq<Delta>,             // applied since the last flush
    groups: seq<seq<Delta>>,       // applied between one flush and the next
    flushes: seq<map<int, Delta>>) // what was sent to the database

  datatype Step =
    | Start(task: nat)
    | Post(task: nat, delta: Delta)
    | Finish(task: nat)
    | Apply
    | TimedFlush
    | WaitForTasks

  const INIT := State({}, [], map[], [], [], [], [])

  predicate Enabled(st: State, step: Step) {
    match step
    case Start(t) => t !in st.tasks
    case Post(t, delta) => t in st.tasks && delta.id.Some?
    case Finish(t) => t in st.tasks
    case Apply => st.events != []
    case TimedFlush => true
    case WaitForTasks => st.tasks == {}
  }

  /** One more delta is merged into what is cached for its photo. */
  function Touch(touched: map<int, Delta>, delta: Delta): map<int, Delta>
    requires delta.id.Some?
  {
    var id := delta.id.value;
    touched[id := Merge(if id in touched then touched[id] else EmptyDelta(None), delta)]
  }

  function Flushed(st: State): State {
    if st.touched == map[] then st
    else st.(touched := map[], since := [], groups := st.groups + [st.since], flushes := st.flushes + [st.touched])
  }

  function Take(st: State, step: Step): State
    requires Enabled(st, step) && HaveIds(st.events)
  {
    match step
    case Start(t) => st.(tasks := st.tasks + {t})
    case Post(_, delta) => st.(events := st.events + [delta], posted := st.posted + [delta])
    case Finish(t) => st.(tasks := st.tasks - {t})
    case Apply => st.(events := st.events[1..], touched := Touch(st.touched, st.events[0]), since := st.since + [st.events[0]])
    case TimedFlush => Flushed(st)
    case WaitForTasks => Flushed(st)
  }

  predicate HaveIds(deltas: seq<Delta>) {
    forall i :: 0 <= i < |deltas| ==> deltas[i].id.Some?
  }

  // ---------------------------------------------------------------------------
  // What every run keeps
  // ---------------------------------------------------------------------------

  function Mine(deltas: seq<Delta>, id: int): seq<Delta> {
    if deltas == [] then []
    else Mine(deltas[..|deltas| - 1], id) + if deltas[|deltas| - 1].id == Some(id) then [deltas[|deltas| - 1]] else []
  }

  /** For each photo that was touched, all its deltas merged in the order they were applied. */
  ghost predicate Gathers(touched: map<int, Delta>, deltas: seq<Delta>) {
    forall id :: (id in touched <==> Mine(deltas, id) != []) && (id in touched ==> touched[id] == Cached(Mine(deltas, id)))
  }

  function Joined(groups: seq<seq<Delta>>): seq<Delta> {
    if groups == [] then [] else Joined(groups[..|groups| - 1]) + groups[|groups| - 1]
  }

  ghost predicate Inv(st: State) {
    && HaveIds(st.events) && HaveIds(st.since)
    && st.posted == Joined(st.groups) + st.since + st.events
    && Gathers(st.touched, st.since)
    && |st.flushes| == |st.groups|
    && forall k :: 0 <= k < |st.groups| ==> Gathers(st.flushes[k], st.groups[k])
  }

  lemma MineSnoc(deltas: seq<Delta>, last: Delta, id: int)
    ensures Mine(deltas + [last], id) == Mine(deltas, id) + if last.id == Some(id) then [last] else []
  {
    assert (deltas + [last])[..|deltas|] == deltas;
  }

  lemma CachedSnoc(deltas: seq<Delta>, last: Delta)
    ensures Cached(deltas + [last]) == Merge(Cached(deltas), last)
  {
    assert (deltas + [last])[..|deltas|] == deltas;
  }

  lemma TouchGathers(touched: map<int, Delta>, deltas: seq<Delta>, last: Delta)
    requires Gathers(touched, deltas) && last.id.Some?
    ensures Gathers(Touch(touched, last), deltas + [last])
  {
    var next := Touch(touched, last);
    forall id
      ensures id in next <==> Mine(deltas + [last], id) != []
      ensures id in next ==> next[id] == Cached(Mine(deltas + [last], id))
    {
      MineSnoc(deltas, last, id);
      if last.id == Some(id) {
        CachedSnoc(Mine(deltas, id), last);
      } else {
        assert Mine(deltas + [last], id) == Mine(deltas, id);
      }
    }
  }

  /** Whatever was applied since the last flush is in the cache. */
  lemma SomethingCached(st: State)
    requires Inv(st) && st.since != []
    ensures st.touched != map[]
  {
    var n := |st.since| - 1;
    var id := st.since[n].id.value;
    assert Mine(st.since, id) == Mine(st.since[..n], id) + [st.since[n]];
    assert id in st.touched;
  }

  lemma FlushKeeps(st: State)
    requires Inv(st)
    ensures Inv(Flushed(st)) && Flushed(st).since == [] && Flushed(st).touched == map[]
    ensures Flushed(st).posted == st.posted && Flushed(st).events == st.events
  {
    if st.touched == map[] {
      if st.since != [] {
        SomethingCached(st);
      }
    } else {
      var next := Flushed(st);
      assert next.groups[..|st.groups|] == st.groups;
      assert Joined(next.groups) == Joined(st.groups) + st.since;
      assert next.posted == Joined(next.groups) + next.since + next.events;
      assert forall id: int :: Mine([], id) == [];
    }
  }

  lemma NextEvent(before: seq<Delta>, since: seq<Delta>, events: seq<Delta>)
    requires events != []
    ensures before + since + events == before + (since + [events[0]]) + events[1..]
  {
  }

  lemma ApplyKeeps(st: State)
    requires Inv(st) && st.events != []
    ensures Inv(Take(st, Apply))
  {
    TouchGathers(st.touched, st.since, st.events[0]);
    NextEvent(Joined(st.groups), st.since, st.events);
  }

  lemma PostKeeps(st: State, task: nat, delta: Delta)
    requires Inv(st) && Enabled(st, Post(task, delta))
    ensures Inv(Take(st, Post(task, delta)))
  {
    assert Joined(st.groups) + st.since + st.events + [delta] == Joined(st.groups) + st.since + (st.events + [delta]);
  }

  lemma StepKeeps(st: State, step: Step)
    requires Inv(st) && Enabled(st, step)
    ensures Inv(Take(st, step))
  {
    match step
    case Apply => ApplyKeeps(st);
    case Post(t, delta) => PostKeeps(st, t, delta);
    case TimedFlush => FlushKeeps(st);
    case WaitForTasks => FlushKeeps(st);
    case _ =>
  }

  lemma StartsEmpty()
    ensures Inv(INIT)
  {
    assert forall id: int :: Mine([], id) == [];
  }

  ghost predicate IsRun(run: seq<State>, steps: seq<Step>) {
    && |run| == |steps| + 1 && run[0] == INIT
    && forall i :: 0 <= i < |steps| ==> CanTake(run[i], steps[i]) && run[i + 1] == Take(run[i], steps[i])
  }

  predicate CanTake(st: State, step: Step) {
    Enabled(st, step) && HaveIds(st.events)
  }

  lemma {:induction false} EveryRunKeeps(run: seq<State>, steps: seq<Step>, n: nat)
    requires IsRun(run, steps) && n < |run|
    ensures Inv(run[n])
  {
    if n == 0 {
      StartsEmpty();
    } else {
      EveryRunKeeps(run, steps, n - 1);
      assert CanTake(run[n - 1], steps[n - 1]) && run[n] == Take(run[n - 1], steps[n - 1]);
      StepKeeps(run[n - 1], steps[n - 1]);
    }
  }

  // ---------------------------------------------------------------------------
  // The last flush
  // ---------------------------------------------------------------------------

  /** Main result: waiting for all tasks and flushing stores exactly the deltas whose events were handled before, in the
      order they were posted, group by group merged for each photo; the others are still events. */
  lemma LastFlushStoresExactly(run: seq<State>, steps: seq<Step>, n: nat)
    requires IsRun(run, steps) && n < |steps| && steps[n] == WaitForTasks
    ensures var st := run[n + 1];
            var handled := |st.posted| - |st.events|;
            && handled >= 0 && Joined(st.groups) == st.posted[..handled] && st.events == st.posted[handled..]
            && |st.flushes| == |st.groups| && forall k :: 0 <= k < |st.groups| ==> Gathers(st.flushes[k], st.groups[k])
  {
    EveryRunKeeps(run, steps, n);
    assert CanTake(run[n], steps[n]) && run[n + 1] == Take(run[n], steps[n]);
    FlushKeeps(run[n]);
    var st := run[n + 1];
    assert st.posted == Joined(st.groups) + st.events;
  }

  /** All tasks have finished then, and still a delta is left behind exactly when its event was not handled. */
  lemma AllStoredExactly(run: seq<State>, steps: seq<Step>, n: nat)
    requires IsRun(run, steps) && n < |steps| && steps[n] == WaitForTasks
    ensures run[n + 1].tasks == {}
    ensures Joined(run[n + 1].groups) == run[n + 1].posted <==> run[n].events == []
  {
    EveryRunKeeps(run, steps, n);
    assert CanTake(run[n], steps[n]) && run[n + 1] == Take(run[n], steps[n]);
    FlushKeeps(run[n]);
    var st := run[n + 1];
    assert st.posted == Joined(st.groups) + st.events;
    assert |st.posted| == |Joined(st.groups)| + |st.events|;
  }

  // ---------------------------------------------------------------------------
  // The cache as it is kept
  // ---------------------------------------------------------------------------

  class Cache {
    var touchedPhotos: map<int, Delta>
    // batches handed over to the database, in order
    var sent: seq<map<int, Delta>>

    constructor ()
      ensures touchedPhotos == map[] && sent == []
    {
      touchedPhotos, sent := map[], [];
    }

    method ApplyDelta(delta: Delta)
      requires delta.id.Some?
      modifies this
      ensures touchedPhotos == Touch(old(touchedPhotos), delta) && sent == old(sent)
    {
      var id := delta.id.value;
      if id !in touchedPhotos {
        touchedPhotos := touchedPhotos[id := EmptyDelta(None)];
      }
      touchedPhotos := touchedPhotos[id := Merge(touchedPhotos[id], delta)];
    }

    method FlushCache()
      modifies this
      ensures touchedPhotos == map[]
      ensures sent == if old(touchedPhotos) == map[] then old(sent) else old(sent) + [old(touchedPhotos)]
    {
      if touchedPhotos != map[] {
        sent := sent + [touchedPhotos];
        touchedPhotos := map[];
      }
    }
  }
}
