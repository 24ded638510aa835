/** Changes made through photo objects that are up to date: all of them are kept. */
module PhotoSetters {
  import opened Common
  import opened Photos
  import MemoryBackend
  import opened PhotoCache

  // ---------------------------------------------------------------------------
  // The record a photo will have
  // ---------------------------------------------------------------------------

  /** No delta of the photo is queued, and its object does not wait for a refresh: what a client can check before a setter. */
  ghost predicate UpToDate(st: State, photo: int) {
    photo !in st.refreshing && forall i :: 0 <= i < |st.queue| ==> st.queue[i].id != Some(photo)
  }

  /** The backend's record after everything queued now has been stored. */
  function Eventual(st: State, photo: int): Data
    requires photo in st.backend.photos
  {
    ApplyMine(photo, st.backend.photos[photo], st.queue)
  }

  lemma {:induction false} NothingMine(photo: int, data: Data, deltas: seq<Delta>)
    requires forall i :: 0 <= i < |deltas| ==> deltas[i].id != Some(photo)
    ensures ApplyMine(photo, data, deltas) == data
    decreases |deltas|
  {
    if deltas != [] {
      NothingMine(photo, data, deltas[1..]);
    }
  }

  /** Storing the head of the queue changes no record in the long run. */
  lemma RunQueuedEventual(st: State, photo: int)
    requires Inv(st) && Enabled(st, RunQueued) && photo in st.backend.photos
    ensures var next := Take(st, RunQueued);
            && photo in next.backend.photos && Eventual(next, photo) == Eventual(st, photo)
            && next.backend.photos[photo] == (if st.queue[0].id == Some(photo) then Apply(st.backend.photos[photo], st.queue[0]) else st.backend.photos[photo])
            && next.refreshing == {st.queue[0].id.value}
  {
    var delta := st.queue[0];
    MemoryBackend.UpdateRecord(st.backend, [delta], photo);
    assert [delta][1..] == [];
    assert Touched([delta]) == {delta.id.value} by {
      assert [delta][0] == delta;
    }
  }

  /** A database step that does not name the photo leaves its record alone. */
  ghost predicate Foreign(st: State, photo: int, step: Step) {
    match step
    case RunUpdate(deltas) => photo in Touched(deltas)
    case RunAddGroup(representative, _) => representative == photo
    case RunRemoveGroup(gid) => photo in GroupCleared(st.backend, gid)
    case _ => false
  }

  lemma OthersLeaveAlone(st: State, photo: int, step: Step)
    requires Inv(st) && Enabled(st, step) && photo in st.backend.photos && !Foreign(st, photo, step)
    requires step.RunUpdate? || step.RunAddGroup? || step.RunRemoveGroup?
    ensures var next := Take(st, step);
            && photo in next.backend.photos && next.backend.photos[photo] == st.backend.photos[photo]
            && photo !in next.refreshing && next.queue == st.queue && next.objects == st.objects && next.marking == st.marking
  {
    match step
    case RunUpdate(deltas) => BatchModifies(st, Take(st, step), st.backend, deltas);
    case RunAddGroup(r, kind) => RunAddGroupModifies(st, r, kind);
    case RunRemoveGroup(gid) => RunRemoveGroupModifies(st, gid);
    case _ =>
  }

  // ---------------------------------------------------------------------------
  // Setters on a photo that is up to date are kept
  // ---------------------------------------------------------------------------

  /** Does the step queue a change of the photo? */
  predicate Writes(st: State, photo: int, step: Step)
    requires Enabled(st, step)
  {
    match step
    case Set(o, _) => st.objects[o].id == photo
    case EndMark(i) => st.objects[st.marking[i].owner].id == photo
    case _ => false
  }

  /** The record the clients mean, after a step. */
  function Effect(st: State, photo: int, step: Step, data: Data): Data
    requires Enabled(st, step)
  {
    if !Writes(st, photo, step) then data
    else
      match step
      case Set(_, change) => Changed(data, change)
      case EndMark(i) => Marked(data, st.marking[i].flag, st.marking[i].v)
      case _ => data
  }

  /** A run in which setters find the photo up to date, and no other update names it. */
  ghost predicate CarefulRun(st: State, photo: int, steps: seq<Step>, last: State)
    decreases |steps|
  {
    if steps == [] then st == last
    else
      && Enabled(st, steps[0]) && !Foreign(st, photo, steps[0])
      && (Writes(st, photo, steps[0]) ==> UpToDate(st, photo))
      && CarefulRun(Take(st, steps[0]), photo, steps[1..], last)
  }

  /** All changes of the run, one after the other. */
  ghost function Meant(st: State, photo: int, steps: seq<Step>, data: Data): Data
    decreases |steps|
  {
    if steps == [] || !Enabled(st, steps[0]) then data
    else Meant(Take(st, steps[0]), photo, steps[1..], Effect(st, photo, steps[0], data))
  }

  predicate SameFlag(a: Flags, b: Flags, f: Flag) {
    FlagAt(a, f) == FlagAt(b, f)
  }

  /** A flag of the photo between the two halves of marking it. */
  ghost predicate Open(st: State, photo: int, f: Flag) {
    exists i :: 0 <= i < |st.marking| && IsOpen(st, st.marking[i], photo, f)
  }

  predicate IsOpen(st: State, mark: Mark, photo: int, f: Flag) {
    mark.flag == f && mark.owner in st.objects && st.objects[mark.owner].id == photo
  }

  /** Equal but for flags that are being marked. */
  ghost predicate SameBut(st: State, photo: int, a: Data, b: Data) {
    a == b.(flags := a.flags) && forall f: Flag :: Open(st, photo, f) || SameFlag(a.flags, b.flags, f)
  }

  ghost predicate LocalFits(st: State, photo: int)
    requires photo in st.backend.photos
  {
    forall o :: o in st.objects && st.objects[o].id == photo ==> SameBut(st, photo, st.objects[o].data, st.backend.photos[photo])
  }

  ghost predicate Kept(st: State, photo: int, meant: Data) {
    && photo in st.backend.photos
    && SameBut(st, photo, Eventual(st, photo), meant)
    && (UpToDate(st, photo) ==> LocalFits(st, photo))
  }

  lemma SameButStill(st: State, next: State, photo: int, a: Data, b: Data)
    requires SameBut(st, photo, a, b) && forall f: Flag :: Open(st, photo, f) ==> Open(next, photo, f)
    ensures SameBut(next, photo, a, b)
  {
  }

  lemma StillOpen(st: State, next: State, photo: int, f: Flag)
    requires Open(st, photo, f) && st.marking <= next.marking
    requires forall i :: 0 <= i < |st.marking| ==>
      st.marking[i].owner in st.objects && st.marking[i].owner in next.objects
      && next.objects[st.marking[i].owner].id == st.objects[st.marking[i].owner].id
    ensures Open(next, photo, f)
  {
    var i :| 0 <= i < |st.marking| && IsOpen(st, st.marking[i], photo, f);
    assert next.marking[i] == st.marking[i];
  }

  ghost predicate SameMarks(st: State, next: State) {
    && st.marking <= next.marking
    && forall i :: 0 <= i < |st.marking| ==>
         && st.marking[i].owner in st.objects && st.marking[i].owner in next.objects
         && next.objects[st.marking[i].owner].id == st.objects[st.marking[i].owner].id
  }

  lemma AllStillOpen(st: State, next: State, photo: int)
    requires SameMarks(st, next)
    ensures forall f: Flag :: Open(st, photo, f) ==> Open(next, photo, f)
  {
    forall f: Flag | Open(st, photo, f)
      ensures Open(next, photo, f)
    {
      StillOpen(st, next, photo, f);
    }
  }

  /** Steps that neither queue nor store a change of the photo. */
  lemma IdleKeeps(st: State, next: State, photo: int, meant: Data)
    requires Kept(st, photo, meant) && photo in next.backend.photos && SameMarks(st, next)
    requires Eventual(next, photo) == Eventual(st, photo)
    requires UpToDate(next, photo) ==> LocalFits(next, photo)
    ensures Kept(next, photo, meant)
  {
    AllStillOpen(st, next, photo);
    SameButStill(st, next, photo, Eventual(st, photo), meant);
  }

  lemma GetKept(st: State, id: int, photo: int, meant: Data)
    requires Inv(st) && Enabled(st, Get(id)) && Kept(st, photo, meant)
    ensures Kept(Take(st, Get(id)), photo, meant)
  {
    var next := Take(st, Get(id));
    AllStillOpen(st, next, photo);
    IdleKeeps(st, next, photo, meant);
  }

  lemma ForgetKept(st: State, o: nat, photo: int, meant: Data)
    requires Inv(st) && Enabled(st, Forget(o)) && Kept(st, photo, meant)
    ensures Kept(Take(st, Forget(o)), photo, meant)
  {
    var next := Take(st, Forget(o));
    AllStillOpen(st, next, photo);
    IdleKeeps(st, next, photo, meant);
  }

  lemma BeginMarkKept(st: State, mark: Mark, photo: int, meant: Data)
    requires Inv(st) && Enabled(st, BeginMark(mark)) && Kept(st, photo, meant)
    ensures Kept(Take(st, BeginMark(mark)), photo, meant)
  {
    var next := Take(st, BeginMark(mark));
    AllStillOpen(st, next, photo);
    assert next.marking[|st.marking|] == mark;
    if UpToDate(next, photo) {
      assert UpToDate(st, photo);
      forall o | o in next.objects && next.objects[o].id == photo
        ensures SameBut(next, photo, next.objects[o].data, next.backend.photos[photo])
      {
        SameButStill(st, next, photo, st.objects[o].data, st.backend.photos[photo]);
        assert o == mark.owner ==> IsOpen(next, mark, photo, mark.flag);
      }
    }
    IdleKeeps(st, next, photo, meant);
  }

  lemma OtherSetKept(st: State, o: nat, change: Change, photo: int, meant: Data)
    requires Inv(st) && Enabled(st, Set(o, change)) && Kept(st, photo, meant) && st.objects[o].id != photo
    ensures Kept(Take(st, Set(o, change)), photo, meant)
  {
    var next := Take(st, Set(o, change));
    var delta := next.queue[|st.queue|];
    ApplyMineSnoc(photo, st.backend.photos[photo], st.queue, delta);
    LongerQueue(st, next, photo, meant);
  }

  /** A delta of another photo was queued. */
  lemma LongerQueue(st: State, next: State, photo: int, meant: Data)
    requires Inv(st) && Kept(st, photo, meant) && photo in next.backend.photos && SameMarks(st, next)
    requires next.backend == st.backend && next.refreshing == st.refreshing && st.queue <= next.queue
    requires Eventual(next, photo) == Eventual(st, photo) && next.objects.Keys == st.objects.Keys
    requires forall o :: o in st.objects && st.objects[o].id == photo ==> next.objects[o] == st.objects[o]
    requires forall o :: o in st.objects ==> next.objects[o].id == st.objects[o].id
    ensures Kept(next, photo, meant)
  {
    AllStillOpen(st, next, photo);
    if UpToDate(next, photo) {
      assert UpToDate(st, photo) by {
        forall i | 0 <= i < |st.queue|
          ensures st.queue[i].id != Some(photo)
        {
          assert next.queue[i] == st.queue[i];
        }
      }
    }
    IdleKeeps(st, next, photo, meant);
  }

  /** Storing what the setter made of the object is making the change in what is meant. */
  lemma ChangeFits(st: State, photo: int, local: Data, stored: Data, meant: Data, change: Change)
    requires SameBut(st, photo, local, stored) && SameBut(st, photo, stored, meant)
    ensures SameBut(st, photo, Apply(stored, DeltaOf(Changed(local, change), change)), Changed(meant, change))
  {
  }

  lemma SetKept(st: State, o: nat, change: Change, photo: int, meant: Data)
    requires Inv(st) && Enabled(st, Set(o, change)) && Kept(st, photo, meant)
    requires st.objects[o].id == photo && UpToDate(st, photo)
    ensures Kept(Take(st, Set(o, change)), photo, Changed(meant, change))
  {
    var next := Take(st, Set(o, change));
    var local, stored := st.objects[o].data, st.backend.photos[photo];
    var delta := DeltaOf(Changed(local, change), change);
    NothingMine(photo, stored, st.queue);
    ApplyMineSnoc(photo, stored, st.queue, delta);
    assert next.queue[|st.queue|] == delta;
    ChangeFits(st, photo, local, stored, meant, change);
    AllStillOpen(st, next, photo);
    SameButStill(st, next, photo, Apply(stored, delta), Changed(meant, change));
  }

  lemma EndMarkKept(st: State, i: nat, photo: int, meant: Data)
    requires Inv(st) && Enabled(st, EndMark(i)) && Kept(st, photo, meant)
    requires st.objects[st.marking[i].owner].id == photo && UpToDate(st, photo)
    ensures Kept(Take(st, EndMark(i)), photo, Marked(meant, st.marking[i].flag, st.marking[i].v))
  {
    var next, mark := Take(st, EndMark(i)), st.marking[i];
    var local, stored := st.objects[mark.owner].data, st.backend.photos[photo];
    var delta := MarkDelta(Marked(local, mark.flag, mark.v));
    NothingMine(photo, stored, st.queue);
    ApplyMineSnoc(photo, stored, st.queue, delta);
    assert next.queue[|st.queue|] == delta;
    assert SameBut(st, photo, local, stored) && SameBut(st, photo, stored, meant);
    forall f: Flag
      ensures Open(next, photo, f) || SameFlag(Apply(stored, delta).flags, Marked(meant, mark.flag, mark.v).flags, f)
    {
      if f != mark.flag && Open(st, photo, f) {
        OpenBesides(st, i, photo, f);
      }
    }
  }

  /** Ending one mark leaves the other flags open. */
  lemma OpenBesides(st: State, i: nat, photo: int, f: Flag)
    requires Inv(st) && Enabled(st, EndMark(i)) && Open(st, photo, f)
    requires f != st.marking[i].flag || st.objects[st.marking[i].owner].id != photo
    ensures Open(Take(st, EndMark(i)), photo, f)
  {
    var next := Take(st, EndMark(i));
    var k :| 0 <= k < |st.marking| && IsOpen(st, st.marking[k], photo, f);
    OthersStay(st.marking, i, k);
    var j :| 0 <= j < |next.marking| && next.marking[j] == st.marking[k];
    assert IsOpen(next, next.marking[j], photo, f);
  }

  lemma OtherEndMarkKept(st: State, i: nat, photo: int, meant: Data)
    requires Inv(st) && Enabled(st, EndMark(i)) && Kept(st, photo, meant)
    requires st.objects[st.marking[i].owner].id != photo
    ensures Kept(Take(st, EndMark(i)), photo, meant)
  {
    var next, mark := Take(st, EndMark(i)), st.marking[i];
    ApplyMineSnoc(photo, st.backend.photos[photo], st.queue, next.queue[|st.queue|]);
    forall f: Flag | Open(st, photo, f)
      ensures Open(next, photo, f)
    {
      OpenBesides(st, i, photo, f);
    }
    SameButStill(st, next, photo, Eventual(st, photo), meant);
    if UpToDate(next, photo) {
      assert UpToDate(st, photo) by {
        forall k | 0 <= k < |st.queue|
          ensures st.queue[k].id != Some(photo)
        {
          assert next.queue[k] == st.queue[k];
        }
      }
      forall o | o in next.objects && next.objects[o].id == photo
        ensures SameBut(next, photo, next.objects[o].data, next.backend.photos[photo])
      {
        SameButStill(st, next, photo, st.objects[o].data, st.backend.photos[photo]);
      }
    }
  }

  lemma RunQueuedKept(st: State, photo: int, meant: Data)
    requires Inv(st) && Enabled(st, RunQueued) && Kept(st, photo, meant)
    ensures Kept(Take(st, RunQueued), photo, meant)
  {
    var next := Take(st, RunQueued);
    RunQueuedEventual(st, photo);
    if UpToDate(next, photo) {
      assert UpToDate(st, photo) by {
        forall i | 0 <= i < |st.queue|
          ensures st.queue[i].id != Some(photo)
        {
          assert i > 0 ==> next.queue[i - 1] == st.queue[i];
        }
      }
      SameLocals(st, next, photo);
    }
    IdleKeeps(st, next, photo, meant);
  }

  lemma SameLocals(st: State, next: State, photo: int)
    requires Inv(st) && photo in st.backend.photos && photo in next.backend.photos && LocalFits(st, photo)
    requires next.objects == st.objects && next.marking == st.marking
    requires next.backend.photos[photo] == st.backend.photos[photo]
    ensures LocalFits(next, photo)
  {
    AllStillOpen(st, next, photo);
  }

  lemma RefreshKept(st: State, refreshed: int, photo: int, meant: Data)
    requires Inv(st) && Enabled(st, Refresh(refreshed)) && Kept(st, photo, meant)
    ensures Kept(Take(st, Refresh(refreshed)), photo, meant)
  {
    var next := Take(st, Refresh(refreshed));
    AllStillOpen(st, next, photo);
    if UpToDate(next, photo) && refreshed != photo {
      assert UpToDate(st, photo);
    }
    IdleKeeps(st, next, photo, meant);
  }

  lemma OthersKept(st: State, step: Step, photo: int, meant: Data)
    requires Inv(st) && Enabled(st, step) && Kept(st, photo, meant) && !Foreign(st, photo, step)
    requires step.RunUpdate? || step.RunAddGroup? || step.RunRemoveGroup?
    ensures Kept(Take(st, step), photo, meant)
  {
    var next := Take(st, step);
    OthersLeaveAlone(st, photo, step);
    if UpToDate(next, photo) {
      assert st.refreshing == {} && UpToDate(st, photo);
      SameLocals(st, next, photo);
    }
    IdleKeeps(st, next, photo, meant);
  }

  lemma StepKept(st: State, step: Step, photo: int, meant: Data)
    requires Inv(st) && Enabled(st, step) && Kept(st, photo, meant) && !Foreign(st, photo, step)
    requires Writes(st, photo, step) ==> UpToDate(st, photo)
    ensures Kept(Take(st, step), photo, Effect(st, photo, step, meant))
  {
    match step
    case Get(id) => GetKept(st, id, photo, meant);
    case Forget(o) => ForgetKept(st, o, photo, meant);
    case Set(o, change) =>
      if st.objects[o].id == photo { SetKept(st, o, change, photo, meant); } else { OtherSetKept(st, o, change, photo, meant); }
    case BeginMark(mark) => BeginMarkKept(st, mark, photo, meant);
    case EndMark(i) =>
      if st.objects[st.marking[i].owner].id == photo { EndMarkKept(st, i, photo, meant); } else { OtherEndMarkKept(st, i, photo, meant); }
    case RunQueued => RunQueuedKept(st, photo, meant);
    case Refresh(x) => RefreshKept(st, x, photo, meant);
    case _ => OthersKept(st, step, photo, meant);
  }

  lemma {:induction false} CarefulRunKeeps(st: State, photo: int, steps: seq<Step>, last: State, meant: Data)
    requires Inv(st) && CarefulRun(st, photo, steps, last) && Kept(st, photo, meant)
    ensures Inv(last) && Kept(last, photo, Meant(st, photo, steps, meant))
    decreases |steps|
  {
    if steps != [] {
      StepKept(st, steps[0], photo, meant);
      StepKeeps(st, steps[0]);
      CarefulRunKeeps(Take(st, steps[0]), photo, steps[1..], last, Effect(st, photo, steps[0], meant));
    }
  }

  ghost predicate NothingPending(st: State, photo: int) {
    UpToDate(st, photo) && forall f: Flag :: !Open(st, photo, f)
  }

  lemma SameFlagsEqual(a: Flags, b: Flags)
    requires forall f: Flag :: SameFlag(a, b, f)
    ensures a == b
  {
    forall f | f in a || f in b
      ensures f in a && f in b && a[f] == b[f]
    {
      assert SameFlag(a, b, f);
    }
  }

  lemma NothingPendingFits(st: State, photo: int)
    requires Inv(st) && NothingPending(st, photo)
    requires photo in st.backend.photos
    ensures LocalFits(st, photo)
  {
    forall o | o in st.objects && st.objects[o].id == photo
      ensures st.objects[o].data == st.backend.photos[photo]
    {
      if i :| 0 <= i < |st.marking| && st.marking[i].owner == o {
        assert IsOpen(st, st.marking[i], photo, st.marking[i].flag);
        assert Open(st, photo, st.marking[i].flag);
      }
      assert !Pending(st, o);
    }
  }

  /** Main result: when setters are called, and flags stored, only on an up-to-date photo, all of them are kept. */
  lemma SettersAreKept(st: State, photo: int, steps: seq<Step>, last: State)
    requires Inv(st) && photo in st.backend.photos && NothingPending(st, photo)
    requires CarefulRun(st, photo, steps, last) && NothingPending(last, photo)
    ensures photo in last.backend.photos
    ensures last.backend.photos[photo] == Meant(st, photo, steps, st.backend.photos[photo])
  {
    var stored := st.backend.photos[photo];
    NothingMine(photo, stored, st.queue);
    NothingPendingFits(st, photo);
    CarefulRunKeeps(st, photo, steps, last, stored);
    NothingMine(photo, last.backend.photos[photo], last.queue);
    SameFlagsEqual(last.backend.photos[photo].flags, Meant(st, photo, steps, stored).flags);
  }
}
