/** What becomes of one change made through a photo object: when it survives, and when a refresh can take it back. */
module SetterSurvival {
  import opened Common
  import opened Photos
  import MemoryBackend
  import opened PhotoCache
  import opened PhotoSetters

  // ---------------------------------------------------------------------------
  // One slot of a record
  // ---------------------------------------------------------------------------

  datatype Slot = TagSlot(tag: TagType) | FlagSlot(flag: Flag) | ChecksumSlot | GeometrySlot | GroupSlot

  datatype Held = Word(text: Option<string>) | Number(number: Option<int>) | Area(size: Size) | Grouped(group: GroupInfo)

  function ValueAt(data: Data, slot: Slot): Held {
    match slot
    case TagSlot(t) => Word(TagIn(data.tags, t))
    case FlagSlot(f) => Number(FlagAt(data.flags, f))
    case ChecksumSlot => Word(Some(data.sha256))
    case GeometrySlot => Area(data.geometry)
    case GroupSlot => Grouped(data.group)
  }

  /** A delta carries all tags or none, and all flags or none. */
  predicate Shared(slot: Slot) {
    slot.TagSlot? || slot.FlagSlot?
  }

  predicate Mentions(delta: Delta, slot: Slot) {
    match slot
    case TagSlot(_) => delta.tags.Some?
    case FlagSlot(_) => delta.flags.Some?
    case ChecksumSlot => delta.checksum.Some?
    case GeometrySlot => delta.geometry.Some?
    case GroupSlot => delta.group.Some?
  }

  /** What a delta says of a slot that it mentions. */
  function Brought(delta: Delta, slot: Slot): Held {
    ValueAt(Apply(NO_DATA, delta), slot)
  }

  lemma AppliedAt(data: Data, delta: Delta, slot: Slot)
    ensures ValueAt(Apply(data, delta), slot) == if Mentions(delta, slot) then Brought(delta, slot) else ValueAt(data, slot)
  {
  }

  /** Is the change about the slot itself? */
  predicate Touches(change: Change, slot: Slot) {
    match change
    case SetSha256(_) => slot == ChecksumSlot || slot == FlagSlot(Sha256Loaded)
    case SetGeometry(_) => slot == GeometrySlot || slot == FlagSlot(GeometryLoaded)
    case SetTags(tags) => slot.TagSlot? && slot.tag in tags
    case SetTag(name, _) => slot == TagSlot(name)
    case SetGroup(_) => slot == GroupSlot
  }

  /** A change that is not about the slot leaves it as it is in the object, and its delta says so, or nothing, of it. */
  lemma OtherChange(data: Data, change: Change, slot: Slot)
    requires !Touches(change, slot)
    ensures ValueAt(Changed(data, change), slot) == ValueAt(data, slot)
    ensures var delta := DeltaOf(Changed(data, change), change);
            Mentions(delta, slot) ==> Shared(slot) && Brought(delta, slot) == ValueAt(data, slot)
  {
  }

  lemma DeltaBrings(data: Data, change: Change, slot: Slot)
    ensures var changed := Changed(data, change); var delta := DeltaOf(changed, change);
            Mentions(delta, slot) ==> Brought(delta, slot) == ValueAt(changed, slot)
  {
  }

  // ---------------------------------------------------------------------------
  // Steps that write a slot, and steps that spare it
  // ---------------------------------------------------------------------------

  predicate MarkOf(st: State, mark: Mark, photo: int, slot: Slot) {
    mark.owner in st.objects && st.objects[mark.owner].id == photo && slot == FlagSlot(mark.flag)
  }

  /** The step queues a delta of this object that mentions the slot. */
  predicate WritesSlot(st: State, o: nat, slot: Slot, step: Step)
    requires Enabled(st, step)
  {
    match step
    case Set(x, change) => x == o && Mentions(DeltaOf(Changed(st.objects[o].data, change), change), slot)
    case EndMark(i) => st.marking[i].owner == o && slot.FlagSlot?
    case _ => false
  }

  /** A later change of the slot: through any object of the photo, or by an update of the database that mentions it. */
  ghost predicate Rewrites(st: State, photo: int, slot: Slot, step: Step) {
    match step
    case Set(x, change) => x in st.objects && st.objects[x].id == photo && Touches(change, slot)
    case BeginMark(mark) => MarkOf(st, mark, photo, slot)
    case EndMark(i) => i < |st.marking| && MarkOf(st, st.marking[i], photo, slot)
    case RunUpdate(deltas) => MentionedFor(deltas, photo, slot)
    case RunAddGroup(representative, _) => slot == GroupSlot && representative == photo
    case RunRemoveGroup(gid) => slot == GroupSlot && photo in GroupCleared(st.backend, gid)
    case _ => false
  }

  ghost predicate MentionedFor(deltas: seq<Delta>, photo: int, slot: Slot) {
    exists i :: 0 <= i < |deltas| && deltas[i].id == Some(photo) && Mentions(deltas[i], slot)
  }

  /** Has the value reached the backend? */
  predicate Reached(st: State, photo: int, slot: Slot, value: Held) {
    photo in st.backend.photos && ValueAt(st.backend.photos[photo], slot) == value
  }

  /** No later change of the slot. Only until a value of a shared slot has reached the backend, the object also stays
      alive and no update of the database other than queued ones names the photo. */
  ghost predicate Spares(st: State, o: nat, photo: int, slot: Slot, value: Held, step: Step) {
    && !Rewrites(st, photo, slot, step)
    && (Shared(slot) && !Reached(st, photo, slot, value) ==> step != Forget(o) && !Foreign(st, photo, step))
  }

  ghost predicate SparingRun(st: State, o: nat, photo: int, slot: Slot, value: Held, steps: seq<Step>, last: State)
    decreases |steps|
  {
    if steps == [] then st == last
    else
      && Enabled(st, steps[0]) && Spares(st, o, photo, slot, value, steps[0])
      && SparingRun(Take(st, steps[0]), o, photo, slot, value, steps[1..], last)
  }

  lemma {:induction false} SparingRunConcat(st: State, o: nat, photo: int, slot: Slot, value: Held, a: seq<Step>, middle: State, b: seq<Step>, last: State)
    requires SparingRun(st, o, photo, slot, value, a, middle) && SparingRun(middle, o, photo, slot, value, b, last)
    ensures SparingRun(st, o, photo, slot, value, a + b, last)
    decreases |a|
  {
    if a == [] {
      assert a + b == b;
    } else {
      var all, rest := a + b, a[1..] + b;
      assert all[0] == a[0] && all[1..] == rest;
      SparingRunConcat(Take(st, a[0]), o, photo, slot, value, a[1..], middle, b, last);
      assert SparingRun(Take(st, a[0]), o, photo, slot, value, rest, last);
    }
  }

  lemma {:induction false} SparingRunKeeps(st: State, o: nat, photo: int, slot: Slot, value: Held, steps: seq<Step>, last: State)
    requires Inv(st) && SparingRun(st, o, photo, slot, value, steps, last)
    ensures Inv(last)
    decreases |steps|
  {
    if steps != [] {
      StepKeeps(st, steps[0]);
      SparingRunKeeps(Take(st, steps[0]), o, photo, slot, value, steps[1..], last);
    }
  }

  /** A step that writes a slot queues the value the object then has. */
  lemma QueuesValue(st: State, step: Step, o: nat, slot: Slot) returns (delta: Delta)
    requires Inv(st) && Enabled(st, step) && WritesSlot(st, o, slot, step)
    ensures var next := Take(st, step);
            && o in st.objects && o in next.objects && next.objects.Keys == st.objects.Keys && next.cache == st.cache
            && next.objects[o].id == st.objects[o].id && next.backend == st.backend && next.refreshing == st.refreshing
            && next.queue == st.queue + [delta] && delta.id == Some(st.objects[o].id)
            && Mentions(delta, slot) && Brought(delta, slot) == ValueAt(next.objects[o].data, slot)
  {
    match step
    case Set(_, change) =>
      delta := DeltaOf(Changed(st.objects[o].data, change), change);
      DeltaBrings(st.objects[o].data, change, slot);
    case EndMark(i) =>
      delta := MarkDelta(Take(st, step).objects[o].data);
  }

  // ---------------------------------------------------------------------------
  // Updates of the database that do not mention the slot
  // ---------------------------------------------------------------------------

  lemma {:induction false} UnmentionedStays(photo: int, data: Data, deltas: seq<Delta>, slot: Slot)
    requires !MentionedFor(deltas, photo, slot)
    ensures ValueAt(ApplyMine(photo, data, deltas), slot) == ValueAt(data, slot)
    decreases |deltas|
  {
    if deltas != [] {
      var next := if deltas[0].id == Some(photo) then Apply(data, deltas[0]) else data;
      AppliedAt(data, deltas[0], slot);
      forall i | 0 <= i < |deltas[1..]|
        ensures !(deltas[1..][i].id == Some(photo) && Mentions(deltas[1..][i], slot))
      {
        assert deltas[1..][i] == deltas[i + 1];
      }
      UnmentionedStays(photo, next, deltas[1..], slot);
    }
  }

  lemma BatchKeepsSlot(s: MemoryBackend.Album, deltas: seq<Delta>, photo: int, slot: Slot)
    requires MemoryBackend.AllNamed(s, deltas) && photo in s.photos && !MentionedFor(deltas, photo, slot)
    ensures photo in MemoryBackend.Update(s, deltas).photos
    ensures ValueAt(MemoryBackend.Update(s, deltas).photos[photo], slot) == ValueAt(s.photos[photo], slot)
  {
    MemoryBackend.UpdateRecord(s, deltas, photo);
    UnmentionedStays(photo, s.photos[photo], deltas, slot);
  }

  lemma GroupClearedMentions(s: MemoryBackend.Album, gid: int, photo: int, slot: Slot)
    requires gid in s.groups && (slot == GroupSlot ==> photo !in GroupCleared(s, gid))
    ensures !MentionedFor(MemoryBackend.ClearDeltas(MemoryBackend.PhotosOfGroup(s.photos, gid, s.nextPhoto)), photo, slot)
  {
    var deltas := MemoryBackend.ClearDeltas(MemoryBackend.PhotosOfGroup(s.photos, gid, s.nextPhoto));
    forall i | 0 <= i < |deltas| && Mentions(deltas[i], slot)
      ensures deltas[i].id != Some(photo)
    {
      assert deltas[i].id.value in Touched(deltas);
    }
  }

  /** Such an update leaves the slot of the record alone. */
  lemma OthersKeepSlot(st: State, step: Step, photo: int, slot: Slot)
    requires Inv(st) && Enabled(st, step) && photo in st.backend.photos && !Rewrites(st, photo, slot, step)
    requires step.RunUpdate? || step.RunAddGroup? || step.RunRemoveGroup?
    ensures var next := Take(st, step);
            && photo in next.backend.photos && ValueAt(next.backend.photos[photo], slot) == ValueAt(st.backend.photos[photo], slot)
            && next.queue == st.queue && next.objects == st.objects && next.cache == st.cache && next.marking == st.marking
  {
    var s := st.backend;
    match step
    case RunUpdate(deltas) => BatchKeepsSlot(s, deltas, photo, slot);
    case RunAddGroup(r, kind) =>
      BatchKeepsSlot(MemoryBackend.WithGroup(s, r, kind),
                     [GroupDelta(r, GroupInfo(Some(s.nextGroup), Representative))], photo, slot);
    case RunRemoveGroup(gid) =>
      if gid in s.groups {
        GroupClearedMentions(s, gid, photo, slot);
        BatchKeepsSlot(s.(groups := s.groups - {gid}),
                       MemoryBackend.ClearDeltas(MemoryBackend.PhotosOfGroup(s.photos, gid, s.nextPhoto)), photo, slot);
      }
    case _ =>
  }

  // ---------------------------------------------------------------------------
  // Kept: a field of its own
  // ---------------------------------------------------------------------------

  ghost predicate Coming(st: State, photo: int, slot: Slot, value: Held) {
    photo in st.backend.photos && ValueAt(Eventual(st, photo), slot) == value
  }

  lemma LongerComing(st: State, next: State, delta: Delta, photo: int, slot: Slot, value: Held)
    requires Coming(st, photo, slot, value) && next.backend == st.backend && next.queue == st.queue + [delta]
    requires delta.id != Some(photo) || !Mentions(delta, slot)
    ensures Coming(next, photo, slot, value)
  {
    ApplyMineSnoc(photo, st.backend.photos[photo], st.queue, delta);
    AppliedAt(Eventual(st, photo), delta, slot);
  }

  lemma {:induction false} QueueOverSlot(photo: int, a: Data, b: Data, deltas: seq<Delta>, slot: Slot)
    requires ValueAt(a, slot) == ValueAt(b, slot)
    ensures ValueAt(ApplyMine(photo, a, deltas), slot) == ValueAt(ApplyMine(photo, b, deltas), slot)
    decreases |deltas|
  {
    if deltas != [] {
      AppliedAt(a, deltas[0], slot);
      AppliedAt(b, deltas[0], slot);
      if deltas[0].id == Some(photo) {
        QueueOverSlot(photo, Apply(a, deltas[0]), Apply(b, deltas[0]), deltas[1..], slot);
      } else {
        QueueOverSlot(photo, a, b, deltas[1..], slot);
      }
    }
  }

  lemma SetStillComing(st: State, x: nat, change: Change, photo: int, slot: Slot, value: Held)
    requires Inv(st) && Enabled(st, Set(x, change)) && !Shared(slot) && Coming(st, photo, slot, value)
    requires !Rewrites(st, photo, slot, Set(x, change))
    ensures Coming(Take(st, Set(x, change)), photo, slot, value)
  {
    var data := st.objects[x].data;
    if st.objects[x].id == photo {
      OtherChange(data, change, slot);
    }
    LongerComing(st, Take(st, Set(x, change)), DeltaOf(Changed(data, change), change), photo, slot, value);
  }

  lemma StepStillComing(st: State, step: Step, photo: int, slot: Slot, value: Held)
    requires Inv(st) && Enabled(st, step) && !Shared(slot) && Coming(st, photo, slot, value) && !Rewrites(st, photo, slot, step)
    ensures Coming(Take(st, step), photo, slot, value)
  {
    var next := Take(st, step);
    match step
    case Set(x, change) => SetStillComing(st, x, change, photo, slot, value);
    case EndMark(_) => LongerComing(st, next, next.queue[|st.queue|], photo, slot, value);
    case RunQueued => RunQueuedEventual(st, photo);
    case Get(_) =>
    case Forget(_) =>
    case BeginMark(_) =>
    case Refresh(_) =>
    case _ =>
      OthersKeepSlot(st, step, photo, slot);
      QueueOverSlot(photo, next.backend.photos[photo], st.backend.photos[photo], st.queue, slot);
  }

  lemma {:induction false} RunStillComing(st: State, o: nat, photo: int, slot: Slot, value: Held, steps: seq<Step>, last: State)
    requires Inv(st) && SparingRun(st, o, photo, slot, value, steps, last) && !Shared(slot) && Coming(st, photo, slot, value)
    ensures Coming(last, photo, slot, value)
    decreases |steps|
  {
    if steps != [] {
      StepStillComing(st, steps[0], photo, slot, value);
      StepKeeps(st, steps[0]);
      RunStillComing(Take(st, steps[0]), o, photo, slot, value, steps[1..], last);
    }
  }

  // ---------------------------------------------------------------------------
  // Kept: a shared field, written on a photo that was up to date
  // ---------------------------------------------------------------------------

  predicate Says(delta: Delta, slot: Slot, value: Held) {
    Mentions(delta, slot) && Brought(delta, slot) == value
  }

  /** Every queued delta of the photo that mentions the slot says the value. */
  ghost predicate QueueSays(queue: seq<Delta>, photo: int, slot: Slot, value: Held) {
    forall i :: 0 <= i < |queue| && queue[i].id == Some(photo) && Mentions(queue[i], slot) ==> Says(queue[i], slot, value)
  }

  ghost predicate FirstFor(queue: seq<Delta>, photo: int, i: nat) {
    i < |queue| && queue[i].id == Some(photo) && forall j :: 0 <= j < i ==> queue[j].id != Some(photo)
  }

  /** The first delta queued for the photo brings the value. */
  ghost predicate Brings(queue: seq<Delta>, photo: int, slot: Slot, value: Held) {
    exists i :: 0 <= i < |queue| && FirstFor(queue, photo, i) && Says(queue[i], slot, value)
  }

  /** Not stored yet: the object is alive, and no refresh of it will come before its delta is stored. */
  ghost predicate OnItsWay(st: State, o: nat, photo: int, slot: Slot, value: Held) {
    o in st.objects && st.objects[o].id == photo && photo !in st.refreshing && Brings(st.queue, photo, slot, value)
  }

  ghost predicate LiveHold(st: State, photo: int, slot: Slot, value: Held) {
    forall x :: x in st.objects && st.objects[x].id == photo ==> ValueAt(st.objects[x].data, slot) == value
  }

  ghost predicate Holding(st: State, o: nat, photo: int, slot: Slot, value: Held) {
    && photo in st.backend.photos && LiveHold(st, photo, slot, value) && QueueSays(st.queue, photo, slot, value)
    && (Reached(st, photo, slot, value) || OnItsWay(st, o, photo, slot, value))
  }

  lemma BringsMore(queue: seq<Delta>, more: seq<Delta>, photo: int, slot: Slot, value: Held)
    requires Brings(queue, photo, slot, value) && queue <= more
    ensures Brings(more, photo, slot, value)
  {
    var i :| 0 <= i < |queue| && FirstFor(queue, photo, i) && Says(queue[i], slot, value);
    assert more[i] == queue[i] && FirstFor(more, photo, i);
  }

  lemma BringsLater(queue: seq<Delta>, photo: int, slot: Slot, value: Held)
    requires Brings(queue, photo, slot, value) && !(queue[0].id == Some(photo) && Says(queue[0], slot, value))
    ensures queue[0].id != Some(photo) && Brings(queue[1..], photo, slot, value)
  {
    var i :| 0 <= i < |queue| && FirstFor(queue, photo, i) && Says(queue[i], slot, value);
    assert FirstFor(queue[1..], photo, i - 1);
  }

  lemma OnlyOneHolds(st: State, o: nat, slot: Slot)
    requires Inv(st) && o in st.objects
    ensures LiveHold(st, st.objects[o].id, slot, ValueAt(st.objects[o].data, slot))
  {
  }

  lemma WriteHolds(st: State, step: Step, o: nat, slot: Slot)
    requires Inv(st) && Enabled(st, step) && WritesSlot(st, o, slot, step) && o in st.objects && UpToDate(st, st.objects[o].id)
    ensures o in Take(st, step).objects
    ensures Holding(Take(st, step), o, st.objects[o].id, slot, ValueAt(Take(st, step).objects[o].data, slot))
  {
    var next, n := Take(st, step), |st.queue|;
    var delta := QueuesValue(st, step, o, slot);
    assert next.queue[n] == delta;
    assert FirstFor(next.queue, st.objects[o].id, n);
    StepKeeps(st, step);
    OnlyOneHolds(next, o, slot);
  }

  /** A step that only makes the queue longer. */
  lemma LongerHolds(st: State, next: State, delta: Delta, o: nat, photo: int, slot: Slot, value: Held)
    requires Holding(st, o, photo, slot, value) && next.queue == st.queue + [delta]
    requires next.backend == st.backend && next.refreshing == st.refreshing && LiveHold(next, photo, slot, value)
    requires o in st.objects ==> o in next.objects && next.objects[o].id == st.objects[o].id
    requires delta.id == Some(photo) && Mentions(delta, slot) ==> Says(delta, slot, value)
    ensures Holding(next, o, photo, slot, value)
  {
    if !Reached(st, photo, slot, value) {
      BringsMore(st.queue, next.queue, photo, slot, value);
    }
  }

  lemma SetStepHolds(st: State, x: nat, change: Change, o: nat, photo: int, slot: Slot, value: Held)
    requires Inv(st) && Enabled(st, Set(x, change)) && Holding(st, o, photo, slot, value) && !Rewrites(st, photo, slot, Set(x, change))
    ensures Holding(Take(st, Set(x, change)), o, photo, slot, value)
  {
    var next := Take(st, Set(x, change));
    var changed := Changed(st.objects[x].data, change);
    if st.objects[x].id == photo {
      OtherChange(st.objects[x].data, change, slot);
    }
    assert changed.id == Some(st.objects[x].id);
    LongerHolds(st, next, DeltaOf(changed, change), o, photo, slot, value);
  }

  lemma EndMarkHolds(st: State, i: nat, o: nat, photo: int, slot: Slot, value: Held)
    requires Inv(st) && Enabled(st, EndMark(i)) && Holding(st, o, photo, slot, value) && !Rewrites(st, photo, slot, EndMark(i))
    ensures Holding(Take(st, EndMark(i)), o, photo, slot, value)
  {
    var next := Take(st, EndMark(i));
    LongerHolds(st, next, MarkDelta(next.objects[st.marking[i].owner].data), o, photo, slot, value);
  }

  lemma ShorterSays(queue: seq<Delta>, photo: int, slot: Slot, value: Held)
    requires queue != [] && QueueSays(queue, photo, slot, value)
    ensures QueueSays(queue[1..], photo, slot, value)
    ensures queue[0].id == Some(photo) && Mentions(queue[0], slot) ==> Brought(queue[0], slot) == value
  {
  }

  lemma RunQueuedHolds(st: State, o: nat, photo: int, slot: Slot, value: Held)
    requires Inv(st) && Enabled(st, RunQueued) && Holding(st, o, photo, slot, value)
    ensures Holding(Take(st, RunQueued), o, photo, slot, value)
  {
    var next := Take(st, RunQueued);
    RunQueuedEventual(st, photo);
    AppliedAt(st.backend.photos[photo], st.queue[0], slot);
    ShorterSays(st.queue, photo, slot, value);
    if !Reached(next, photo, slot, value) {
      BringsLater(st.queue, photo, slot, value);
    }
  }

  lemma RefreshLiveHold(st: State, x: int, photo: int, slot: Slot, value: Held)
    requires Inv(st) && Enabled(st, Refresh(x)) && photo in st.backend.photos && LiveHold(st, photo, slot, value)
    requires photo in st.refreshing ==> Reached(st, photo, slot, value)
    ensures LiveHold(Take(st, Refresh(x)), photo, slot, value)
  {
  }

  lemma RefreshHolds(st: State, x: int, o: nat, photo: int, slot: Slot, value: Held)
    requires Inv(st) && Enabled(st, Refresh(x)) && Holding(st, o, photo, slot, value)
    ensures Holding(Take(st, Refresh(x)), o, photo, slot, value)
  {
    RefreshLiveHold(st, x, photo, slot, value);
    RefreshKeepsRest(st, x, o, photo, slot, value);
  }

  lemma RefreshKeepsRest(st: State, x: int, o: nat, photo: int, slot: Slot, value: Held)
    requires Enabled(st, Refresh(x)) && Holding(st, o, photo, slot, value) && LiveHold(Take(st, Refresh(x)), photo, slot, value)
    ensures Holding(Take(st, Refresh(x)), o, photo, slot, value)
  {
    RefreshObjects(st, x);
  }

  lemma GetHolds(st: State, id: int, o: nat, photo: int, slot: Slot, value: Held)
    requires Inv(st) && Enabled(st, Get(id)) && Holding(st, o, photo, slot, value)
    ensures Holding(Take(st, Get(id)), o, photo, slot, value)
  {
  }

  lemma OthersHold(st: State, step: Step, o: nat, photo: int, slot: Slot, value: Held)
    requires Inv(st) && Enabled(st, step) && Shared(slot) && Holding(st, o, photo, slot, value)
    requires Spares(st, o, photo, slot, value, step)
    requires step.RunUpdate? || step.RunAddGroup? || step.RunRemoveGroup?
    ensures Holding(Take(st, step), o, photo, slot, value)
  {
    OthersKeepSlot(st, step, photo, slot);
    if !Reached(st, photo, slot, value) {
      OthersLeaveAlone(st, photo, step);
    }
  }

  lemma StepHolds(st: State, step: Step, o: nat, photo: int, slot: Slot, value: Held)
    requires Inv(st) && Enabled(st, step) && Shared(slot) && Holding(st, o, photo, slot, value)
    requires Spares(st, o, photo, slot, value, step)
    ensures Holding(Take(st, step), o, photo, slot, value)
  {
    match step
    case Get(id) => GetHolds(st, id, o, photo, slot, value);
    case Forget(_) =>
    case BeginMark(_) =>
    case Set(x, change) => SetStepHolds(st, x, change, o, photo, slot, value);
    case EndMark(i) => EndMarkHolds(st, i, o, photo, slot, value);
    case RunQueued => RunQueuedHolds(st, o, photo, slot, value);
    case Refresh(x) => RefreshHolds(st, x, o, photo, slot, value);
    case _ => OthersHold(st, step, o, photo, slot, value);
  }

  lemma {:induction false} SparingRunHolds(st: State, o: nat, photo: int, slot: Slot, value: Held, steps: seq<Step>, last: State)
    requires Inv(st) && SparingRun(st, o, photo, slot, value, steps, last) && Shared(slot) && Holding(st, o, photo, slot, value)
    ensures Holding(last, o, photo, slot, value)
    decreases |steps|
  {
    if steps != [] {
      StepHolds(st, steps[0], o, photo, slot, value);
      StepKeeps(st, steps[0]);
      SparingRunHolds(Take(st, steps[0]), o, photo, slot, value, steps[1..], last);
    }
  }

  /** Main result, kept: what a setter or a completed mark wrote is there at the end of every run that spares it, if the
      field is not shared, or the photo was up to date when it was written. */
  lemma WriteKept(st: State, step: Step, o: nat, slot: Slot, steps: seq<Step>, last: State)
    requires Inv(st) && Enabled(st, step) && WritesSlot(st, o, slot, step) && o in st.objects
    requires Shared(slot) ==> UpToDate(st, st.objects[o].id)
    requires o in Take(st, step).objects
    requires SparingRun(Take(st, step), o, st.objects[o].id, slot, ValueAt(Take(st, step).objects[o].data, slot), steps, last)
    requires Quiet(last)
    ensures Reached(last, st.objects[o].id, slot, ValueAt(Take(st, step).objects[o].data, slot))
  {
    var next, photo := Take(st, step), st.objects[o].id;
    var value := ValueAt(next.objects[o].data, slot);
    StepKeeps(st, step);
    if Shared(slot) {
      WriteHolds(st, step, o, slot);
      SparingRunHolds(next, o, photo, slot, value, steps, last);
    } else {
      var delta := QueuesValue(st, step, o, slot);
      ApplyMineSnoc(photo, st.backend.photos[photo], st.queue, delta);
      AppliedAt(Eventual(st, photo), delta, slot);
      RunStillComing(next, o, photo, slot, value, steps, last);
    }
  }

  // ---------------------------------------------------------------------------
  // Carrying on with what is pending
  // ---------------------------------------------------------------------------

  ghost predicate NoMarksOf(st: State, o: nat) {
    forall i :: 0 <= i < |st.marking| ==> st.marking[i].owner != o
  }

  /** No other marking of this flag is under way. */
  ghost predicate NoneOpen(st: State, photo: int, slot: Slot) {
    forall i :: 0 <= i < |st.marking| ==> !MarkOf(st, st.marking[i], photo, slot)
  }

  ghost predicate SameObjects(st: State, next: State) {
    && next.objects.Keys == st.objects.Keys && next.cache == st.cache && next.nextObject == st.nextObject
    && forall x :: x in st.objects ==> next.objects[x].id == st.objects[x].id
  }

  ghost predicate FewerMarks(st: State, next: State) {
    forall i :: 0 <= i < |next.marking| ==> next.marking[i] in st.marking
  }

  lemma SettlingStep(st: State, step: Step)
    requires Inv(st) && Enabled(st, step) && (step.RunQueued? || step.Refresh? || step.EndMark?)
    ensures SameObjects(st, Take(st, step)) && FewerMarks(st, Take(st, step))
  {
    match step
    case RunQueued =>
    case EndMark(i) => EndMarkObjects(st, i);
    case Refresh(x) => RefreshObjects(st, x);
  }

  lemma EndMarkObjects(st: State, i: nat)
    requires Enabled(st, EndMark(i))
    ensures SameObjects(st, Take(st, EndMark(i))) && FewerMarks(st, Take(st, EndMark(i)))
  {
  }

  lemma RefreshObjects(st: State, x: int)
    requires Enabled(st, Refresh(x))
    ensures SameObjects(st, Take(st, Refresh(x))) && Take(st, Refresh(x)).marking == st.marking
  {
  }

  lemma FewerStillNone(st: State, next: State, photo: int, slot: Slot)
    requires SameObjects(st, next) && FewerMarks(st, next) && NoneOpen(st, photo, slot)
    ensures NoneOpen(next, photo, slot)
  {
  }

  lemma SettlingStepSpares(st: State, o: nat, photo: int, slot: Slot, value: Held, step: Step)
    requires Enabled(st, step) && (step.RunQueued? || step.Refresh? || step.EndMark?) && NoneOpen(st, photo, slot)
    ensures Spares(st, o, photo, slot, value, step)
  {
  }

  lemma {:induction false} SettlingSpares(st: State, o: nat, photo: int, slot: Slot, value: Held, steps: seq<Step>, last: State)
    requires Inv(st) && NoneOpen(st, photo, slot) && Runs(st, steps, last) && OnlySettling(steps)
    ensures SparingRun(st, o, photo, slot, value, steps, last)
    decreases |steps|
  {
    if steps != [] {
      StepKeeps(st, steps[0]);
      SettlingStep(st, steps[0]);
      FewerStillNone(st, Take(st, steps[0]), photo, slot);
      SettlingStepSpares(st, o, photo, slot, value, steps[0]);
      SettlingSpares(Take(st, steps[0]), o, photo, slot, value, steps[1..], last);
    }
  }

  lemma OtherEndMarkEventual(st: State, i: nat, photo: int)
    requires Inv(st) && Enabled(st, EndMark(i)) && photo in st.backend.photos && st.objects[st.marking[i].owner].id != photo
    ensures Eventual(Take(st, EndMark(i)), photo) == Eventual(st, photo)
  {
    var next := Take(st, EndMark(i));
    ApplyMineSnoc(photo, st.backend.photos[photo], st.queue, next.queue[|st.queue|]);
  }

  lemma SettlingStepKeepsRecord(st: State, o: nat, step: Step)
    requires Inv(st) && o in st.objects && NoMarksOf(st, o) && Enabled(st, step) && (step.RunQueued? || step.Refresh? || step.EndMark?)
    ensures var photo, next := st.objects[o].id, Take(st, step);
            && photo in st.backend.photos && photo in next.backend.photos && Eventual(next, photo) == Eventual(st, photo)
            && o in next.objects && next.objects[o].id == photo && NoMarksOf(next, o)
  {
    SettlingStep(st, step);
    match step
    case RunQueued => RunQueuedEventual(st, st.objects[o].id);
    case EndMark(i) => OtherEndMarkEventual(st, i, st.objects[o].id);
    case _ =>
  }

  /** With no mark of the photo's object under way, carrying on does not change what its record will be. */
  lemma {:induction false} SettlingKeepsRecord(st: State, o: nat, steps: seq<Step>, last: State)
    requires Inv(st) && o in st.objects && NoMarksOf(st, o) && Runs(st, steps, last) && OnlySettling(steps)
    ensures var photo := st.objects[o].id;
            && photo in st.backend.photos && photo in last.backend.photos && Eventual(last, photo) == Eventual(st, photo)
            && o in last.objects && last.objects[o].id == photo && NoMarksOf(last, o)
    decreases |steps|
  {
    if steps != [] {
      StepKeeps(st, steps[0]);
      SettlingStepKeepsRecord(st, o, steps[0]);
      SettlingKeepsRecord(Take(st, steps[0]), o, steps[1..], last);
    }
  }

  /** The object is the backend's record, or a refresh is under way or will come. */
  ghost predicate Due(st: State, o: nat)
    requires o in st.objects
  {
    !UpToDate(st, st.objects[o].id) || Agrees(st, o)
  }

  lemma StepDue(st: State, step: Step, o: nat)
    requires Inv(st) && Enabled(st, step) && (step.RunQueued? || step.Refresh?) && o in st.objects && Due(st, o)
    ensures var next := Take(st, step); o in next.objects && next.objects[o].id == st.objects[o].id && Due(next, o)
  {
    var next := Take(st, step);
    var photo := st.objects[o].id;
    if step.RunQueued? {
      RunQueuedEventual(st, photo);
      if UpToDate(next, photo) {
        assert UpToDate(st, photo) by {
          forall i | 0 <= i < |st.queue|
            ensures st.queue[i].id != Some(photo)
          {
            assert i > 0 ==> next.queue[i - 1] == st.queue[i];
          }
        }
      }
    }
  }

  lemma {:induction false} DrainedAgrees(st: State, o: nat, steps: seq<Step>, last: State)
    requires Inv(st) && o in st.objects && Due(st, o) && Runs(st, steps, last) && OnlyDatabase(steps)
    ensures o in last.objects && last.objects[o].id == st.objects[o].id && Due(last, o)
    decreases |steps|
  {
    if steps != [] {
      StepDue(st, steps[0], o);
      StepKeeps(st, steps[0]);
      DrainedAgrees(Take(st, steps[0]), o, steps[1..], last);
    }
  }

  /** Draining the queue brings an object for which something is due to what its record will be. */
  lemma DrainsToEventual(st: State, o: nat) returns (steps: seq<Step>, last: State)
    requires Inv(st) && o in st.objects && Due(st, o) && NoMarksOf(st, o)
    ensures Runs(st, steps, last) && OnlyDatabase(steps)
    ensures var photo := st.objects[o].id;
            && o in last.objects && last.objects[o].id == photo && photo in st.backend.photos && NoMarksOf(last, o)
            && last.queue == [] && last.refreshing == {} && last.objects[o].data == Eventual(st, photo)
  {
    steps, last := Drains(st);
    DrainedAgrees(st, o, steps, last);
    SettlingKeepsRecord(st, o, steps, last);
    assert ApplyMine(st.objects[o].id, last.backend.photos[st.objects[o].id], []) == last.backend.photos[st.objects[o].id];
  }

  /** The database thread does the same with more deltas at the end of the queue. */
  lemma {:induction false} RunsBefore(st: State, tail: seq<Delta>, steps: seq<Step>, last: State)
    requires Runs(st, steps, last) && OnlyDatabase(steps)
    ensures Runs(st.(queue := st.queue + tail), steps, last.(queue := last.queue + tail))
    decreases |steps|
  {
    if steps != [] {
      var longer := st.(queue := st.queue + tail);
      var next := Take(st, steps[0]);
      assert Take(longer, steps[0]) == next.(queue := next.queue + tail) by {
        assert steps[0].RunQueued? ==> (st.queue + tail)[0] == st.queue[0] && (st.queue + tail)[1..] == st.queue[1..] + tail;
      }
      RunsBefore(next, tail, steps[1..], last);
    }
  }

  /** What completing marks of one object leaves alone. */
  ghost predicate MarksEnded(st: State, last: State, o: nat) {
    && SameObjects(st, last) && FewerMarks(st, last)
    && last.backend == st.backend && last.refreshing == st.refreshing && st.queue <= last.queue
    && (forall i :: 0 <= i < |st.marking| && st.marking[i].owner != o ==> st.marking[i] in last.marking)
    && (forall x :: x in st.objects && x != o ==> last.objects[x] == st.objects[x])
  }

  lemma EndsOneMark(st: State, o: nat, i: nat)
    requires Inv(st) && i < |st.marking| && st.marking[i].owner == o
    ensures Enabled(st, EndMark(i)) && MarksEnded(st, Take(st, EndMark(i)), o)
  {
    var next := Take(st, EndMark(i));
    forall k | 0 <= k < |st.marking| && st.marking[k].owner != o
      ensures st.marking[k] in next.marking
    {
      OthersStay(st.marking, i, k);
    }
  }

  lemma MarksEndedTwice(st: State, next: State, last: State, o: nat)
    requires MarksEnded(st, next, o) && MarksEnded(next, last, o)
    ensures MarksEnded(st, last, o)
  {
    forall i | 0 <= i < |st.marking| && st.marking[i].owner != o
      ensures st.marking[i] in last.marking
    {
      var k :| 0 <= k < |next.marking| && next.marking[k] == st.marking[i];
    }
  }

  lemma SomeMarkOf(st: State, o: nat) returns (i: nat)
    requires !NoMarksOf(st, o)
    ensures i < |st.marking| && st.marking[i].owner == o
  {
    i :| 0 <= i < |st.marking| && st.marking[i].owner == o;
  }

  lemma {:induction false} EndsMarksOf(st: State, o: nat) returns (steps: seq<Step>, last: State)
    requires Inv(st) && o in st.objects
    ensures Runs(st, steps, last) && OnlySettling(steps) && Inv(last) && NoMarksOf(last, o) && MarksEnded(st, last, o)
    decreases |st.marking|
  {
    if NoMarksOf(st, o) {
      steps, last := [], st;
    } else {
      var i := SomeMarkOf(st, o);
      EndsOneMark(st, o, i);
      StepKeeps(st, EndMark(i));
      var rest;
      rest, last := EndsMarksOf(Take(st, EndMark(i)), o);
      steps := [EndMark(i)] + rest;
      RunsOneMore(st, EndMark(i), rest, last);
      MarksEndedTwice(st, Take(st, EndMark(i)), last, o);
    }
  }

  lemma RunsOneMore(st: State, step: Step, rest: seq<Step>, last: State)
    requires Enabled(st, step) && Runs(Take(st, step), rest, last) && OnlySettling(rest)
    requires step.RunQueued? || step.Refresh? || step.EndMark?
    ensures Runs(st, [step] + rest, last) && OnlySettling([step] + rest)
  {
    assert ([step] + rest)[1..] == rest;
  }

  // ---------------------------------------------------------------------------
  // Lost: another write takes the whole field from an object without the change
  // ---------------------------------------------------------------------------

  lemma SetEventual(st: State, o: nat, change: Change)
    requires Inv(st) && Enabled(st, Set(o, change))
    ensures var photo, next := st.objects[o].id, Take(st, Set(o, change));
            && photo in st.backend.photos && photo in next.backend.photos
            && Eventual(next, photo) == Apply(Eventual(st, photo), DeltaOf(Changed(st.objects[o].data, change), change))
  {
    var photo, next := st.objects[o].id, Take(st, Set(o, change));
    ApplyMineSnoc(photo, st.backend.photos[photo], st.queue, next.queue[|st.queue|]);
  }

  /** A change of another tag, with all tags of the object. */
  lemma WritesOtherTag(st: State, o: nat, t: TagType, value: Held) returns (steps: seq<Step>, last: State)
    requires Inv(st) && o in st.objects && NoMarksOf(st, o)
    ensures var photo, slot := st.objects[o].id, TagSlot(t);
            && SparingRun(st, o, photo, slot, value, steps, last)
            && o in last.objects && last.objects[o].id == photo && NoMarksOf(last, o)
            && photo in last.backend.photos && ValueAt(Eventual(last, photo), slot) == ValueAt(st.objects[o].data, slot)
  {
    var photo, slot := st.objects[o].id, TagSlot(t);
    var change := SetTag(if t == Event then Place else Event, Some("x"));
    last := Take(st, Set(o, change));
    steps := [Set(o, change)];
    SetEventual(st, o, change);
    OtherChange(st.objects[o].data, change, slot);
    AppliedAt(Eventual(st, photo), DeltaOf(Changed(st.objects[o].data, change), change), slot);
    assert steps[1..] == [];
  }

  lemma MarkEventual(st: State, o: nat, f: Flag, v: int)
    requires Inv(st) && o in st.objects
    ensures var photo := st.objects[o].id;
            var last := CalledMark(st, o, f, v);
            && photo in st.backend.photos && last.backend == st.backend && last.marking == st.marking
            && o in last.objects && last.objects[o].id == photo
            && last.objects[o].data == Marked(st.objects[o].data, f, v)
            && Eventual(last, photo) == Apply(Eventual(st, photo), MarkDelta(last.objects[o].data))
  {
    var begun, last := Take(st, BeginMark(Mark(o, f, v))), CalledMark(st, o, f, v);
    var photo := st.objects[o].id;
    assert last.queue[|st.queue|] == MarkDelta(last.objects[o].data);
    ApplyMineSnoc(photo, st.backend.photos[photo], st.queue, last.queue[|st.queue|]);
  }

  /** Marking a flag, both halves without a step of another thread between them. */
  function CalledMark(st: State, o: nat, f: Flag, v: int): State
    requires o in st.objects
  {
    var begun := Take(st, BeginMark(Mark(o, f, v)));
    assert begun.marking[|st.marking|].owner == o;
    Take(begun, EndMark(|st.marking|))
  }

  lemma MarkSpares(st: State, o: nat, f: Flag, other: Flag, value: Held)
    requires Inv(st) && o in st.objects && other != f
    ensures SparingRun(st, o, st.objects[o].id, FlagSlot(f), value, [BeginMark(Mark(o, other, 1)), EndMark(|st.marking|)], CalledMark(st, o, other, 1))
  {
    var begin, end := BeginMark(Mark(o, other, 1)), EndMark(|st.marking|);
    var begun := Take(st, begin);
    assert begun.marking[|st.marking|] == Mark(o, other, 1);
    assert Spares(begun, o, st.objects[o].id, FlagSlot(f), value, end);
    assert [begin, end][1..] == [end] && [end][1..] == [];
  }

  lemma OtherMarkEventual(st: State, o: nat, f: Flag, other: Flag)
    requires Inv(st) && o in st.objects && other != f
    ensures var photo, last := st.objects[o].id, CalledMark(st, o, other, 1);
            && o in last.objects && last.objects[o].id == photo && last.marking == st.marking
            && photo in last.backend.photos && ValueAt(Eventual(last, photo), FlagSlot(f)) == ValueAt(st.objects[o].data, FlagSlot(f))
  {
    MarkEventual(st, o, other, 1);
    AppliedAt(Eventual(st, st.objects[o].id), MarkDelta(CalledMark(st, o, other, 1).objects[o].data), FlagSlot(f));
  }

  /** A mark of another flag, with all flags of the object. */
  lemma WritesOtherFlag(st: State, o: nat, f: Flag, value: Held) returns (steps: seq<Step>, last: State)
    requires Inv(st) && o in st.objects && NoMarksOf(st, o)
    ensures var photo, slot := st.objects[o].id, FlagSlot(f);
            && SparingRun(st, o, photo, slot, value, steps, last)
            && o in last.objects && last.objects[o].id == photo && NoMarksOf(last, o)
            && photo in last.backend.photos && ValueAt(Eventual(last, photo), slot) == ValueAt(st.objects[o].data, slot)
  {
    var other := if f == ExifLoaded then StagingArea else ExifLoaded;
    steps, last := [BeginMark(Mark(o, other, 1)), EndMark(|st.marking|)], CalledMark(st, o, other, 1);
    MarkSpares(st, o, f, other, value);
    OtherMarkEventual(st, o, f, other);
  }

  lemma WritesOther(st: State, o: nat, slot: Slot, value: Held) returns (steps: seq<Step>, last: State)
    requires Inv(st) && o in st.objects && NoMarksOf(st, o) && Shared(slot)
    ensures var photo := st.objects[o].id;
            && SparingRun(st, o, photo, slot, value, steps, last)
            && o in last.objects && last.objects[o].id == photo && NoMarksOf(last, o)
            && photo in last.backend.photos && ValueAt(Eventual(last, photo), slot) == ValueAt(st.objects[o].data, slot)
  {
    match slot
    case TagSlot(t) => steps, last := WritesOtherTag(st, o, t, value);
    case FlagSlot(f) => steps, last := WritesOtherFlag(st, o, f, value);
  }

  lemma NoMarksNoneOpen(st: State, o: nat, slot: Slot)
    requires Inv(st) && o in st.objects && NoMarksOf(st, o)
    ensures NoneOpen(st, st.objects[o].id, slot)
  {
  }

  /** From any object a run follows that ends with the slot as the object has it now. */
  lemma WritesWithout(st: State, o: nat, slot: Slot, value: Held) returns (steps: seq<Step>, last: State)
    requires Inv(st) && o in st.objects && NoMarksOf(st, o) && Shared(slot)
    ensures var photo := st.objects[o].id;
            && SparingRun(st, o, photo, slot, value, steps, last) && Quiet(last)
            && Reached(last, photo, slot, ValueAt(st.objects[o].data, slot))
  {
    var photo := st.objects[o].id;
    var first, middle := WritesOther(st, o, slot, value);
    SparingRunKeeps(st, o, photo, slot, value, first, middle);
    var rest;
    rest, last := Settles(middle);
    SettlingKeepsRecord(middle, o, rest, last);
    NoMarksNoneOpen(middle, o, slot);
    SettlingSpares(middle, o, photo, slot, value, rest, last);
    SparingRunConcat(st, o, photo, slot, value, first, middle, rest, last);
    steps := first + rest;
    NothingMine(photo, last.backend.photos[photo], last.queue);
  }

  // Written while something was under way

  lemma OtherMarkStays(st: State, step: Step, o: nat, slot: Slot, i: nat)
    requires Enabled(st, step) && WritesSlot(st, o, slot, step) && i < |st.marking| && st.marking[i].owner != o
    ensures st.marking[i] in Take(st, step).marking
  {
    if step.EndMark? {
      OthersStay(st.marking, step.i, i);
    }
  }

  lemma MarksStay(st: State, step: Step, ended: State, o: nat, slot: Slot, p: nat)
    requires Inv(st) && Enabled(st, step) && WritesSlot(st, o, slot, step) && p != o
    requires MarksEnded(Take(st, step), ended, o)
    ensures forall i :: 0 <= i < |st.marking| && st.marking[i].owner == p ==> st.marking[i] in ended.marking
  {
    var next := Take(st, step);
    forall i | 0 <= i < |st.marking| && st.marking[i].owner == p
      ensures st.marking[i] in ended.marking
    {
      OtherMarkStays(st, step, o, slot, i);
      var k :| 0 <= k < |next.marking| && next.marking[k] == st.marking[i];
    }
  }

  lemma OthersInStep(st: State, step: Step, ended: State, o: nat, slot: Slot, p: nat)
    requires Inv(st) && Enabled(st, step) && WritesSlot(st, o, slot, step) && p != o && p in ended.objects
    requires MarksEnded(Take(st, step), ended, o)
    ensures Pending(ended.(queue := st.queue), p) || Agrees(ended.(queue := st.queue), p)
  {
    var delta := QueuesValue(st, step, o, slot);
    assert ended.objects[p] == Take(st, step).objects[p] == st.objects[p];
    if Pending(st, p) {
      MarksStay(st, step, ended, o, slot, p);
      StillPending(st, ended.(queue := st.queue), p);
    }
  }

  lemma ShorterKeeps(st: State, step: Step, ended: State, o: nat, slot: Slot)
    requires Inv(st) && Enabled(st, step) && WritesSlot(st, o, slot, step) && Inv(ended)
    requires MarksEnded(Take(st, step), ended, o) && st.queue <= ended.queue
    requires o in ended.objects && !UpToDate(ended.(queue := st.queue), ended.objects[o].id)
    ensures Inv(ended.(queue := st.queue))
  {
    var before := ended.(queue := st.queue);
    ShorterFits(ended, st.queue);
    forall p | p in before.objects
      ensures Pending(before, p) || Agrees(before, p)
    {
      if p != o {
        OthersInStep(st, step, ended, o, slot, p);
      }
    }
  }

  /** The state after the write without the deltas queued since: still in step, as something else is under way. */
  lemma BeforeKeeps(st: State, step: Step, ended: State, o: nat, slot: Slot)
    requires Inv(st) && Enabled(st, step) && WritesSlot(st, o, slot, step) && o in st.objects
    requires !UpToDate(st, st.objects[o].id)
    requires Inv(ended) && MarksEnded(Take(st, step), ended, o)
    ensures var before := ended.(queue := st.queue);
            && Inv(before) && o in before.objects && before.objects[o].id == st.objects[o].id
            && !UpToDate(before, st.objects[o].id) && st.queue <= ended.queue && ended.backend == st.backend
  {
    EndedFacts(st, step, ended, o, slot);
    StillDue(st, ended.(queue := st.queue), st.objects[o].id);
    ShorterKeeps(st, step, ended, o, slot);
  }

  lemma EndedFacts(st: State, step: Step, ended: State, o: nat, slot: Slot)
    requires Inv(st) && Enabled(st, step) && WritesSlot(st, o, slot, step) && MarksEnded(Take(st, step), ended, o)
    ensures o in st.objects && o in ended.objects && ended.objects[o].id == st.objects[o].id
    ensures ended.backend == st.backend && ended.refreshing == st.refreshing && st.queue <= ended.queue
  {
    var delta := QueuesValue(st, step, o, slot);
  }

  lemma StillDue(st: State, next: State, photo: int)
    requires next.queue == st.queue && next.refreshing == st.refreshing && !UpToDate(st, photo)
    ensures !UpToDate(next, photo)
  {
  }

  lemma ShorterFits(st: State, queue: seq<Delta>)
    requires Inv(st) && queue <= st.queue
    ensures Cached(st.(queue := queue)) && IdsFit(st.(queue := queue))
  {
  }

  /** The earlier part of the queue is run, and refreshes take what came later out of the object again. */
  lemma DrainsBefore(before: State, st: State, o: nat) returns (steps: seq<Step>, last: State)
    requires before == st.(queue := before.queue) && before.queue <= st.queue
    requires Inv(before) && o in before.objects && Due(before, o) && NoMarksOf(before, o)
    ensures Runs(st, steps, last) && OnlyDatabase(steps)
    ensures var photo := before.objects[o].id;
            && o in last.objects && last.objects[o].id == photo && photo in before.backend.photos && NoMarksOf(last, o)
            && last.objects[o].data == Eventual(before, photo)
  {
    var drained;
    steps, drained := DrainsToEventual(before, o);
    var tail := st.queue[|before.queue|..];
    RunsBefore(before, tail, steps, drained);
    assert before.queue + tail == st.queue;
    last := drained.(queue := drained.queue + tail);
  }

  /** Main result, lost: anything written in a shared field of a photo that is not up to date has no effect in some run
      that spares it: the slot ends as if nothing had been written. */
  lemma WriteCanBeLost(st: State, step: Step, o: nat, slot: Slot, value: Held) returns (steps: seq<Step>, last: State)
    requires Inv(st) && Enabled(st, step) && WritesSlot(st, o, slot, step) && o in st.objects && Shared(slot)
    requires !UpToDate(st, st.objects[o].id) && NoneOpen(Take(st, step), st.objects[o].id, slot)
    ensures SparingRun(Take(st, step), o, st.objects[o].id, slot, value, steps, last) && Quiet(last)
    ensures st.objects[o].id in st.backend.photos
    ensures Reached(last, st.objects[o].id, slot, ValueAt(Eventual(st, st.objects[o].id), slot))
  {
    var photo, next := st.objects[o].id, Take(st, step);
    StepKeeps(st, step);
    var delta := QueuesValue(st, step, o, slot);
    var first, ended := EndsMarksOf(next, o);
    SettlingSpares(next, o, photo, slot, value, first, ended);
    BeforeKeeps(st, step, ended, o, slot);
    var second, middle := DrainsBefore(ended.(queue := st.queue), ended, o);
    NoMarksNoneOpen(ended, o, slot);
    SettlingSpares(ended, o, photo, slot, value, second, middle);
    SparingRunKeeps(ended, o, photo, slot, value, second, middle);
    var third;
    third, last := WritesWithout(middle, o, slot, value);
    SparingRunConcat(ended, o, photo, slot, value, second, middle, third, last);
    SparingRunConcat(next, o, photo, slot, value, first, ended, second + third, last);
    steps := first + (second + third);
  }

  // ---------------------------------------------------------------------------
  // Why the change has to reach the backend first
  // ---------------------------------------------------------------------------

  lemma SameObjectsTwice(st: State, next: State, last: State)
    requires SameObjects(st, next) && SameObjects(next, last)
    ensures SameObjects(st, last)
  {
  }

  lemma RefreshesOne(st: State, x: int)
    requires Inv(st) && x in st.refreshing
    ensures Enabled(st, Refresh(x)) && Inv(Take(st, Refresh(x))) && SameObjects(st, Take(st, Refresh(x)))
    ensures var next := Take(st, Refresh(x));
            && next.refreshing == st.refreshing - {x} && |next.refreshing| < |st.refreshing|
            && next.backend == st.backend && next.queue == st.queue && next.marking == st.marking
  {
    StepKeeps(st, Refresh(x));
    SettlingStep(st, Refresh(x));
    assert st.refreshing - {x} < st.refreshing;
  }

  /** Refreshes that are still due for other photos. */
  lemma {:induction false} RefreshesAll(st: State, o: nat) returns (steps: seq<Step>, last: State)
    requires Inv(st) && o in st.objects && st.objects[o].id !in st.refreshing
    ensures Runs(st, steps, last) && OnlySettling(steps) && Inv(last)
    ensures last.refreshing == {} && last.backend == st.backend && last.queue == st.queue && last.marking == st.marking
    ensures SameObjects(st, last)
    decreases |st.refreshing|
  {
    if st.refreshing == {} {
      steps, last := [], st;
    } else {
      var x := MemberOf(st.refreshing);
      RefreshesOne(st, x);
      var rest;
      rest, last := RefreshesAll(Take(st, Refresh(x)), o);
      steps := [Refresh(x)] + rest;
      RunsOneMore(st, Refresh(x), rest, last);
      SameObjectsTwice(st, Take(st, Refresh(x)), last);
    }
  }

  /** Everything but the queue comes to rest, and the backend is as it was when the change was made. */
  lemma ComesToRest(st: State, step: Step, o: nat, slot: Slot, value: Held) returns (steps: seq<Step>, last: State)
    requires Inv(st) && Enabled(st, step) && WritesSlot(st, o, slot, step) && o in st.objects
    requires UpToDate(st, st.objects[o].id) && NoneOpen(Take(st, step), st.objects[o].id, slot)
    ensures var photo := st.objects[o].id;
            && SparingRun(Take(st, step), o, photo, slot, value, steps, last) && Inv(last)
            && o in last.objects && last.objects[o].id == photo && NoMarksOf(last, o)
            && last.refreshing == {} && last.backend == st.backend && photo in st.backend.photos
  {
    var photo, next := st.objects[o].id, Take(st, step);
    StepKeeps(st, step);
    var delta := QueuesValue(st, step, o, slot);
    var first, ended := EndsMarksOf(next, o);
    SettlingSpares(next, o, photo, slot, value, first, ended);
    var second;
    second, last := RefreshesAll(ended, o);
    NoMarksNoneOpen(ended, o, slot);
    SettlingSpares(ended, o, photo, slot, value, second, last);
    SparingRunConcat(next, o, photo, slot, value, first, ended, second, last);
    steps := first + second;
  }

  /** Letting the object go and looking the photo up again, while the change is still queued, hands out the record
      without it; a change of another tag or flag then ends with the slot as it was before. */
  lemma LostByLookingUpAgain(st: State, step: Step, o: nat, slot: Slot, value: Held)
      returns (steps: seq<Step>, rest: State, again: State, more: seq<Step>, last: State)
    requires Inv(st) && Enabled(st, step) && WritesSlot(st, o, slot, step) && o in st.objects && Shared(slot)
    requires UpToDate(st, st.objects[o].id) && NoneOpen(Take(st, step), st.objects[o].id, slot)
    ensures var photo := st.objects[o].id;
            && SparingRun(Take(st, step), o, photo, slot, value, steps, rest)
            && Runs(rest, [Forget(o), Get(photo)], again) && IsLive(again, photo)
            && SparingRun(again, again.cache[photo], photo, slot, value, more, last) && Quiet(last)
            && photo in st.backend.photos && Reached(last, photo, slot, ValueAt(st.backend.photos[photo], slot))
  {
    var photo := st.objects[o].id;
    steps, rest := ComesToRest(st, step, o, slot, value);
    var forgot := Take(rest, Forget(o));
    StepKeeps(rest, Forget(o));
    again := Take(forgot, Get(photo));
    StepKeeps(forgot, Get(photo));
    assert [Forget(o), Get(photo)][1..] == [Get(photo)] && [Get(photo)][1..] == [];
    FreshObject(forgot, photo);
    more, last := WritesWithout(again, again.cache[photo], slot, value);
  }

  lemma FreshObject(st: State, photo: int)
    requires Inv(st) && Enabled(st, Get(photo)) && !IsLive(st, photo)
    ensures var next := Take(st, Get(photo));
            && IsLive(next, photo) && next.objects[next.cache[photo]] == Live(photo, st.backend.photos[photo])
            && NoMarksOf(next, next.cache[photo])
  {
  }

  /** A group made of the photo, and the refresh of its object. */
  lemma GroupsAndRefreshes(st: State, o: nat, kind: int, slot: Slot) returns (last: State)
    requires Inv(st) && o in st.objects && NoMarksOf(st, o) && st.refreshing == {} && Shared(slot)
    ensures var photo := st.objects[o].id;
            && Runs(st, [RunAddGroup(photo, kind), Refresh(photo)], last) && Inv(last)
            && o in last.objects && last.objects[o].id == photo && NoMarksOf(last, o) && photo in st.backend.photos
            && ValueAt(last.objects[o].data, slot) == ValueAt(st.backend.photos[photo], slot)
  {
    var photo := st.objects[o].id;
    var add, refresh := RunAddGroup(photo, kind), Refresh(photo);
    var grouped := Take(st, add);
    StepKeeps(st, add);
    OthersKeepSlot(st, add, photo, slot);
    last := Take(grouped, refresh);
    StepKeeps(grouped, refresh);
    assert [add, refresh][1..] == [refresh] && [refresh][1..] == [];
  }

  /** So does any group made of the photo in the meantime, though it says nothing of the slot: its refresh comes first. */
  lemma LostByGrouping(st: State, step: Step, o: nat, slot: Slot, value: Held, kind: int)
      returns (steps: seq<Step>, rest: State, refreshed: State, more: seq<Step>, last: State)
    requires Inv(st) && Enabled(st, step) && WritesSlot(st, o, slot, step) && o in st.objects && Shared(slot)
    requires UpToDate(st, st.objects[o].id) && NoneOpen(Take(st, step), st.objects[o].id, slot)
    ensures var photo := st.objects[o].id;
            && SparingRun(Take(st, step), o, photo, slot, value, steps, rest)
            && Runs(rest, [RunAddGroup(photo, kind), Refresh(photo)], refreshed)
            && SparingRun(refreshed, o, photo, slot, value, more, last) && Quiet(last)
            && photo in st.backend.photos && Reached(last, photo, slot, ValueAt(st.backend.photos[photo], slot))
  {
    steps, rest := ComesToRest(st, step, o, slot, value);
    refreshed := GroupsAndRefreshes(rest, o, kind, slot);
    more, last := WritesWithout(refreshed, o, slot, value);
  }

  // ---------------------------------------------------------------------------
  // Exactly when a call is kept
  // ---------------------------------------------------------------------------

  /** The setter that gives a slot a value; a flag is marked instead. */
  function ChangeTo(slot: Slot, value: Held): Option<Change> {
    match (slot, value)
    case (TagSlot(t), Word(text)) => Some(SetTag(t, text))
    case (ChecksumSlot, Word(Some(sha))) => Some(SetSha256(sha))
    case (GeometrySlot, Area(size)) => Some(SetGeometry(size))
    case (GroupSlot, Grouped(group)) => Some(SetGroup(group))
    case _ => None
  }

  lemma ChangesTo(data: Data, slot: Slot, value: Held)
    requires ChangeTo(slot, value).Some?
    ensures var change := ChangeTo(slot, value).value;
            ValueAt(Changed(data, change), slot) == value && Mentions(DeltaOf(Changed(data, change), change), slot)
  {
  }

  /** The state after a call that gives the slot the value. */
  ghost predicate Calls(st: State, o: nat, slot: Slot, value: Held, called: State)
    requires o in st.objects
  {
    if slot.FlagSlot? then value.Number? && value.number.Some? && called == CalledMark(st, o, slot.flag, value.number.value)
    else
      && ChangeTo(slot, value).Some?
      && var step := Set(o, ChangeTo(slot, value).value); Enabled(st, step) && called == Take(st, step)
  }

  ghost predicate KeepsValue(st: State, o: nat, slot: Slot, value: Held, called: State, steps: seq<Step>, last: State)
    requires o in st.objects
  {
    var photo := st.objects[o].id;
    Calls(st, o, slot, value, called) && SparingRun(called, o, photo, slot, value, steps, last) && Quiet(last) ==>
    Reached(last, photo, slot, value)
  }

  ghost predicate NeverLost(st: State, o: nat, slot: Slot)
    requires o in st.objects
  {
    forall value: Held, called: State, steps: seq<Step>, last: State :: KeepsValue(st, o, slot, value, called, steps, last)
  }

  lemma MarkBegun(st: State, o: nat, f: Flag, v: int)
    requires Inv(st) && o in st.objects
    ensures var begun, end := Take(st, BeginMark(Mark(o, f, v))), EndMark(|st.marking|);
            Inv(begun) && Enabled(begun, end) && WritesSlot(begun, o, FlagSlot(f), end)
  {
    StepKeeps(st, BeginMark(Mark(o, f, v)));
    assert Take(st, BeginMark(Mark(o, f, v))).marking[|st.marking|] == Mark(o, f, v);
  }

  /** Every call ends in a write of the slot, from a state as much up to date as it was. */
  lemma CallWrites(st: State, o: nat, slot: Slot, value: Held, called: State) returns (before: State, step: Step)
    requires Inv(st) && o in st.objects && Calls(st, o, slot, value, called)
    ensures Inv(before) && Enabled(before, step) && WritesSlot(before, o, slot, step) && called == Take(before, step)
    ensures o in before.objects && before.objects[o].id == st.objects[o].id && o in called.objects
    ensures ValueAt(called.objects[o].data, slot) == value
    ensures before.queue == st.queue && before.refreshing == st.refreshing && before.backend == st.backend
    ensures NoneOpen(st, st.objects[o].id, slot) ==> NoneOpen(called, st.objects[o].id, slot)
  {
    if slot.FlagSlot? {
      var f, v := slot.flag, value.number.value;
      before, step := Take(st, BeginMark(Mark(o, f, v))), EndMark(|st.marking|);
      MarkBegun(st, o, f, v);
      MarkEventual(st, o, f, v);
    } else {
      before, step := st, Set(o, ChangeTo(slot, value).value);
      ChangesTo(st.objects[o].data, slot, value);
    }
  }

  lemma CallKept(st: State, o: nat, slot: Slot, value: Held, called: State, steps: seq<Step>, last: State)
    requires Inv(st) && o in st.objects && Calls(st, o, slot, value, called) && (Shared(slot) ==> UpToDate(st, st.objects[o].id))
    requires SparingRun(called, o, st.objects[o].id, slot, value, steps, last) && Quiet(last)
    ensures Reached(last, st.objects[o].id, slot, value)
  {
    var before, step := CallWrites(st, o, slot, value, called);
    WriteKept(before, step, o, slot, steps, last);
  }

  /** A value the slot will not have anyway, and a call that gives it. */
  lemma SomeCall(st: State, o: nat, slot: Slot, unwritten: Held) returns (value: Held, called: State)
    requires Inv(st) && o in st.objects && Shared(slot)
    ensures value != unwritten && Calls(st, o, slot, value, called)
  {
    match slot
    case TagSlot(t) =>
      value := if unwritten == Word(None) then Word(Some("a")) else Word(None);
      called := Take(st, Set(o, SetTag(t, value.text)));
    case FlagSlot(f) =>
      value := if unwritten == Number(Some(0)) then Number(Some(1)) else Number(Some(0));
      called := CalledMark(st, o, f, value.number.value);
  }

  /** Main result: calls that give a value to a slot are kept in all runs that spare it, exactly when the field is not
      shared with other slots, or the photo was up to date at the call. */
  lemma KeptExactly(st: State, o: nat, slot: Slot)
    requires Inv(st) && o in st.objects && NoneOpen(st, st.objects[o].id, slot)
    ensures NeverLost(st, o, slot) <==> !Shared(slot) || UpToDate(st, st.objects[o].id)
  {
    var photo := st.objects[o].id;
    if !Shared(slot) || UpToDate(st, photo) {
      forall value: Held, called: State, steps: seq<Step>, last: State
        ensures KeepsValue(st, o, slot, value, called, steps, last)
      {
        if Calls(st, o, slot, value, called) && SparingRun(called, o, photo, slot, value, steps, last) && Quiet(last) {
          CallKept(st, o, slot, value, called, steps, last);
        }
      }
    } else {
      var value, called := SomeCall(st, o, slot, ValueAt(Eventual(st, photo), slot));
      var before, step := CallWrites(st, o, slot, value, called);
      var steps, last := WriteCanBeLost(before, step, o, slot, value);
      assert !KeepsValue(st, o, slot, value, called, steps, last);
    }
  }
}
