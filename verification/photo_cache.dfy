/** Photo objects handed out to clients, kept in step with the backend by queued updates and refreshes. */
module PhotoCache {
  import opened Common
  import opened Photos
  import opened MemoryBackend

  // ---------------------------------------------------------------------------
  // Setters
  // ---------------------------------------------------------------------------

  /** A tag value of None is the empty value. */
  datatype Change =
    | SetSha256(sha256: string)
    | SetGeometry(geometry: Size)
    | SetTags(tags: map<TagType, Option<string>>)
    | SetTag(name: TagType, value: Option<string>)
    | SetGroup(group: GroupInfo)

  /** What the setters assert. */
  predicate Settable(data: Data, change: Change) {
    match change
    case SetSha256(_) => FlagOf(data.flags, Sha256Loaded) <= 0
    case SetGeometry(_) => FlagOf(data.flags, GeometryLoaded) <= 0
    case _ => true
  }

  /** Tags the photo already has stay, and empty values are not added. */
  function WithTags(own: Tags, tags: map<TagType, Option<string>>): Tags {
    (map t | t in tags && tags[t].Some? :: tags[t].value) + own
  }

  /** The same with only some of the new tags. */
  function Merged(own: Tags, tags: map<TagType, Option<string>>, some: set<TagType>): Tags {
    (map t | t in tags && t in some && tags[t].Some? :: tags[t].value) + own
  }

  lemma MergedMore(own: Tags, tags: map<TagType, Option<string>>, some: set<TagType>, t: TagType)
    requires t in tags
    ensures var before := Merged(own, tags, some);
            Merged(own, tags, some + {t}) == if tags[t].Some? && t !in before then before[t := tags[t].value] else before
  {
  }

  lemma MergedAll(own: Tags, tags: map<TagType, Option<string>>)
    ensures Merged(own, tags, {}) == own && Merged(own, tags, tags.Keys) == WithTags(own, tags)
  {
  }

  function Changed(data: Data, change: Change): Data {
    match change
    case SetSha256(sha) => data.(sha256 := sha, flags := data.flags[Sha256Loaded := 1])
    case SetGeometry(size) => data.(geometry := size, flags := data.flags[GeometryLoaded := 1])
    case SetTags(tags) => data.(tags := WithTags(data.tags, tags))
    case SetTag(name, None) => data.(tags := data.tags - {name})
    case SetTag(name, Some(v)) => data.(tags := data.tags[name := v])
    case SetGroup(group) => data.(group := group)
  }

  /** The delta that a setter queues: the whole of each field it changed. */
  function DeltaOf(changed: Data, change: Change): Delta {
    match change
    case SetSha256(_) => EmptyDelta(changed.id).(checksum := Some(changed.sha256), flags := Some(changed.flags))
    case SetGeometry(_) => EmptyDelta(changed.id).(geometry := Some(changed.geometry), flags := Some(changed.flags))
    case SetTags(_) => EmptyDelta(changed.id).(tags := Some(changed.tags))
    case SetTag(_, _) => EmptyDelta(changed.id).(tags := Some(changed.tags))
    case SetGroup(_) => EmptyDelta(changed.id).(group := Some(changed.group))
  }

  /** Setting the checksum or the size marks it as loaded, and it cannot be set again. */
  lemma LoadedOnce(data: Data, sha: string, size: Size)
    ensures var d := Changed(data, SetSha256(sha)); d.sha256 == sha && FlagOf(d.flags, Sha256Loaded) == 1
    ensures var d := Changed(data, SetGeometry(size)); d.geometry == size && FlagOf(d.flags, GeometryLoaded) == 1
    ensures forall next :: !Settable(Changed(data, SetSha256(sha)), SetSha256(next))
    ensures forall next :: !Settable(Changed(data, SetGeometry(size)), SetGeometry(next))
  {
  }

  /** Of every tag the own value stays; one that is new is added unless it is empty. */
  lemma OwnTagsStay(own: Tags, tags: map<TagType, Option<string>>, t: TagType)
    ensures TagIn(WithTags(own, tags), t) == if t in own then Some(own[t]) else if t in tags then tags[t] else None
  {
  }

  /** Stored over the record the object had, the delta gives what the setter made of the object. */
  lemma DeltaSaysTheChange(data: Data, change: Change)
    ensures Apply(data, DeltaOf(Changed(data, change), change)) == Changed(data, change)
  {
  }

  function Marked(data: Data, flag: Flag, v: int): Data {
    data.(flags := data.flags[flag := v])
  }

  function MarkDelta(data: Data): Delta {
    EmptyDelta(data.id).(flags := Some(data.flags))
  }

  // ---------------------------------------------------------------------------
  // Objects, cache, queue
  // ---------------------------------------------------------------------------

  datatype Live = Live(id: int, data: Data)

  /** Between the two locked sections of marking a flag. */
  datatype Mark = Mark(owner: nat, flag: Flag, v: int)

  datatype State = State(
    backend: Album,
    objects: map<nat, Live>,   // objects that still have a client
    cache: map<int, nat>,      // the object last introduced for an id, dead or alive
    nextObject: nat,
    queue: seq<Delta>,         // updates waiting for the database thread
    refreshing: set<int>,      // photos the database thread has modified and not yet refreshed
    marking: seq<Mark>)

  datatype Step =
    | Get(id: int)
    | Forget(owner: nat)
    | Set(owner: nat, change: Change)
    | BeginMark(mark: Mark)
    | EndMark(i: nat)
    | RunQueued
    | RunUpdate(deltas: seq<Delta>)
    | RunAddGroup(representative: int, kind: int)
    | RunRemoveGroup(gid: int)
    | Refresh(photo: int)

  predicate Enabled(st: State, step: Step) {
    match step
    case Get(id) => st.refreshing == {} && id in st.backend.photos
    case Forget(o) => o in st.objects && forall i | 0 <= i < |st.marking| :: st.marking[i].owner != o
    case Set(o, change) => o in st.objects && Settable(st.objects[o].data, change)
    case BeginMark(mark) => mark.owner in st.objects
    case EndMark(i) => i < |st.marking| && st.marking[i].owner in st.objects
    case RunQueued => st.refreshing == {} && st.queue != [] && Names(st.backend, st.queue[0])
    case RunUpdate(deltas) => st.refreshing == {} && AllNamed(st.backend, deltas)
    case RunAddGroup(representative, _) => st.refreshing == {} && representative in st.backend.photos
    case RunRemoveGroup(_) => st.refreshing == {}
    case Refresh(photo) => photo in st.refreshing && photo in st.backend.photos
  }

  function Touched(deltas: seq<Delta>): set<int> {
    set i | 0 <= i < |deltas| && deltas[i].id.Some? :: deltas[i].id.value
  }

  function GroupCleared(s: Album, gid: int): set<int> {
    if gid in s.groups then Touched(ClearDeltas(PhotosOfGroup(s.photos, gid, s.nextPhoto))) else {}
  }

  function WithObject(st: State, o: nat, data: Data): State
    requires o in st.objects
  {
    st.(objects := st.objects[o := st.objects[o].(data := data)])
  }

  predicate IsLive(st: State, id: int) {
    id in st.cache && st.cache[id] in st.objects
  }

  function Take(st: State, step: Step): State
    requires Enabled(st, step)
  {
    match step
    case Get(id) =>
      if IsLive(st, id) then st
      else st.(objects := st.objects[st.nextObject := Live(id, st.backend.photos[id])],
               cache := st.cache[id := st.nextObject], nextObject := st.nextObject + 1)
    case Forget(o) => st.(objects := st.objects - {o})
    case Set(o, change) =>
      var changed := Changed(st.objects[o].data, change);
      WithObject(st, o, changed).(queue := st.queue + [DeltaOf(changed, change)])
    case BeginMark(mark) =>
      WithObject(st, mark.owner, Marked(st.objects[mark.owner].data, mark.flag, mark.v)).(marking := st.marking + [mark])
    case EndMark(i) =>
      var mark := st.marking[i];
      var marked := Marked(st.objects[mark.owner].data, mark.flag, mark.v);
      WithObject(st, mark.owner, marked).(queue := st.queue + [MarkDelta(marked)],
                                           marking := st.marking[..i] + st.marking[i + 1..])
    case RunQueued => st.(backend := Update(st.backend, [st.queue[0]]), queue := st.queue[1..], refreshing := Touched([st.queue[0]]))
    case RunUpdate(deltas) => st.(backend := Update(st.backend, deltas), refreshing := Touched(deltas))
    case RunAddGroup(representative, kind) =>
      st.(backend := AddGroup(st.backend, representative, kind), refreshing := {representative})
    case RunRemoveGroup(gid) => st.(backend := RemoveGroup(st.backend, gid), refreshing := GroupCleared(st.backend, gid))
    case Refresh(photo) =>
      var next := st.(refreshing := st.refreshing - {photo});
      if IsLive(st, photo) then WithObject(next, st.cache[photo], st.backend.photos[photo]) else next
  }

  /** The first half of marking shows the flag on the object at once; only the second queues it. */
  lemma MarkShowsAtOnce(st: State, mark: Mark)
    requires Enabled(st, BeginMark(mark))
    ensures var next := Take(st, BeginMark(mark));
            && mark.owner in next.objects && FlagAt(next.objects[mark.owner].data.flags, mark.flag) == Some(mark.v)
            && next.queue == st.queue && next.backend == st.backend
  {
  }

  // ---------------------------------------------------------------------------
  // What every run keeps
  // ---------------------------------------------------------------------------

  /** Something is still under way for the photo of this object. */
  ghost predicate Pending(st: State, o: nat)
    requires o in st.objects
  {
    || (exists i :: 0 <= i < |st.queue| && st.queue[i].id == Some(st.objects[o].id))
    || st.objects[o].id in st.refreshing
    || (exists i :: 0 <= i < |st.marking| && st.marking[i].owner == o)
  }

  ghost predicate Agrees(st: State, o: nat)
    requires o in st.objects
  {
    st.objects[o].id in st.backend.photos && st.objects[o].data == st.backend.photos[st.objects[o].id]
  }

  /** The cache finds every live object under its id. */
  ghost predicate Cached(st: State) {
    && (forall o :: o in st.objects ==> st.objects[o].id in st.cache && st.cache[st.objects[o].id] == o)
    && (forall o :: o in st.objects ==> o < st.nextObject)
    && (forall id :: id in st.cache ==> st.cache[id] < st.nextObject)
    && (forall id :: IsLive(st, id) ==> st.objects[st.cache[id]].id == id)
  }

  ghost predicate IdsFit(st: State) {
    && (forall id :: id in st.backend.photos ==> st.backend.photos[id].id == Some(id))
    && (forall o :: o in st.objects ==> st.objects[o].id in st.backend.photos && st.objects[o].data.id == Some(st.objects[o].id))
    && (forall i :: 0 <= i < |st.queue| ==> Names(st.backend, st.queue[i]))
    && (forall i :: 0 <= i < |st.marking| ==> st.marking[i].owner in st.objects)
    && st.refreshing <= st.backend.photos.Keys
  }

  ghost predicate InStep(st: State) {
    forall o :: o in st.objects ==> Pending(st, o) || Agrees(st, o)
  }

  ghost predicate Inv(st: State) {
    Cached(st) && IdsFit(st) && InStep(st)
  }

  /** At most one live object for each photo. */
  lemma OneObjectPerPhoto(st: State, a: nat, b: nat)
    requires Cached(st) && a in st.objects && b in st.objects && st.objects[a].id == st.objects[b].id
    ensures a == b
  {
  }

  // ---------------------------------------------------------------------------
  // Database steps
  // ---------------------------------------------------------------------------

  lemma {:induction false} UpdateTouchesOnly(s: Album, deltas: seq<Delta>, id: int)
    requires AllNamed(s, deltas) && id in s.photos
    requires forall k :: k in s.photos ==> s.photos[k].id == Some(k)
    ensures id !in Touched(deltas) ==> Update(s, deltas).photos[id] == s.photos[id]
    ensures Update(s, deltas).photos[id].id == Some(id)
    decreases |deltas|
  {
    if deltas != [] {
      var next := UpdateOne(s, deltas[0]);
      assert AllNamed(next, deltas[1..]);
      UpdateTouchesOnly(next, deltas[1..], id);
      assert deltas[0].id.value in Touched(deltas);
      if id !in Touched(deltas) {
        forall i | 0 <= i < |deltas[1..]|
          ensures deltas[1..][i].id != Some(id)
        {
          assert deltas[1..][i] == deltas[i + 1];
        }
      }
    }
  }

  predicate IsRefreshed(st: State, delta: Delta) {
    delta.id.Some? && delta.id.value in st.refreshing
  }

  /** What a database step may do: change the photos it names, and then refresh them. */
  ghost predicate Modifies(st: State, next: State) {
    && next.objects == st.objects && next.cache == st.cache && next.nextObject == st.nextObject && next.marking == st.marking
    && next.backend.photos.Keys == st.backend.photos.Keys
    && next.refreshing <= next.backend.photos.Keys
    && (forall id :: id in next.backend.photos ==> next.backend.photos[id].id == Some(id))
    && (forall id :: id in st.backend.photos && id !in next.refreshing ==> next.backend.photos[id] == st.backend.photos[id])
    // a delta that leaves the queue is being refreshed
    && (forall i :: 0 <= i < |next.queue| ==> next.queue[i] in st.queue)
    && (forall i :: 0 <= i < |st.queue| ==> st.queue[i] in next.queue || IsRefreshed(next, st.queue[i]))
  }

  lemma ModifiesKeeps(st: State, next: State)
    requires Inv(st) && st.refreshing == {} && Modifies(st, next)
    ensures Inv(next)
  {
    forall o | o in next.objects
      ensures Pending(next, o) || Agrees(next, o)
    {
      var id := st.objects[o].id;
      if id !in next.refreshing && Pending(st, o) {
        if i :| 0 <= i < |st.queue| && st.queue[i].id == Some(id) {
          assert st.queue[i] in next.queue;
          var j :| 0 <= j < |next.queue| && next.queue[j] == st.queue[i];
        }
      }
    }
  }

  lemma RunQueuedModifies(st: State)
    requires Inv(st) && Enabled(st, RunQueued)
    ensures Modifies(st, Take(st, RunQueued))
  {
    var next := Take(st, RunQueued);
    forall id | id in st.backend.photos
      ensures next.backend.photos[id].id == Some(id)
      ensures id !in next.refreshing ==> next.backend.photos[id] == st.backend.photos[id]
    {
      UpdateTouchesOnly(st.backend, [st.queue[0]], id);
    }
    assert [st.queue[0]][0].id.value in next.refreshing;
    forall i | 0 <= i < |st.queue|
      ensures st.queue[i] in next.queue || IsRefreshed(next, st.queue[i])
    {
      if i > 0 {
        assert next.queue[i - 1] == st.queue[i];
      }
    }
  }

  /** A batch on a state with the same photos touches the photos it names. */
  lemma BatchModifies(st: State, next: State, s: Album, deltas: seq<Delta>)
    requires Inv(st) && s.photos == st.backend.photos && AllNamed(s, deltas)
    requires next == st.(backend := Update(s, deltas), refreshing := Touched(deltas))
    ensures Modifies(st, next)
  {
    forall id | id in s.photos
      ensures Update(s, deltas).photos[id].id == Some(id)
      ensures id !in Touched(deltas) ==> Update(s, deltas).photos[id] == s.photos[id]
    {
      UpdateTouchesOnly(s, deltas, id);
    }
  }

  lemma RunAddGroupModifies(st: State, representative: int, kind: int)
    requires Inv(st) && Enabled(st, RunAddGroup(representative, kind))
    ensures Modifies(st, Take(st, RunAddGroup(representative, kind)))
  {
    var s := st.backend;
    var t := WithGroup(s, representative, kind);
    var deltas := [GroupDelta(representative, GroupInfo(Some(s.nextGroup), Representative))];
    assert Touched(deltas) == {representative} by {
      assert deltas[0].id == Some(representative);
    }
    BatchModifies(st, Take(st, RunAddGroup(representative, kind)), t, deltas);
  }

  lemma RunRemoveGroupModifies(st: State, gid: int)
    requires Inv(st) && st.refreshing == {}
    ensures Modifies(st, Take(st, RunRemoveGroup(gid)))
  {
    var s := st.backend;
    if gid in s.groups {
      BatchModifies(st, Take(st, RunRemoveGroup(gid)), s.(groups := s.groups - {gid}),
                    ClearDeltas(PhotosOfGroup(s.photos, gid, s.nextPhoto)));
    }
  }

  /** Is the photo named by the step: by a delta, as the representative, or as one of the group? */
  ghost predicate NamedBy(st: State, step: Step, id: int) {
    match step
    case RunQueued => st.queue != [] && st.queue[0].id == Some(id)
    case RunUpdate(deltas) => exists i :: 0 <= i < |deltas| && deltas[i].id == Some(id)
    case RunAddGroup(representative, _) => id == representative
    case RunRemoveGroup(gid) => gid in st.backend.groups && id in st.backend.photos && InGroup(st.backend.photos[id], gid)
    case _ => false
  }

  /** A database step refreshes exactly the photos it names. */
  lemma RefreshesExactly(st: State, step: Step, id: int)
    requires IdsBelowCounters(st.backend) && Enabled(st, step)
    requires step.RunQueued? || step.RunUpdate? || step.RunAddGroup? || step.RunRemoveGroup?
    ensures id in Take(st, step).refreshing <==> NamedBy(st, step, id)
  {
    match step
    case RunRemoveGroup(gid) =>
      if gid in st.backend.groups {
        ClearedAreMembers(st.backend, gid, id);
      }
    case RunQueued => assert [st.queue[0]][0] == st.queue[0];
    case _ =>
  }

  lemma ClearedAreMembers(s: Album, gid: int, id: int)
    requires IdsBelowCounters(s) && gid in s.groups
    ensures id in GroupCleared(s, gid) <==> id in s.photos && InGroup(s.photos[id], gid)
  {
    var ids := PhotosOfGroup(s.photos, gid, s.nextPhoto);
    if id >= 0 {
      InPhotosOfGroup(s.photos, gid, s.nextPhoto, id);
    }
    forall x | x in ids
      ensures x in GroupCleared(s, gid)
    {
      var i :| 0 <= i < |ids| && ids[i] == x;
      assert ClearDeltas(ids)[i].id == Some(x);
    }
  }

  // ---------------------------------------------------------------------------
  // Client steps
  // ---------------------------------------------------------------------------

  lemma StillPending(st: State, next: State, o: nat)
    requires o in st.objects && o in next.objects && next.objects[o].id == st.objects[o].id && Pending(st, o)
    requires st.queue <= next.queue && next.refreshing == st.refreshing
    requires forall i :: 0 <= i < |st.marking| && st.marking[i].owner == o ==> st.marking[i] in next.marking
    ensures Pending(next, o)
  {
    if i :| 0 <= i < |st.queue| && st.queue[i].id == Some(st.objects[o].id) {
      assert next.queue[i] == st.queue[i];
    } else if i :| 0 <= i < |st.marking| && st.marking[i].owner == o {
      var j :| 0 <= j < |next.marking| && next.marking[j] == st.marking[i];
    }
  }

  lemma SetKeeps(st: State, o: nat, change: Change)
    requires Inv(st) && Enabled(st, Set(o, change))
    ensures Inv(Take(st, Set(o, change)))
  {
    var next := Take(st, Set(o, change));
    var last := |st.queue|;
    assert next.queue[last].id == Some(st.objects[o].id);
    forall p | p in next.objects
      ensures Pending(next, p) || Agrees(next, p)
    {
      if p != o && Pending(st, p) {
        StillPending(st, next, p);
      }
    }
  }

  lemma BeginMarkKeeps(st: State, mark: Mark)
    requires Inv(st) && Enabled(st, BeginMark(mark))
    ensures Inv(Take(st, BeginMark(mark)))
  {
    var next := Take(st, BeginMark(mark));
    assert next.marking[|st.marking|] == mark;
    forall p | p in next.objects
      ensures Pending(next, p) || Agrees(next, p)
    {
      if p != mark.owner && Pending(st, p) {
        StillPending(st, next, p);
      }
    }
  }

  lemma EndMarkKeeps(st: State, i: nat)
    requires Inv(st) && Enabled(st, EndMark(i))
    ensures Inv(Take(st, EndMark(i)))
  {
    var next := Take(st, EndMark(i));
    var o := st.marking[i].owner;
    assert next.queue[|st.queue|].id == Some(st.objects[o].id);
    forall p | p in next.objects
      ensures Pending(next, p) || Agrees(next, p)
    {
      if p != o && Pending(st, p) {
        forall k | 0 <= k < |st.marking| && st.marking[k].owner == p
          ensures st.marking[k] in next.marking
        {
          OthersStay(st.marking, i, k);
        }
        StillPending(st, next, p);
      }
    }
  }

  lemma OthersStay(s: seq<Mark>, i: nat, k: nat)
    requires i < |s| && k < |s| && k != i
    ensures s[k] in s[..i] + s[i + 1..]
  {
    if k < i {
      assert (s[..i] + s[i + 1..])[k] == s[k];
    } else {
      assert (s[..i] + s[i + 1..])[k - 1] == s[k];
    }
  }

  lemma GetKeeps(st: State, id: int)
    requires Inv(st) && Enabled(st, Get(id))
    ensures Inv(Take(st, Get(id))) && IsLive(Take(st, Get(id)), id)
  {
    var next := Take(st, Get(id));
    forall p | p in next.objects
      ensures Pending(next, p) || Agrees(next, p)
    {
      if p in st.objects && Pending(st, p) {
        StillPending(st, next, p);
      }
    }
  }

  lemma ForgetKeeps(st: State, o: nat)
    requires Inv(st) && Enabled(st, Forget(o))
    ensures Inv(Take(st, Forget(o)))
  {
    var next := Take(st, Forget(o));
    forall p | p in next.objects
      ensures Pending(next, p) || Agrees(next, p)
    {
      if Pending(st, p) {
        StillPending(st, next, p);
      }
    }
  }

  lemma RefreshKeeps(st: State, photo: int)
    requires Inv(st) && Enabled(st, Refresh(photo))
    ensures Inv(Take(st, Refresh(photo)))
  {
    var next := Take(st, Refresh(photo));
    forall p | p in next.objects
      ensures Pending(next, p) || Agrees(next, p)
    {
      if st.objects[p].id != photo && Pending(st, p) {
        if i :| 0 <= i < |st.queue| && st.queue[i].id == Some(st.objects[p].id) {
          assert next.queue[i].id == Some(next.objects[p].id);
        } else if i :| 0 <= i < |st.marking| && st.marking[i].owner == p {
          assert next.marking[i].owner == p;
        }
      }
    }
  }

  lemma StepKeeps(st: State, step: Step)
    requires Inv(st) && Enabled(st, step)
    ensures Inv(Take(st, step))
  {
    match step
    case Get(id) => GetKeeps(st, id);
    case Forget(o) => ForgetKeeps(st, o);
    case Set(o, change) => SetKeeps(st, o, change);
    case BeginMark(mark) => BeginMarkKeeps(st, mark);
    case EndMark(i) => EndMarkKeeps(st, i);
    case RunQueued => RunQueuedModifies(st); ModifiesKeeps(st, Take(st, step));
    case RunUpdate(deltas) => BatchModifies(st, Take(st, step), st.backend, deltas); ModifiesKeeps(st, Take(st, step));
    case RunAddGroup(r, kind) => RunAddGroupModifies(st, r, kind); ModifiesKeeps(st, Take(st, step));
    case RunRemoveGroup(gid) => RunRemoveGroupModifies(st, gid); ModifiesKeeps(st, Take(st, step));
    case Refresh(photo) => RefreshKeeps(st, photo);
  }

  // ---------------------------------------------------------------------------
  // Runs
  // ---------------------------------------------------------------------------

  function Init(album: Album): State {
    State(album, map[], map[], 0, [], {}, [])
  }

  ghost predicate Runs(st: State, steps: seq<Step>, last: State)
    decreases |steps|
  {
    if steps == [] then st == last else Enabled(st, steps[0]) && Runs(Take(st, steps[0]), steps[1..], last)
  }

  /** In every interleaving there is at most one live object for a photo, and one with nothing pending is the backend's record. */
  lemma {:induction false} EveryRunKeeps(st: State, steps: seq<Step>, last: State)
    requires Inv(st) && Runs(st, steps, last)
    ensures Inv(last)
    decreases |steps|
  {
    if steps != [] {
      StepKeeps(st, steps[0]);
      EveryRunKeeps(Take(st, steps[0]), steps[1..], last);
    }
  }

  lemma StartsInStep(album: Album)
    requires IdsBelowCounters(album)
    ensures Inv(Init(album))
  {
  }

  ghost predicate Quiet(st: State) {
    st.queue == [] && st.refreshing == {} && st.marking == []
  }

  lemma QuietMeansEqual(st: State, o: nat)
    requires Inv(st) && Quiet(st) && o in st.objects
    ensures Agrees(st, o)
  {
    assert !Pending(st, o);
  }

  /** Steps that only carry on with what is pending. */
  ghost predicate OnlyDatabase(steps: seq<Step>) {
    forall i :: 0 <= i < |steps| ==> steps[i].RunQueued? || steps[i].Refresh?
  }

  ghost predicate OnlySettling(steps: seq<Step>) {
    forall i :: 0 <= i < |steps| ==> steps[i].RunQueued? || steps[i].Refresh? || steps[i].EndMark?
  }

  lemma {:induction false} RunsConcat(st: State, a: seq<Step>, middle: State, b: seq<Step>, last: State)
    requires Runs(st, a, middle) && Runs(middle, b, last)
    ensures Runs(st, a + b, last)
    decreases |a|
  {
    if a == [] {
      assert a + b == b;
    } else {
      RunsConcat(Take(st, a[0]), a[1..], middle, b, last);
      assert (a + b)[0] == a[0] && (a + b)[1..] == a[1..] + b;
    }
  }

  /** The database thread can always run the queue to its end. */
  lemma {:induction false} Drains(st: State) returns (steps: seq<Step>, last: State)
    requires Inv(st)
    ensures Runs(st, steps, last) && OnlyDatabase(steps)
    ensures last.queue == [] && last.refreshing == {} && last.marking == st.marking
    decreases |st.queue|, |st.refreshing|
  {
    if st.queue == [] && st.refreshing == {} {
      steps, last := [], st;
    } else {
      var step := NextStep(st);
      StepKeeps(st, step);
      var rest;
      rest, last := Drains(Take(st, step));
      steps := [step] + rest;
      assert steps[1..] == rest;
    }
  }

  lemma NextStep(st: State) returns (step: Step)
    requires Inv(st) && !(st.queue == [] && st.refreshing == {})
    ensures Enabled(st, step) && (step.RunQueued? || step.Refresh?)
    ensures var next := Take(st, step);
            && next.marking == st.marking
            && (|next.queue| < |st.queue| || (next.queue == st.queue && |next.refreshing| < |st.refreshing|))
  {
    if st.refreshing != {} {
      var photo := MemberOf(st.refreshing);
      step := Refresh(photo);
      assert st.refreshing - {photo} < st.refreshing;
    } else {
      step := RunQueued;
    }
  }

  /** Whatever is pending can always be run to its end, and then all live objects are the backend's records. */
  lemma {:induction false} Settles(st: State) returns (steps: seq<Step>, last: State)
    requires Inv(st)
    ensures Runs(st, steps, last) && OnlySettling(steps) && Quiet(last)
    ensures forall o :: o in last.objects ==> Agrees(last, o)
    decreases |st.marking|
  {
    if st.marking == [] {
      steps, last := Drains(st);
      EveryRunKeeps(st, steps, last);
      forall o | o in last.objects
        ensures Agrees(last, o)
      {
        QuietMeansEqual(last, o);
      }
    } else {
      StepKeeps(st, EndMark(0));
      var rest;
      rest, last := Settles(Take(st, EndMark(0)));
      steps := [EndMark(0)] + rest;
      assert steps[1..] == rest;
    }
  }

  // ---------------------------------------------------------------------------
  // One object as it is kept
  // ---------------------------------------------------------------------------

  class UpdateQueue {
    var pending: seq<Delta>

    constructor ()
      ensures pending == []
    {
      pending := [];
    }

    method Update(delta: Delta)
      modifies this
      ensures pending == old(pending) + [delta]
    {
      pending := pending + [delta];
    }
  }

  class PhotoInfo {
    var data: Data
    const storekeeper: UpdateQueue

    constructor (data: Data, storekeeper: UpdateQueue)
      ensures this.data == data && this.storekeeper == storekeeper
    {
      this.data, this.storekeeper := data, storekeeper;
    }

    /** Under one lock: the local copy changes, and the delta is queued. */
    twostate predicate Did(change: Change)
      reads this, storekeeper
    {
      && data == Changed(old(data), change)
      && storekeeper.pending == old(storekeeper.pending) + [DeltaOf(data, change)]
    }

    method SetSha256Sum(sha256: string)
      requires Settable(data, SetSha256(sha256))
      modifies this, storekeeper
      ensures Did(SetSha256(sha256))
    {
      data := data.(sha256 := sha256, flags := data.flags[Sha256Loaded := 1]);
      var delta := EmptyDelta(data.id).(checksum := Some(data.sha256), flags := Some(data.flags));
      storekeeper.Update(delta);
    }

    method SetSize(size: Size)
      requires Settable(data, SetGeometry(size))
      modifies this, storekeeper
      ensures Did(SetGeometry(size))
    {
      data := data.(geometry := size, flags := data.flags[GeometryLoaded := 1]);
      var delta := EmptyDelta(data.id).(geometry := Some(data.geometry), flags := Some(data.flags));
      storekeeper.Update(delta);
    }

    method SetAllTags(tags: map<TagType, Option<string>>)
      modifies this, storekeeper
      ensures Did(SetTags(tags))
    {
      var merged := InsertTags(data.tags, tags);
      data := data.(tags := merged);
      var delta := EmptyDelta(data.id).(tags := Some(data.tags));
      storekeeper.Update(delta);
    }

    /** Inserts tag by tag; a tag that is already there stays. */
    static method InsertTags(own: Tags, tags: map<TagType, Option<string>>) returns (r: Tags)
      ensures r == WithTags(own, tags)
    {
      r := own;
      var todo := tags.Keys;
      MergedAll(own, tags);
      assert tags.Keys - todo == {};
      while todo != {}
        invariant todo <= tags.Keys
        invariant r == Merged(own, tags, tags.Keys - todo)
        decreases |todo|
      {
        var t :| t in todo;
        MergedMore(own, tags, tags.Keys - todo, t);
        if tags[t].Some? && t !in r {
          r := r[t := tags[t].value];
        }
        assert tags.Keys - (todo - {t}) == (tags.Keys - todo) + {t};
        todo := todo - {t};
      }
      MergedAll(own, tags);
    }

    method SetOneTag(name: TagType, value: Option<string>)
      modifies this, storekeeper
      ensures Did(SetTag(name, value))
    {
      match value {
        case None => data := data.(tags := data.tags - {name});
        case Some(v) => data := data.(tags := data.tags[name := v]);
      }
      var delta := EmptyDelta(data.id).(tags := Some(data.tags));
      storekeeper.Update(delta);
    }

    method SetGroupInfo(group: GroupInfo)
      modifies this, storekeeper
      ensures Did(SetGroup(group))
    {
      data := data.(group := group);
      var delta := EmptyDelta(data.id).(group := Some(data.group));
      storekeeper.Update(delta);
    }
  }
}
