/** The in-memory backend: photos, groups and the change log. */
module MemoryBackend {
  import opened Common
  import opened Photos
  import opened ChangeLog
  import opened ChangeUndo

  datatype GroupRecord = GroupRecord(representative: int, kind: int)

  /** The whole state as a value. */
  datatype Album = Album(
    photos: map<int, Data>,
    groups: map<int, GroupRecord>,
    log: seq<Entry>,
    nextPhoto: nat,
    nextGroup: nat)

  const EMPTY_ALBUM := Album(map[], map[], [], 0, 0)

  // ---------------------------------------------------------------------------
  // What the operations do to the state
  // ---------------------------------------------------------------------------

  function AddPhoto(s: Album, delta: Delta): Album {
    var id := s.nextPhoto;
    s.(photos := s.photos[id := Apply(NO_DATA, delta.(id := Some(id)))], nextPhoto := id + 1)
  }

  function AddPhotos(s: Album, deltas: seq<Delta>): Album
    decreases |deltas|
  {
    if deltas == [] then s else AddPhotos(AddPhoto(s, deltas[0]), deltas[1..])
  }

  predicate Names(s: Album, delta: Delta) {
    delta.id.Some? && delta.id.value in s.photos
  }

  function UpdateOne(s: Album, delta: Delta): Album
    requires Names(s, delta)
  {
    var id := delta.id.value;
    var data := s.photos[id];
    s.(photos := s.photos[id := Apply(data, delta)], log := s.log + Difference(id, data, delta))
  }

  predicate AllNamed(s: Album, deltas: seq<Delta>) {
    forall i :: 0 <= i < |deltas| ==> Names(s, deltas[i])
  }

  function Update(s: Album, deltas: seq<Delta>): (t: Album)
    requires AllNamed(s, deltas)
    ensures t.photos.Keys == s.photos.Keys && t.groups == s.groups
    ensures t.nextPhoto == s.nextPhoto && t.nextGroup == s.nextGroup
    decreases |deltas|
  {
    if deltas == [] then s
    else
      var next := UpdateOne(s, deltas[0]);
      assert AllNamed(next, deltas[1..]);
      Update(next, deltas[1..])
  }

  function WithGroup(s: Album, representative: int, kind: int): Album {
    s.(groups := s.groups[s.nextGroup := GroupRecord(representative, kind)], nextGroup := s.nextGroup + 1)
  }

  function AddGroup(s: Album, representative: int, kind: int): Album
    requires representative in s.photos
  {
    Update(WithGroup(s, representative, kind), [GroupDelta(representative, GroupInfo(Some(s.nextGroup), Representative))])
  }

  predicate InGroup(d: Data, gid: int) {
    d.group.role != NoRole && d.group.groupId == Some(gid)
  }

  /** Ids below n of the photos of a group, in ascending order. */
  function PhotosOfGroup(photos: map<int, Data>, gid: int, n: nat): (ids: seq<int>)
    ensures forall i :: 0 <= i < |ids| ==> ids[i] in photos && ids[i] < n
  {
    if n == 0 then []
    else PhotosOfGroup(photos, gid, n - 1) + (if n - 1 in photos && InGroup(photos[n - 1], gid) then [n - 1] else [])
  }

  function ClearDeltas(ids: seq<int>): (deltas: seq<Delta>)
    ensures |deltas| == |ids|
    ensures forall i :: 0 <= i < |ids| ==> deltas[i] == GroupDelta(ids[i], NO_GROUP)
  {
    seq(|ids|, i requires 0 <= i < |ids| => GroupDelta(ids[i], NO_GROUP))
  }

  function RemoveGroup(s: Album, gid: int): Album {
    if gid !in s.groups then s
    else
      var t := s.(groups := s.groups - {gid});
      Update(t, ClearDeltas(PhotosOfGroup(t.photos, gid, t.nextPhoto)))
  }

  /** The representative with the greatest id, or none. */
  function RepresentativeOf(photos: map<int, Data>, gid: int, n: nat): Option<int> {
    if n == 0 then None
    else if n - 1 in photos && InGroup(photos[n - 1], gid) && photos[n - 1].group.role == Representative then Some(n - 1)
    else RepresentativeOf(photos, gid, n - 1)
  }

  // ---------------------------------------------------------------------------
  // What every run keeps
  // ---------------------------------------------------------------------------

  /** A photo has a role exactly when it has a group, and that group is live. */
  predicate GroupLive(s: Album, g: GroupInfo) {
    g.Valid() && (g.groupId.Some? ==> g.groupId.value in s.groups)
  }

  ghost predicate IdsBelowCounters(s: Album) {
    && (forall id :: id in s.photos ==> 0 <= id < s.nextPhoto && s.photos[id].id == Some(id))
    && (forall gid :: gid in s.groups ==> 0 <= gid < s.nextGroup)
  }

  ghost predicate NoDanglingGroups(s: Album) {
    forall id :: id in s.photos ==> GroupLive(s, s.photos[id].group)
  }

  /** Replaying the log over each photo as it was first added gives its current tags and group. */
  ghost predicate LogReconstructs(s: Album, first: map<int, Replayed>) {
    && first.Keys == s.photos.Keys
    && (forall i :: 0 <= i < |s.log| ==> s.log[i].photo in s.photos)
    && (forall id :: id in s.photos ==> Replay(s.log, id, first[id]) == Recorded(s.photos[id]))
  }

  /** Undoing the log over each photo's current tags and group gives them as first added. */
  ghost predicate LogTakesBack(s: Album, first: map<int, Replayed>) {
    forall id :: id in s.photos && id in first ==> Undo(s.log, id, Recorded(s.photos[id])) == first[id]
  }

  ghost predicate Inv(s: Album, first: map<int, Replayed>) {
    IdsBelowCounters(s) && NoDanglingGroups(s) && LogReconstructs(s, first) && LogTakesBack(s, first)
  }

  /** A delta may only put a photo into a live group. */
  predicate KeepsGroupsLive(s: Album, delta: Delta) {
    delta.group.Some? ==> GroupLive(s, delta.group.value)
  }

  function FirstAfterAdd(first: map<int, Replayed>, s: Album, deltas: seq<Delta>): map<int, Replayed>
    decreases |deltas|
  {
    if deltas == [] then first
    else
      var next := AddPhoto(s, deltas[0]);
      FirstAfterAdd(first[s.nextPhoto := Recorded(next.photos[s.nextPhoto])], next, deltas[1..])
  }

  lemma {:induction false} ReplayUnmentioned(log: seq<Entry>, photo: int, st: Replayed)
    requires forall i :: 0 <= i < |log| ==> log[i].photo != photo
    ensures Replay(log, photo, st) == st
    decreases |log|
  {
    if log != [] {
      ReplayUnmentioned(log[1..], photo, st);
    }
  }

  /** A photo the log does not mention yet is as it was first added. */
  lemma AddPhotoKeepsLog(s: Album, first: map<int, Replayed>, data: Data)
    requires LogReconstructs(s, first) && s.nextPhoto !in s.photos
    ensures LogReconstructs(s.(photos := s.photos[s.nextPhoto := data], nextPhoto := s.nextPhoto + 1), first[s.nextPhoto := Recorded(data)])
  {
    ReplayUnmentioned(s.log, s.nextPhoto, Recorded(data));
  }

  lemma {:induction false} UndoUnmentioned(log: seq<Entry>, photo: int, st: Replayed)
    requires forall i :: 0 <= i < |log| ==> log[i].photo != photo
    ensures Undo(log, photo, st) == st
    decreases |log|
  {
    if log != [] {
      UndoUnmentioned(log[1..], photo, st);
    }
  }

  lemma AddPhotoTakesBack(s: Album, first: map<int, Replayed>, data: Data)
    requires LogReconstructs(s, first) && LogTakesBack(s, first) && s.nextPhoto !in s.photos
    ensures LogTakesBack(s.(photos := s.photos[s.nextPhoto := data], nextPhoto := s.nextPhoto + 1), first[s.nextPhoto := Recorded(data)])
  {
    UndoUnmentioned(s.log, s.nextPhoto, Recorded(data));
  }

  lemma AddPhotoKeepsGroups(s: Album, delta: Delta)
    requires IdsBelowCounters(s) && NoDanglingGroups(s) && KeepsGroupsLive(s, delta)
    ensures IdsBelowCounters(AddPhoto(s, delta)) && NoDanglingGroups(AddPhoto(s, delta))
  {
  }

  lemma AddPhotoKeeps(s: Album, first: map<int, Replayed>, delta: Delta)
    requires Inv(s, first) && KeepsGroupsLive(s, delta)
    ensures var t := AddPhoto(s, delta);
            Inv(t, first[s.nextPhoto := Recorded(t.photos[s.nextPhoto])])
  {
    var t, newId := AddPhoto(s, delta), s.nextPhoto;
    assert newId !in s.photos;
    AddPhotoKeepsGroups(s, delta);
    AddPhotoKeepsLog(s, first, t.photos[newId]);
    AddPhotoTakesBack(s, first, t.photos[newId]);
  }

  lemma {:induction false} AddPhotosKeep(s: Album, first: map<int, Replayed>, deltas: seq<Delta>)
    requires Inv(s, first)
    requires forall i :: 0 <= i < |deltas| ==> KeepsGroupsLive(s, deltas[i])
    ensures Inv(AddPhotos(s, deltas), FirstAfterAdd(first, s, deltas))
    decreases |deltas|
  {
    if deltas != [] {
      AddPhotoKeeps(s, first, deltas[0]);
      var next := AddPhoto(s, deltas[0]);
      AddPhotosKeep(next, first[s.nextPhoto := Recorded(next.photos[s.nextPhoto])], deltas[1..]);
    }
  }

  /** The log part of one update needs the photo's old group to be well formed, not to be live. */
  ghost predicate RolesValid(s: Album) {
    forall id :: id in s.photos ==> s.photos[id].group.Valid()
  }

  lemma UpdateOneKeepsLog(s: Album, first: map<int, Replayed>, delta: Delta)
    requires RolesValid(s) && LogReconstructs(s, first) && Names(s, delta)
    requires delta.group.Some? ==> delta.group.value.Valid()
    ensures RolesValid(UpdateOne(s, delta)) && LogReconstructs(UpdateOne(s, delta), first)
  {
    var id := delta.id.value;
    var data := s.photos[id];
    var more := Difference(id, data, delta);
    DifferenceOfPhoto(id, data, delta);
    var t := UpdateOne(s, delta);
    forall x | x in t.photos
      ensures Replay(t.log, x, first[x]) == Recorded(t.photos[x])
    {
      ReplayConcat(s.log, more, x, first[x]);
      if x == id {
        ReplayDifference(id, data, delta);
      } else {
        ReplayForeign(more, id, x, Replay(s.log, x, first[x]));
      }
    }
  }

  lemma UpdateOneTakesBack(s: Album, first: map<int, Replayed>, delta: Delta)
    requires RolesValid(s) && LogTakesBack(s, first) && Names(s, delta)
    requires delta.group.Some? ==> delta.group.value.Valid()
    ensures LogTakesBack(UpdateOne(s, delta), first)
  {
    var id := delta.id.value;
    var data := s.photos[id];
    var more := Difference(id, data, delta);
    DifferenceOfPhoto(id, data, delta);
    var t := UpdateOne(s, delta);
    forall x | x in t.photos && x in first
      ensures Undo(t.log, x, Recorded(t.photos[x])) == first[x]
    {
      UndoConcat(s.log, more, x, Recorded(t.photos[x]));
      if x == id {
        UndoDifference(id, data, delta);
      } else {
        UndoForeign(more, id, x, Recorded(t.photos[x]));
      }
    }
  }

  lemma {:induction false} UpdateKeepsLog(s: Album, first: map<int, Replayed>, deltas: seq<Delta>)
    requires RolesValid(s) && LogReconstructs(s, first) && LogTakesBack(s, first) && AllNamed(s, deltas)
    requires forall i :: 0 <= i < |deltas| ==> (deltas[i].group.Some? ==> deltas[i].group.value.Valid())
    ensures RolesValid(Update(s, deltas)) && LogReconstructs(Update(s, deltas), first) && LogTakesBack(Update(s, deltas), first)
    decreases |deltas|
  {
    if deltas != [] {
      UpdateOneKeepsLog(s, first, deltas[0]);
      UpdateOneTakesBack(s, first, deltas[0]);
      var next := UpdateOne(s, deltas[0]);
      assert AllNamed(next, deltas[1..]);
      UpdateKeepsLog(next, first, deltas[1..]);
    }
  }

  /** A batch changes exactly the photos it names, each by its own deltas in order. */
  lemma {:induction false} UpdateRecord(s: Album, deltas: seq<Delta>, id: int)
    requires AllNamed(s, deltas) && id in s.photos
    ensures Update(s, deltas).photos[id] == ApplyMine(id, s.photos[id], deltas)
    decreases |deltas|
  {
    if deltas != [] {
      var next := UpdateOne(s, deltas[0]);
      assert AllNamed(next, deltas[1..]);
      UpdateRecord(next, deltas[1..], id);
    }
  }

  lemma {:induction false} ApplyMineKeeps(s: Album, id: int, data: Data, deltas: seq<Delta>)
    requires data.id == Some(id) && GroupLive(s, data.group)
    requires forall i :: 0 <= i < |deltas| ==> KeepsGroupsLive(s, deltas[i])
    ensures var d := ApplyMine(id, data, deltas); d.id == Some(id) && GroupLive(s, d.group)
    decreases |deltas|
  {
    if deltas != [] {
      ApplyMineKeeps(s, id, if deltas[0].id == Some(id) then Apply(data, deltas[0]) else data, deltas[1..]);
    }
  }

  lemma UpdateKeeps(s: Album, first: map<int, Replayed>, deltas: seq<Delta>)
    requires Inv(s, first) && AllNamed(s, deltas)
    requires forall i :: 0 <= i < |deltas| ==> KeepsGroupsLive(s, deltas[i])
    ensures Inv(Update(s, deltas), first)
  {
    UpdateKeepsLog(s, first, deltas);
    forall id | id in s.photos
      ensures var d := Update(s, deltas).photos[id]; d.id == Some(id) && GroupLive(s, d.group)
    {
      UpdateRecord(s, deltas, id);
      ApplyMineKeeps(s, id, s.photos[id], deltas);
    }
  }

  lemma WithGroupKeeps(s: Album, first: map<int, Replayed>, representative: int, kind: int)
    requires Inv(s, first)
    ensures Inv(WithGroup(s, representative, kind), first)
  {
  }

  lemma AddGroupKeeps(s: Album, first: map<int, Replayed>, representative: int, kind: int)
    requires Inv(s, first) && representative in s.photos
    ensures Inv(AddGroup(s, representative, kind), first)
    ensures AddGroup(s, representative, kind).photos
         == s.photos[representative := s.photos[representative].(group := GroupInfo(Some(s.nextGroup), Representative))]
  {
    var t := WithGroup(s, representative, kind);
    var delta := GroupDelta(representative, GroupInfo(Some(s.nextGroup), Representative));
    WithGroupKeeps(s, first, representative, kind);
    UpdateKeeps(t, first, [delta]);
    assert Update(t, [delta]) == UpdateOne(t, delta);
  }

  /** The new group has the next id, this representative and this kind; the other groups stay. */
  lemma NewGroupMeans(s: Album, representative: int, kind: int)
    requires IdsBelowCounters(s) && representative in s.photos
    ensures var t, gid := AddGroup(s, representative, kind), s.nextGroup;
            && gid !in s.groups && gid in t.groups && t.nextGroup == gid + 1
            && t.groups[gid].representative == representative && t.groups[gid].kind == kind
            && forall g :: g in s.groups ==> g in t.groups && t.groups[g] == s.groups[g]
  {
  }

  // Removing a group

  lemma {:induction false} InPhotosOfGroup(photos: map<int, Data>, gid: int, n: nat, id: int)
    requires id >= 0
    ensures id in PhotosOfGroup(photos, gid, n) <==> id < n && id in photos && InGroup(photos[id], gid)
  {
    if n > 0 {
      InPhotosOfGroup(photos, gid, n - 1, id);
    }
  }

  lemma {:induction false} ApplyClears(id: int, data: Data, ids: seq<int>)
    requires data.id == Some(id)
    ensures ApplyMine(id, data, ClearDeltas(ids)) == if id in ids then data.(group := NO_GROUP) else data
    decreases |ids|
  {
    if ids != [] {
      assert ClearDeltas(ids)[1..] == ClearDeltas(ids[1..]);
      ApplyClears(id, if ids[0] == id then data.(group := NO_GROUP) else data, ids[1..]);
    }
  }

  /** Removing a group takes it away, clears exactly its photos and changes no other photo. */
  lemma RemoveGroupClearsExactly(s: Album, first: map<int, Replayed>, gid: int)
    requires Inv(s, first)
    ensures RemoveGroup(s, gid).groups == s.groups - {gid}
    ensures RemoveGroup(s, gid).photos.Keys == s.photos.Keys
    ensures forall id :: id in s.photos ==>
      RemoveGroup(s, gid).photos[id]
        == if s.photos[id].group.groupId == Some(gid) then s.photos[id].(group := NO_GROUP) else s.photos[id]
  {
    if gid in s.groups {
      var t := s.(groups := s.groups - {gid});
      var ids := PhotosOfGroup(t.photos, gid, t.nextPhoto);
      assert AllNamed(t, ClearDeltas(ids));
      forall id | id in s.photos
        ensures RemoveGroup(s, gid).photos[id]
             == if s.photos[id].group.groupId == Some(gid) then s.photos[id].(group := NO_GROUP) else s.photos[id]
      {
        UpdateRecord(t, ClearDeltas(ids), id);
        ApplyClears(id, t.photos[id], ids);
        InPhotosOfGroup(t.photos, gid, t.nextPhoto, id);
      }
    }
  }

  lemma RemoveGroupKeeps(s: Album, first: map<int, Replayed>, gid: int)
    requires Inv(s, first)
    ensures Inv(RemoveGroup(s, gid), first)
  {
    RemoveGroupClearsExactly(s, first, gid);
    if gid in s.groups {
      var t := s.(groups := s.groups - {gid});
      UpdateKeepsLog(t, first, ClearDeltas(PhotosOfGroup(t.photos, gid, t.nextPhoto)));
    }
  }

  predicate Represents(photos: map<int, Data>, gid: int, id: int) {
    id in photos && photos[id].group == GroupInfo(Some(gid), Representative)
  }

  /** The answer is a photo with the role of representative in the group, the one with the greatest id; none exactly when
      there is no such photo. */
  lemma {:induction false} RepresentativeMeans(photos: map<int, Data>, gid: int, n: nat)
    ensures match RepresentativeOf(photos, gid, n)
      case Some(id) => 0 <= id < n && Represents(photos, gid, id) && forall x :: id < x < n ==> !Represents(photos, gid, x)
      case None => forall x :: 0 <= x < n ==> !Represents(photos, gid, x)
  {
    if n > 0 {
      RepresentativeMeans(photos, gid, n - 1);
    }
  }

  /** New photos get the next ids in order, each with the record its delta describes; nothing else changes. */
  lemma {:induction false} AddPhotosRecord(s: Album, deltas: seq<Delta>, id: int)
    requires forall x :: x in s.photos ==> x < s.nextPhoto
    ensures var t, k := AddPhotos(s, deltas), id - s.nextPhoto;
            && (id in t.photos <==> id in s.photos || 0 <= k < |deltas|)
            && (id in s.photos ==> t.photos[id] == s.photos[id])
            && (0 <= k < |deltas| ==> t.photos[id] == Apply(NO_DATA, deltas[k].(id := Some(id))))
            && t.groups == s.groups && t.log == s.log && t.nextGroup == s.nextGroup && t.nextPhoto == s.nextPhoto + |deltas|
    decreases |deltas|
  {
    if deltas != [] {
      AddPhotosRecord(AddPhoto(s, deltas[0]), deltas[1..], id);
    }
  }

  // ---------------------------------------------------------------------------
  // Runs
  // ---------------------------------------------------------------------------

  datatype Op =
    | DoAddPhotos(deltas: seq<Delta>)
    | DoUpdate(deltas: seq<Delta>)
    | DoAddGroup(representative: int, kind: int)
    | DoRemoveGroup(gid: int)

  /** What callers have to respect: photos exist, and deltas only name live groups. */
  predicate Allowed(s: Album, op: Op) {
    match op
    case DoAddPhotos(deltas) => forall i :: 0 <= i < |deltas| ==> KeepsGroupsLive(s, deltas[i])
    case DoUpdate(deltas) => AllNamed(s, deltas) && forall i :: 0 <= i < |deltas| ==> KeepsGroupsLive(s, deltas[i])
    case DoAddGroup(representative, _) => representative in s.photos
    case DoRemoveGroup(_) => true
  }

  function Step(s: Album, op: Op): Album
    requires Allowed(s, op)
  {
    match op
    case DoAddPhotos(deltas) => AddPhotos(s, deltas)
    case DoUpdate(deltas) => Update(s, deltas)
    case DoAddGroup(representative, kind) => AddGroup(s, representative, kind)
    case DoRemoveGroup(gid) => RemoveGroup(s, gid)
  }

  function FirstStep(first: map<int, Replayed>, s: Album, op: Op): map<int, Replayed> {
    match op
    case DoAddPhotos(deltas) => FirstAfterAdd(first, s, deltas)
    case _ => first
  }

  /** A run and what it leads to, together with each photo's tags and group as first added. */
  ghost predicate Reaches(s: Album, first: map<int, Replayed>, ops: seq<Op>, t: Album, last: map<int, Replayed>)
    decreases |ops|
  {
    if ops == [] then t == s && last == first
    else Allowed(s, ops[0]) && Reaches(Step(s, ops[0]), FirstStep(first, s, ops[0]), ops[1..], t, last)
  }

  lemma StepKeeps(s: Album, first: map<int, Replayed>, op: Op)
    requires Inv(s, first) && Allowed(s, op)
    ensures Inv(Step(s, op), FirstStep(first, s, op))
  {
    match op
    case DoAddPhotos(deltas) => AddPhotosKeep(s, first, deltas);
    case DoUpdate(deltas) => UpdateKeeps(s, first, deltas);
    case DoAddGroup(representative, kind) => AddGroupKeeps(s, first, representative, kind);
    case DoRemoveGroup(gid) => RemoveGroupKeeps(s, first, gid);
  }

  /** Main result: in every run groups never dangle and the log reconstructs tags and groups. */
  lemma {:induction false} EveryRunKeeps(s: Album, first: map<int, Replayed>, ops: seq<Op>, t: Album, last: map<int, Replayed>)
    requires Inv(s, first) && Reaches(s, first, ops, t, last)
    ensures Inv(t, last)
    decreases |ops|
  {
    if ops != [] {
      StepKeeps(s, first, ops[0]);
      EveryRunKeeps(Step(s, ops[0]), FirstStep(first, s, ops[0]), ops[1..], t, last);
    }
  }

  lemma EmptyAlbumIsFine()
    ensures Inv(EMPTY_ALBUM, map[])
  {
  }

  // ---------------------------------------------------------------------------
  // The backend as it runs
  // ---------------------------------------------------------------------------

  class Backend {
    var photos: map<int, Data>
    var groups: map<int, GroupRecord>
    var logEntries: seq<Entry>
    var nextPhotoId: nat
    var nextGroup: nat

    constructor ()
      ensures State() == EMPTY_ALBUM
    {
      photos, groups, logEntries := map[], map[], [];
      nextPhotoId, nextGroup := 0, 0;
    }

    function State(): Album
      reads this
    {
      Album(photos, groups, logEntries, nextPhotoId, nextGroup)
    }

    /** Announces the ids of the new photos, in order. */
    method AddAll(deltas: seq<Delta>) returns (ids: seq<int>)
      modifies this
      ensures State() == AddPhotos(old(State()), deltas)
      ensures ids == seq(|deltas|, i => old(nextPhotoId) + i)
    {
      ids := [];
      var rest := deltas;
      while rest != []
        invariant AddPhotos(State(), rest) == AddPhotos(old(State()), deltas)
        invariant ids == seq(|deltas| - |rest|, i => old(nextPhotoId) + i)
        invariant |rest| <= |deltas| && nextPhotoId == old(nextPhotoId) + |deltas| - |rest|
        decreases |rest|
      {
        var id := nextPhotoId;
        var data := Apply(NO_DATA, rest[0].(id := Some(id)));
        photos := photos[id := data];
        ids := ids + [id];
        nextPhotoId := nextPhotoId + 1;
        rest := rest[1..];
      }
    }

    /** Announces the ids of the photos it modified. */
    method UpdateAll(deltas: seq<Delta>) returns (ids: set<int>)
      requires AllNamed(State(), deltas)
      modifies this
      ensures State() == Update(old(State()), deltas)
      ensures ids == set i | 0 <= i < |deltas| && deltas[i].id.Some? :: deltas[i].id.value
    {
      ids := {};
      for i := 0 to |deltas|
        invariant AllNamed(State(), deltas)
        invariant AllNamed(State(), deltas[i..])
        invariant Update(State(), deltas[i..]) == Update(old(State()), deltas)
        invariant ids == set j | 0 <= j < i && deltas[j].id.Some? :: deltas[j].id.value
      {
        assert Names(State(), deltas[i]);
        assert deltas[i..][1..] == deltas[i + 1..];
        var id := deltas[i].id.value;
        var data := photos[id];
        var entries := StoreDifference(id, data, deltas[i]);
        logEntries := logEntries + entries;
        photos := photos[id := Apply(data, deltas[i])];
        ids := ids + {id};
      }
      assert deltas[|deltas|..] == [];
    }

    method CreateGroup(representative: int, kind: int) returns (gid: int)
      requires representative in photos
      modifies this
      ensures State() == AddGroup(old(State()), representative, kind) && gid == old(nextGroup)
    {
      gid := nextGroup;
      nextGroup := nextGroup + 1;
      groups := groups[gid := GroupRecord(representative, kind)];
      var _ := UpdateAll([GroupDelta(representative, GroupInfo(Some(gid), Representative))]);
    }

    /** Returns the group's representative, if the group had one. */
    method DropGroup(gid: int) returns (representative: Option<int>)
      requires IdsBelowCounters(State())
      modifies this
      ensures State() == RemoveGroup(old(State()), gid)
      ensures representative == if gid in old(groups) then RepresentativeOf(old(photos), gid, old(nextPhotoId)) else None
    {
      representative := None;
      if gid in groups {
        groups := groups - {gid};
        var toClear: seq<int> := [];
        // the set of photos is visited in the order of their ids
        for id := 0 to nextPhotoId
          invariant toClear == PhotosOfGroup(photos, gid, id)
          invariant representative == RepresentativeOf(photos, gid, id)
        {
          if id in photos && photos[id].group.role != NoRole && photos[id].group.groupId == Some(gid) {
            toClear := toClear + [id];
            if photos[id].group.role == Representative {
              representative := Some(id);
            }
          }
        }
        var _ := UpdateAll(ClearDeltas(toClear));
      }
    }
  }
}
