/** Taking the change log back: undoing its entries, the newest first, leads to every earlier state. */
module ChangeUndo {
  import opened Common
  import opened Photos
  import opened Encoding
  import opened ChangeLog
  import MapCompare

  /** The old group and role of a modification. */
  function DecodeGroupBefore(s: string): Option<GroupInfo> {
    var items := Split(s, ',');
    if |items| != 2 then None
    else
      var ids, roles := Split(items[0], ' '), Split(items[1], ' ');
      if |ids| == 2 && |roles| == 2 then Some(GroupInfo(Some(ParseNumber(ids[0])), RoleOf(ParseNumber(roles[0])))) else None
  }

  /** The state before an entry was recorded. */
  function UndoEntry(e: Entry, st: Replayed): Replayed {
    match (e.field, e.operation)
    case (TagsField, Add) =>
      (match DecodeTag2(e.data) case Some((code, _)) => st.(tags := st.tags - {code}) case None => st)
    case (TagsField, Remove) =>
      (match DecodeTag2(e.data) case Some((code, v)) => st.(tags := st.tags[code := v]) case None => st)
    case (TagsField, Modify) =>
      (match DecodeTag3(e.data) case Some((code, v, _)) => st.(tags := st.tags[code := v]) case None => st)
    case (GroupField, Add) => st.(group := NO_GROUP)
    case (GroupField, Remove) =>
      (match DecodeGroup(e.data) case Some(g) => st.(group := g) case None => st)
    case (GroupField, Modify) =>
      (match DecodeGroupBefore(e.data) case Some(g) => st.(group := g) case None => st)
  }

  /** Undoes the entries of one photo, newest first. */
  function Undo(log: seq<Entry>, photo: int, st: Replayed): Replayed {
    if log == [] then st
    else
      var after := Undo(log[1..], photo, st);
      if log[0].photo == photo then UndoEntry(log[0], after) else after
  }

  lemma {:induction false} UndoConcat(a: seq<Entry>, b: seq<Entry>, photo: int, st: Replayed)
    ensures Undo(a + b, photo, st) == Undo(a, photo, Undo(b, photo, st))
    decreases |a|
  {
    if a == [] {
      assert a + b == b;
    } else {
      assert (a + b)[0] == a[0] && (a + b)[1..] == a[1..] + b;
      UndoConcat(a[1..], b, photo, st);
    }
  }

  lemma {:induction false} UndoForeign(log: seq<Entry>, other: int, photo: int, st: Replayed)
    requires OnlyFor(log, other) && other != photo
    ensures Undo(log, photo, st) == st
    decreases |log|
  {
    if log != [] {
      UndoForeign(log[1..], other, photo, st);
    }
  }

  lemma {:induction false} UndoAdded(photo: int, s: seq<(int, string)>, st: Replayed)
    ensures Undo(RecordAll(photo, Add, s), photo, st) == st.(tags := MapCompare.Unadded(st.tags, s))
    decreases |s|
  {
    if s != [] {
      TagRoundTrip(s[0].0, s[0].1);
      UndoAdded(photo, s[1..], st);
    }
  }

  lemma {:induction false} UndoRemoved(photo: int, s: seq<(int, string)>, st: Replayed)
    ensures Undo(RecordAll(photo, Remove, s), photo, st) == st.(tags := MapCompare.Unremoved(st.tags, s))
    decreases |s|
  {
    if s != [] {
      TagRoundTrip(s[0].0, s[0].1);
      UndoRemoved(photo, s[1..], st);
    }
  }

  lemma {:induction false} UndoChanged(photo: int, s: seq<(int, string, string)>, st: Replayed)
    ensures Undo(RecordChanges(photo, s), photo, st) == st.(tags := MapCompare.Unchanged(st.tags, s))
    decreases |s|
  {
    if s != [] {
      TagChangeRoundTrip(s[0].0, s[0].1, s[0].2);
      UndoChanged(photo, s[1..], st);
    }
  }

  /** Undoing the tag records over the new tags gives the old ones. */
  lemma UndoTags(photo: int, was: Tags, now: Tags, g: GroupInfo)
    ensures Undo(TagChanges(photo, was, now), photo, Replayed(TagMap(now), g)) == Replayed(TagMap(was), g)
  {
    var l, r := TagEntries(was), TagEntries(now);
    TagEntriesOrdered(was);
    TagEntriesOrdered(now);
    var removed := MapCompare.MissingFrom(l, TagMap(now));
    var changed := MapCompare.ChangesTo(l, TagMap(now));
    var added := MapCompare.MissingFrom(r, TagMap(was));
    var st0 := Replayed(TagMap(now), g);
    var st1 := st0.(tags := MapCompare.Unadded(st0.tags, added));
    var st2 := st1.(tags := MapCompare.Unchanged(st1.tags, changed));
    UndoAdded(photo, added, st0);
    UndoChanged(photo, changed, st1);
    UndoRemoved(photo, removed, st2);
    UndoConcat(RecordAll(photo, Remove, removed) + RecordChanges(photo, changed), RecordAll(photo, Add, added), photo, st0);
    UndoConcat(RecordAll(photo, Remove, removed), RecordChanges(photo, changed), photo, st1);
    MapCompare.UnpatchRestores(l, r);
  }

  lemma GroupBeforeRoundTrip(was: int, now: int, roleWas: Role, roleNow: Role)
    ensures DecodeGroupBefore(EncodeGroupChange(was, now, roleWas, roleNow)) == Some(GroupInfo(Some(was), roleWas))
  {
    var ids := ToNumber(was) + [' '] + ToNumber(now);
    var roles := ToNumber(RoleCode(roleWas)) + [' '] + ToNumber(RoleCode(roleNow));
    PairRoundTrip(was, now);
    PairRoundTrip(RoleCode(roleWas), RoleCode(roleNow));
    NumberRoundTrip(was);
    NumberRoundTrip(RoleCode(roleWas));
    SplitFirst(ids, roles, ',');
    SplitSingle(roles, ',');
  }

  lemma UndoGroup(photo: int, was: GroupInfo, now: GroupInfo, tags: map<int, string>)
    requires was.Valid() && now.Valid()
    ensures Undo(GroupChange(photo, was, now), photo, Replayed(tags, now)) == Replayed(tags, was)
  {
    var entries := GroupChange(photo, was, now);
    if entries != [] {
      assert entries[1..] == [];
      match (was.groupId, now.groupId)
      case (Some(a), Some(b)) => GroupBeforeRoundTrip(a, b, was.role, now.role);
      case (Some(a), None) => GroupRoundTrip(a, was.role);
      case _ =>
    }
  }

  /** Main result: undoing what one delta recorded takes the photo from its new tags and group back to the old ones. */
  lemma UndoDifference(photo: int, current: Data, delta: Delta)
    requires current.group.Valid() && (delta.group.Some? ==> delta.group.value.Valid())
    ensures Undo(Difference(photo, current, delta), photo, Recorded(Apply(current, delta))) == Recorded(current)
  {
    var tagPart := match delta.tags case Some(now) => TagChanges(photo, current.tags, now) case None => [];
    var groupPart := match delta.group case Some(now) => GroupChange(photo, current.group, now) case None => [];
    var after := Apply(current, delta);
    UndoConcat(tagPart, groupPart, photo, Recorded(after));
    if delta.group.Some? {
      UndoGroup(photo, current.group, delta.group.value, TagMap(after.tags));
    }
    if delta.tags.Some? {
      UndoTags(photo, current.tags, delta.tags.value, current.group);
    }
  }

  // ---------------------------------------------------------------------------
  // The order of the entries
  // ---------------------------------------------------------------------------

  /** Tags before the group; of the tags, those removed, then those changed, then those added. */
  function Place(e: Entry): int {
    if e.field == GroupField then 3
    else
      match e.operation
      case Remove => 0
      case Modify => 1
      case Add => 2
  }

  ghost predicate AllAt(log: seq<Entry>, place: int) {
    forall i :: 0 <= i < |log| ==> Place(log[i]) == place
  }

  lemma {:induction false} RecordsAt(photo: int, op: Operation, s: seq<(int, string)>)
    requires op != Modify
    ensures AllAt(RecordAll(photo, op, s), if op == Remove then 0 else 2)
    decreases |s|
  {
    if s != [] {
      RecordsAt(photo, op, s[1..]);
    }
  }

  lemma {:induction false} ChangesAt(photo: int, s: seq<(int, string, string)>)
    ensures AllAt(RecordChanges(photo, s), 1)
    decreases |s|
  {
    if s != [] {
      ChangesAt(photo, s[1..]);
    }
  }

  ghost predicate InPlaces(log: seq<Entry>, low: int, high: int) {
    && (forall i :: 0 <= i < |log| ==> low <= Place(log[i]) <= high)
    && forall i, j :: 0 <= i < j < |log| ==> Place(log[i]) <= Place(log[j])
  }

  lemma PlacesConcat(a: seq<Entry>, b: seq<Entry>, low: int, middle: int, high: int)
    requires InPlaces(a, low, middle) && InPlaces(b, middle, high) && low <= middle <= high
    ensures InPlaces(a + b, low, high)
  {
  }

  lemma TagChangesInOrder(photo: int, was: Tags, now: Tags)
    ensures InPlaces(TagChanges(photo, was, now), 0, 2)
  {
    var removed := MapCompare.MissingFrom(TagEntries(was), TagMap(now));
    var changed := MapCompare.ChangesTo(TagEntries(was), TagMap(now));
    var added := MapCompare.MissingFrom(TagEntries(now), TagMap(was));
    RecordsAt(photo, Remove, removed);
    ChangesAt(photo, changed);
    RecordsAt(photo, Add, added);
    PlacesConcat(RecordAll(photo, Remove, removed), RecordChanges(photo, changed), 0, 1, 1);
    PlacesConcat(RecordAll(photo, Remove, removed) + RecordChanges(photo, changed), RecordAll(photo, Add, added), 0, 1, 2);
  }

  lemma GroupChangeLast(photo: int, was: GroupInfo, now: GroupInfo)
    ensures InPlaces(GroupChange(photo, was, now), 2, 3)
  {
  }

  /** Entries are recorded in that order. */
  lemma DifferenceInOrder(photo: int, current: Data, delta: Delta)
    ensures InPlaces(Difference(photo, current, delta), 0, 3)
  {
    var tagPart := match delta.tags case Some(now) => TagChanges(photo, current.tags, now) case None => [];
    var groupPart := match delta.group case Some(now) => GroupChange(photo, current.group, now) case None => [];
    if delta.tags.Some? {
      TagChangesInOrder(photo, current.tags, delta.tags.value);
    }
    if delta.group.Some? {
      GroupChangeLast(photo, current.group, delta.group.value);
    }
    PlacesConcat(tagPart, groupPart, 0, 2, 3);
  }
}
