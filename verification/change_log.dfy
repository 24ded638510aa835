/** The change log: how a difference is recorded, and how replaying the records restores the newest state. */
module ChangeLog {
  import opened Common
  import opened Photos
  import opened Encoding
  import MapCompare

  datatype Operation = Add | Modify | Remove

  datatype Field = TagsField | GroupField

  datatype Entry = Entry(photo: int, operation: Operation, field: Field, data: string)

  // ---------------------------------------------------------------------------
  // Tags in iteration order, keyed by their code
  // ---------------------------------------------------------------------------

  const TAG_ORDER: seq<TagType> := [InvalidTag, Event, Place, Date, Time, Rating, Category]

  function EntriesOf(tags: Tags, order: seq<TagType>): seq<(int, string)> {
    if order == [] then []
    else (if order[0] in tags then [(TagCode(order[0]), tags[order[0]])] else []) + EntriesOf(tags, order[1..])
  }

  function TagEntries(tags: Tags): seq<(int, string)> {
    EntriesOf(tags, TAG_ORDER)
  }

  function TagMap(tags: Tags): map<int, string> {
    MapCompare.ToMap(TagEntries(tags))
  }

  lemma CodesAscend(i: int, j: int)
    requires 0 <= i < j < |TAG_ORDER|
    ensures TagCode(TAG_ORDER[i]) < TagCode(TAG_ORDER[j])
  {
    assert TAG_ORDER[0] == InvalidTag && TAG_ORDER[1] == Event && TAG_ORDER[2] == Place && TAG_ORDER[3] == Date
        && TAG_ORDER[4] == Time && TAG_ORDER[5] == Rating && TAG_ORDER[6] == Category;
  }

  lemma EntriesStep(tags: Tags, k: int)
    requires 0 <= k < |TAG_ORDER|
    ensures EntriesOf(tags, TAG_ORDER[k..])
         == (if TAG_ORDER[k] in tags then [(TagCode(TAG_ORDER[k]), tags[TAG_ORDER[k]])] else []) + EntriesOf(tags, TAG_ORDER[k + 1..])
  {
    assert TAG_ORDER[k..][0] == TAG_ORDER[k] && TAG_ORDER[k..][1..] == TAG_ORDER[k + 1..];
  }

  ghost predicate IsEntry(tags: Tags, k: int, x: (int, string))
    requires 0 <= k
  {
    exists j :: k <= j < |TAG_ORDER| && TAG_ORDER[j] in tags && x == (TagCode(TAG_ORDER[j]), tags[TAG_ORDER[j]])
  }

  lemma {:induction false} EntriesAre(tags: Tags, k: int, x: (int, string))
    requires 0 <= k <= |TAG_ORDER|
    ensures x in EntriesOf(tags, TAG_ORDER[k..]) <==> IsEntry(tags, k, x)
    decreases |TAG_ORDER| - k
  {
    if k < |TAG_ORDER| {
      EntriesStep(tags, k);
      EntriesAre(tags, k + 1, x);
    }
  }

  lemma {:induction false} EntriesFrom(tags: Tags, k: int)
    requires 0 <= k <= |TAG_ORDER|
    ensures MapCompare.Ordered(EntriesOf(tags, TAG_ORDER[k..]))
    ensures forall x :: x in EntriesOf(tags, TAG_ORDER[k..]) <==> IsEntry(tags, k, x)
    decreases |TAG_ORDER| - k
  {
    forall x
      ensures x in EntriesOf(tags, TAG_ORDER[k..]) <==> IsEntry(tags, k, x)
    {
      EntriesAre(tags, k, x);
    }
    if k < |TAG_ORDER| {
      var rest := EntriesOf(tags, TAG_ORDER[k + 1..]);
      EntriesFrom(tags, k + 1);
      EntriesStep(tags, k);
      forall i | 0 <= i < |rest|
        ensures TagCode(TAG_ORDER[k]) < rest[i].0
      {
        assert rest[i] in rest;
        var j :| k + 1 <= j < |TAG_ORDER| && TAG_ORDER[j] in tags && rest[i] == (TagCode(TAG_ORDER[j]), tags[TAG_ORDER[j]]);
        CodesAscend(k, j);
      }
    }
  }

  lemma EveryTagOrdered(t: TagType) returns (j: int)
    ensures 0 <= j < |TAG_ORDER| && TAG_ORDER[j] == t
  {
    j := match t
      case InvalidTag => 0
      case Event => 1
      case Place => 2
      case Date => 3
      case Time => 4
      case Rating => 5
      case Category => 6;
  }

  lemma TagEntriesOrdered(tags: Tags)
    ensures MapCompare.Ordered(TagEntries(tags))
    ensures forall t :: t in tags <==> TagCode(t) in TagMap(tags)
    ensures forall t :: t in tags ==> TagMap(tags)[TagCode(t)] == tags[t]
  {
    EntriesFrom(tags, 0);
    assert TAG_ORDER[0..] == TAG_ORDER;
    var s := TagEntries(tags);
    MapCompare.ToMapEntries(s);
    forall t | t in tags
      ensures TagCode(t) in TagMap(tags) && TagMap(tags)[TagCode(t)] == tags[t]
    {
      var j := EveryTagOrdered(t);
      assert IsEntry(tags, 0, (TagCode(TAG_ORDER[j]), tags[TAG_ORDER[j]]));
      assert (TagCode(t), tags[t]) in s;
      var i :| 0 <= i < |s| && s[i] == (TagCode(t), tags[t]);
    }
    forall t | TagCode(t) in TagMap(tags)
      ensures t in tags
    {
      var i :| 0 <= i < |s| && s[i].0 == TagCode(t);
      assert s[i] in s;
      var j :| 0 <= j < |TAG_ORDER| && TAG_ORDER[j] in tags && s[i] == (TagCode(TAG_ORDER[j]), tags[TAG_ORDER[j]]);
      CodesDistinct(t, TAG_ORDER[j]);
    }
  }

  lemma CodesDistinct(s: TagType, t: TagType)
    requires TagCode(s) == TagCode(t)
    ensures s == t
  {
  }

  /** Tags are determined by the map of their codes. */
  lemma TagMapInjective(a: Tags, b: Tags)
    requires TagMap(a) == TagMap(b)
    ensures a == b
  {
    TagEntriesOrdered(a);
    TagEntriesOrdered(b);
    assert forall t :: t in a <==> t in b;
  }

  // ---------------------------------------------------------------------------
  // Encoding and decoding of log data
  // ---------------------------------------------------------------------------

  function EncodeValue(v: string): string {
    ToBase64(ToUtf8(v))
  }

  function DecodeValue(s: string): string {
    FromUtf8(FromBase64(s))
  }

  function ToNumber(n: int): string {
    if n < 0 then "-" + ToDecimal(-n) else ToDecimal(n)
  }

  function ParseNumber(s: string): int {
    if s != "" && s[0] == '-' then -ParseDecimal(s[1..]) else ParseDecimal(s)
  }

  function EncodeTag(code: int, v: string): string {
    ToNumber(code) + [' '] + EncodeValue(v)
  }

  function EncodeTagChange(code: int, was: string, now: string): string {
    ToNumber(code) + [' '] + (EncodeValue(was) + [' '] + EncodeValue(now))
  }

  function DecodeTag2(s: string): Option<(int, string)> {
    var items := Split(s, ' ');
    if |items| == 2 then Some((ParseNumber(items[0]), DecodeValue(items[1]))) else None
  }

  function DecodeTag3(s: string): Option<(int, string, string)> {
    var items := Split(s, ' ');
    if |items| == 3 then Some((ParseNumber(items[0]), DecodeValue(items[1]), DecodeValue(items[2]))) else None
  }

  lemma NonNegativeRoundTrip(digits: string)
    requires Encoding.AllDigits(digits) && digits != ""
    ensures ParseNumber(digits) == ParseDecimal(digits)
    ensures Encoding.Avoids(digits, ' ') && Encoding.Avoids(digits, ',')
  {
    assert '0' <= digits[0] <= '9';
  }

  lemma NegativeRoundTrip(digits: string)
    requires Encoding.AllDigits(digits)
    ensures ParseNumber("-" + digits) == -ParseDecimal(digits)
    ensures Encoding.Avoids("-" + digits, ' ') && Encoding.Avoids("-" + digits, ',')
  {
    var s := "-" + digits;
    assert s[0] == '-' && s[1..] == digits;
  }

  lemma NumberRoundTrip(n: int)
    ensures ParseNumber(ToNumber(n)) == n
    ensures Encoding.Avoids(ToNumber(n), ' ') && Encoding.Avoids(ToNumber(n), ',')
  {
    var digits := ToDecimal(if n < 0 then -n else n);
    DecimalRoundTrip(if n < 0 then -n else n);
    if n < 0 {
      NegativeRoundTrip(digits);
    } else {
      NonNegativeRoundTrip(digits);
    }
  }

  lemma ValueRoundTrip(v: string)
    ensures DecodeValue(EncodeValue(v)) == v && Encoding.Avoids(EncodeValue(v), ' ')
  {
    Utf8RoundTrip(v);
    Base64RoundTrip(ToUtf8(v));
    Base64HasNoSpace(ToUtf8(v));
  }

  /** Encoding a tag and decoding it are inverse. */
  lemma TagRoundTrip(code: int, v: string)
    ensures DecodeTag2(EncodeTag(code, v)) == Some((code, v))
  {
    NumberRoundTrip(code);
    ValueRoundTrip(v);
    SplitFirst(ToNumber(code), EncodeValue(v), ' ');
    SplitSingle(EncodeValue(v), ' ');
  }

  lemma TagChangeRoundTrip(code: int, was: string, now: string)
    ensures DecodeTag3(EncodeTagChange(code, was, now)) == Some((code, was, now))
  {
    NumberRoundTrip(code);
    ValueRoundTrip(was);
    ValueRoundTrip(now);
    SplitFirst(ToNumber(code), EncodeValue(was) + [' '] + EncodeValue(now), ' ');
    SplitFirst(EncodeValue(was), EncodeValue(now), ' ');
    SplitSingle(EncodeValue(now), ' ');
  }

  function RoleCode(r: Role): int {
    match r
    case NoRole => 0
    case Representative => 1
    case Member => 2
  }

  function RoleOf(code: int): Role {
    if code == 1 then Representative else if code == 2 then Member else NoRole
  }

  function EncodeGroup(gid: int, role: Role): string {
    ToNumber(gid) + [','] + ToNumber(RoleCode(role))
  }

  function EncodeGroupChange(was: int, now: int, roleWas: Role, roleNow: Role): string {
    (ToNumber(was) + [' '] + ToNumber(now)) + [','] + (ToNumber(RoleCode(roleWas)) + [' '] + ToNumber(RoleCode(roleNow)))
  }

  function DecodeGroup(s: string): Option<GroupInfo> {
    var items := Split(s, ',');
    if |items| == 2 then Some(GroupInfo(Some(ParseNumber(items[0])), RoleOf(ParseNumber(items[1])))) else None
  }

  /** The new group and role of a modification. */
  function DecodeGroupChange(s: string): Option<GroupInfo> {
    var items := Split(s, ',');
    if |items| != 2 then None
    else
      var ids, roles := Split(items[0], ' '), Split(items[1], ' ');
      if |ids| == 2 && |roles| == 2 then Some(GroupInfo(Some(ParseNumber(ids[1])), RoleOf(ParseNumber(roles[1])))) else None
  }

  lemma GroupRoundTrip(gid: int, role: Role)
    ensures DecodeGroup(EncodeGroup(gid, role)) == Some(GroupInfo(Some(gid), role))
  {
    NumberRoundTrip(gid);
    NumberRoundTrip(RoleCode(role));
    SplitFirst(ToNumber(gid), ToNumber(RoleCode(role)), ',');
    SplitSingle(ToNumber(RoleCode(role)), ',');
  }

  lemma PairRoundTrip(a: int, b: int)
    ensures var s := ToNumber(a) + [' '] + ToNumber(b);
            && Split(s, ' ') == [ToNumber(a), ToNumber(b)] && Encoding.Avoids(s, ',')
            && ParseNumber(ToNumber(b)) == b
  {
    NumberRoundTrip(a);
    NumberRoundTrip(b);
    SplitFirst(ToNumber(a), ToNumber(b), ' ');
    SplitSingle(ToNumber(b), ' ');
  }

  lemma GroupChangeRoundTrip(was: int, now: int, roleWas: Role, roleNow: Role)
    ensures DecodeGroupChange(EncodeGroupChange(was, now, roleWas, roleNow)) == Some(GroupInfo(Some(now), roleNow))
  {
    var ids := ToNumber(was) + [' '] + ToNumber(now);
    var roles := ToNumber(RoleCode(roleWas)) + [' '] + ToNumber(RoleCode(roleNow));
    PairRoundTrip(was, now);
    PairRoundTrip(RoleCode(roleWas), RoleCode(roleNow));
    SplitFirst(ids, roles, ',');
    SplitSingle(roles, ',');
  }

  // ---------------------------------------------------------------------------
  // Recording differences
  // ---------------------------------------------------------------------------

  function RecordAll(photo: int, op: Operation, s: seq<(int, string)>): seq<Entry> {
    if s == [] then [] else [Entry(photo, op, TagsField, EncodeTag(s[0].0, s[0].1))] + RecordAll(photo, op, s[1..])
  }

  function RecordChanges(photo: int, s: seq<(int, string, string)>): seq<Entry> {
    if s == [] then []
    else [Entry(photo, Modify, TagsField, EncodeTagChange(s[0].0, s[0].1, s[0].2))] + RecordChanges(photo, s[1..])
  }

  function TagChanges(photo: int, was: Tags, now: Tags): seq<Entry> {
    RecordAll(photo, Remove, MapCompare.MissingFrom(TagEntries(was), TagMap(now)))
    + RecordChanges(photo, MapCompare.ChangesTo(TagEntries(was), TagMap(now)))
    + RecordAll(photo, Add, MapCompare.MissingFrom(TagEntries(now), TagMap(was)))
  }

  function GroupChange(photo: int, was: GroupInfo, now: GroupInfo): seq<Entry> {
    match (was.groupId, now.groupId)
    case (Some(a), Some(b)) => [Entry(photo, Modify, GroupField, EncodeGroupChange(a, b, was.role, now.role))]
    case (Some(a), None) => [Entry(photo, Remove, GroupField, EncodeGroup(a, was.role))]
    case (None, Some(b)) => [Entry(photo, Add, GroupField, EncodeGroup(b, now.role))]
    case (None, None) => []
  }

  function Difference(photo: int, current: Data, delta: Delta): seq<Entry> {
    (match delta.tags case Some(now) => TagChanges(photo, current.tags, now) case None => [])
    + (match delta.group case Some(now) => GroupChange(photo, current.group, now) case None => [])
  }

  method ProcessTags(photo: int, was: Tags, now: Tags) returns (entries: seq<Entry>)
    ensures entries == TagChanges(photo, was, now)
  {
    TagEntriesOrdered(was);
    TagEntriesOrdered(now);
    var removed, changed, added := MapCompare.Compare(TagEntries(was), TagEntries(now));
    var a := RecordEach(photo, Remove, removed);
    var b := RecordEachChange(photo, changed);
    var c := RecordEach(photo, Add, added);
    entries := a + b + c;
  }

  method RecordEachChange(photo: int, changed: seq<(int, string, string)>) returns (entries: seq<Entry>)
    ensures entries == RecordChanges(photo, changed)
  {
    entries := [];
    var rest := changed;
    while rest != []
      invariant entries + RecordChanges(photo, rest) == RecordChanges(photo, changed)
      decreases |rest|
    {
      entries := entries + [Entry(photo, Modify, TagsField, EncodeTagChange(rest[0].0, rest[0].1, rest[0].2))];
      rest := rest[1..];
    }
  }

  method RecordEach(photo: int, op: Operation, s: seq<(int, string)>) returns (entries: seq<Entry>)
    ensures entries == RecordAll(photo, op, s)
  {
    entries := [];
    var rest := s;
    while rest != []
      invariant entries + RecordAll(photo, op, rest) == RecordAll(photo, op, s)
      decreases |rest|
    {
      entries := entries + [Entry(photo, op, TagsField, EncodeTag(rest[0].0, rest[0].1))];
      rest := rest[1..];
    }
  }

  method StoreDifference(photo: int, current: Data, delta: Delta) returns (entries: seq<Entry>)
    ensures entries == Difference(photo, current, delta)
  {
    entries := [];
    if delta.tags.Some? {
      entries := ProcessTags(photo, current.tags, delta.tags.value);
    }
    if delta.group.Some? {
      entries := entries + GroupChange(photo, current.group, delta.group.value);
    }
  }

  // ---------------------------------------------------------------------------
  // Replaying
  // ---------------------------------------------------------------------------

  datatype Replayed = Replayed(tags: map<int, string>, group: GroupInfo)

  function ReplayEntry(e: Entry, st: Replayed): Replayed {
    match (e.field, e.operation)
    case (TagsField, Add) =>
      (match DecodeTag2(e.data) case Some((code, v)) => st.(tags := st.tags[code := v]) case None => st)
    case (TagsField, Remove) =>
      (match DecodeTag2(e.data) case Some((code, _)) => st.(tags := st.tags - {code}) case None => st)
    case (TagsField, Modify) =>
      (match DecodeTag3(e.data) case Some((code, _, v)) => st.(tags := st.tags[code := v]) case None => st)
    case (GroupField, Add) =>
      (match DecodeGroup(e.data) case Some(g) => st.(group := g) case None => st)
    case (GroupField, Remove) => st.(group := NO_GROUP)
    case (GroupField, Modify) =>
      (match DecodeGroupChange(e.data) case Some(g) => st.(group := g) case None => st)
  }

  /** Replays the entries of one photo, oldest first. */
  function Replay(log: seq<Entry>, photo: int, st: Replayed): Replayed {
    if log == [] then st
    else Replay(log[1..], photo, if log[0].photo == photo then ReplayEntry(log[0], st) else st)
  }

  function Recorded(d: Data): Replayed {
    Replayed(TagMap(d.tags), d.group)
  }

  lemma {:induction false} ReplayConcat(a: seq<Entry>, b: seq<Entry>, photo: int, st: Replayed)
    ensures Replay(a + b, photo, st) == Replay(b, photo, Replay(a, photo, st))
    decreases |a|
  {
    if a == [] {
      assert a + b == b;
    } else {
      assert (a + b)[1..] == a[1..] + b;
      ReplayConcat(a[1..], b, photo, if a[0].photo == photo then ReplayEntry(a[0], st) else st);
    }
  }

  lemma {:induction false} ReplayRemoved(photo: int, s: seq<(int, string)>, st: Replayed)
    ensures Replay(RecordAll(photo, Remove, s), photo, st) == st.(tags := MapCompare.WithRemoved(st.tags, s))
    decreases |s|
  {
    if s != [] {
      TagRoundTrip(s[0].0, s[0].1);
      ReplayRemoved(photo, s[1..], st.(tags := st.tags - {s[0].0}));
    }
  }

  lemma {:induction false} ReplayAdded(photo: int, s: seq<(int, string)>, st: Replayed)
    ensures Replay(RecordAll(photo, Add, s), photo, st) == st.(tags := MapCompare.WithAdded(st.tags, s))
    decreases |s|
  {
    if s != [] {
      TagRoundTrip(s[0].0, s[0].1);
      ReplayAdded(photo, s[1..], st.(tags := st.tags[s[0].0 := s[0].1]));
    }
  }

  lemma {:induction false} ReplayChanged(photo: int, s: seq<(int, string, string)>, st: Replayed)
    ensures Replay(RecordChanges(photo, s), photo, st) == st.(tags := MapCompare.WithChanged(st.tags, s))
    decreases |s|
  {
    if s != [] {
      TagChangeRoundTrip(s[0].0, s[0].1, s[0].2);
      ReplayChanged(photo, s[1..], st.(tags := st.tags[s[0].0 := s[0].2]));
    }
  }

  lemma ReplayTags(photo: int, was: Tags, now: Tags, g: GroupInfo)
    ensures Replay(TagChanges(photo, was, now), photo, Replayed(TagMap(was), g)) == Replayed(TagMap(now), g)
  {
    var l, r := TagEntries(was), TagEntries(now);
    TagEntriesOrdered(was);
    TagEntriesOrdered(now);
    var removed := MapCompare.MissingFrom(l, TagMap(now));
    var changed := MapCompare.ChangesTo(l, TagMap(now));
    var added := MapCompare.MissingFrom(r, TagMap(was));
    var st0 := Replayed(TagMap(was), g);
    var st1 := st0.(tags := MapCompare.WithRemoved(st0.tags, removed));
    var st2 := st1.(tags := MapCompare.WithChanged(st1.tags, changed));
    ReplayRemoved(photo, removed, st0);
    ReplayChanged(photo, changed, st1);
    ReplayAdded(photo, added, st2);
    ReplayConcat(RecordAll(photo, Remove, removed), RecordChanges(photo, changed), photo, st0);
    ReplayConcat(RecordAll(photo, Remove, removed) + RecordChanges(photo, changed), RecordAll(photo, Add, added), photo, st0);
    MapCompare.PatchRestores(l, r);
  }

  lemma ReplayGroup(photo: int, was: GroupInfo, now: GroupInfo, tags: map<int, string>)
    requires was.Valid() && now.Valid()
    ensures Replay(GroupChange(photo, was, now), photo, Replayed(tags, was)) == Replayed(tags, now)
  {
    var entries := GroupChange(photo, was, now);
    if entries != [] {
      assert entries[1..] == [];
      match (was.groupId, now.groupId)
      case (Some(a), Some(b)) => GroupChangeRoundTrip(a, b, was.role, now.role);
      case (None, Some(b)) => GroupRoundTrip(b, now.role);
      case _ =>
    }
  }

  /** Replaying what one delta recorded takes the photo from its old to its new tags and group. */
  lemma ReplayDifference(photo: int, current: Data, delta: Delta)
    requires current.group.Valid() && (delta.group.Some? ==> delta.group.value.Valid())
    ensures Replay(Difference(photo, current, delta), photo, Recorded(current)) == Recorded(Apply(current, delta))
  {
    var tagPart := match delta.tags case Some(now) => TagChanges(photo, current.tags, now) case None => [];
    var groupPart := match delta.group case Some(now) => GroupChange(photo, current.group, now) case None => [];
    ReplayConcat(tagPart, groupPart, photo, Recorded(current));
    if delta.tags.Some? {
      ReplayTags(photo, current.tags, delta.tags.value, current.group);
    }
    if delta.group.Some? {
      ReplayGroup(photo, current.group, delta.group.value, TagMap(Apply(current, delta).tags));
    }
  }

  ghost predicate OnlyFor(log: seq<Entry>, photo: int) {
    forall i :: 0 <= i < |log| ==> log[i].photo == photo
  }

  lemma {:induction false} ReplayForeign(log: seq<Entry>, other: int, photo: int, st: Replayed)
    requires OnlyFor(log, other) && other != photo
    ensures Replay(log, photo, st) == st
    decreases |log|
  {
    if log != [] {
      ReplayForeign(log[1..], other, photo, st);
    }
  }

  lemma {:induction false} RecordsOfPhoto(photo: int, op: Operation, s: seq<(int, string)>)
    ensures OnlyFor(RecordAll(photo, op, s), photo)
    decreases |s|
  {
    if s != [] {
      RecordsOfPhoto(photo, op, s[1..]);
    }
  }

  lemma {:induction false} ChangesOfPhoto(photo: int, s: seq<(int, string, string)>)
    ensures OnlyFor(RecordChanges(photo, s), photo)
    decreases |s|
  {
    if s != [] {
      ChangesOfPhoto(photo, s[1..]);
    }
  }

  lemma OnlyForConcat(a: seq<Entry>, b: seq<Entry>, photo: int)
    requires OnlyFor(a, photo) && OnlyFor(b, photo)
    ensures OnlyFor(a + b, photo)
  {
  }

  lemma TagChangesOfPhoto(photo: int, was: Tags, now: Tags)
    ensures OnlyFor(TagChanges(photo, was, now), photo)
  {
    var a := RecordAll(photo, Remove, MapCompare.MissingFrom(TagEntries(was), TagMap(now)));
    var b := RecordChanges(photo, MapCompare.ChangesTo(TagEntries(was), TagMap(now)));
    var c := RecordAll(photo, Add, MapCompare.MissingFrom(TagEntries(now), TagMap(was)));
    RecordsOfPhoto(photo, Remove, MapCompare.MissingFrom(TagEntries(was), TagMap(now)));
    ChangesOfPhoto(photo, MapCompare.ChangesTo(TagEntries(was), TagMap(now)));
    RecordsOfPhoto(photo, Add, MapCompare.MissingFrom(TagEntries(now), TagMap(was)));
    OnlyForConcat(a, b, photo);
    OnlyForConcat(a + b, c, photo);
  }

  lemma GroupChangeOfPhoto(photo: int, was: GroupInfo, now: GroupInfo)
    ensures OnlyFor(GroupChange(photo, was, now), photo)
  {
  }

  lemma DifferenceOfPhoto(photo: int, current: Data, delta: Delta)
    ensures OnlyFor(Difference(photo, current, delta), photo)
  {
    var tagPart := match delta.tags case Some(now) => TagChanges(photo, current.tags, now) case None => [];
    var groupPart := match delta.group case Some(now) => GroupChange(photo, current.group, now) case None => [];
    if delta.tags.Some? {
      TagChangesOfPhoto(photo, current.tags, delta.tags.value);
    }
    if delta.group.Some? {
      GroupChangeOfPhoto(photo, current.group, delta.group.value);
    }
    OnlyForConcat(tagPart, groupPart, photo);
  }
}
