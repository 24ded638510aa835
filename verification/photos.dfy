/** What one photo is: its record, and the deltas that change it. */
module Photos {
  import opened Common

  datatype TagType = InvalidTag | Event | Place | Date | Time | Rating | Category

  /** The number a tag type is stored under; 5 was retired. */
  function TagCode(t: TagType): nat {
    match t
    case InvalidTag => 0
    case Event => 1
    case Place => 2
    case Date => 3
    case Time => 4
    case Rating => 6
    case Category => 7
  }

  /** Tag values at the level they are stored and compared: their raw text. */
  type Tags = map<TagType, string>

  function TagIn(tags: Tags, t: TagType): Option<string> {
    if t in tags then Some(tags[t]) else None
  }

  datatype Flag = StagingArea | ExifLoaded | Sha256Loaded | ThumbnailLoaded | GeometryLoaded

  type Flags = map<Flag, int>

  /** A flag nobody has written reads as 0. */
  function FlagOf(flags: Flags, f: Flag): int {
    if f in flags then flags[f] else 0
  }

  function FlagAt(flags: Flags, f: Flag): Option<int> {
    if f in flags then Some(flags[f]) else None
  }

  datatype Size = Size(width: int, height: int) {
    predicate Valid() {
      width >= 0 && height >= 0
    }
  }

  const NO_SIZE := Size(-1, -1)

  datatype Role = NoRole | Representative | Member

  datatype GroupInfo = GroupInfo(groupId: Option<int>, role: Role) {
    /** A photo has a role exactly when it is in a group. */
    predicate Valid() {
      role == NoRole <==> groupId.None?
    }
  }

  const NO_GROUP := GroupInfo(None, NoRole)

  datatype Data = Data(
    id: Option<int>,
    sha256: string,
    tags: Tags,
    flags: Flags,
    path: string,
    geometry: Size,
    group: GroupInfo)

  const NO_DATA := Data(None, "", map[], map[], "", NO_SIZE, NO_GROUP)

  /** A delta names a photo and carries a new value for some of its fields. */
  datatype Delta = Delta(
    id: Option<int>,
    checksum: Option<string>,
    tags: Option<Tags>,
    flags: Option<Flags>,
    path: Option<string>,
    geometry: Option<Size>,
    group: Option<GroupInfo>)

  function EmptyDelta(id: Option<int>): Delta {
    Delta(id, None, None, None, None, None, None)
  }

  function GroupDelta(id: int, group: GroupInfo): Delta {
    EmptyDelta(Some(id)).(group := Some(group))
  }

  function Apply(data: Data, delta: Delta): Data {
    Data(delta.id,
         delta.checksum.GetOr(data.sha256),
         delta.tags.GetOr(data.tags),
         delta.flags.GetOr(data.flags),
         delta.path.GetOr(data.path),
         delta.geometry.GetOr(data.geometry),
         delta.group.GetOr(data.group))
  }

  /** The delta that says everything of a record. */
  function WholeDelta(data: Data): Delta {
    Delta(data.id, Some(data.sha256), Some(data.tags), Some(data.flags), Some(data.path), Some(data.geometry), Some(data.group))
  }

  /** A delta that says everything makes any record the one it was taken from; one that says nothing changes nothing. */
  lemma WholeDeltaRestores(data: Data, other: Data)
    ensures Apply(other, WholeDelta(data)) == data
    ensures Apply(data, EmptyDelta(data.id)) == data
  {
  }

  /** A record is changed in each field the delta sets, and in no other. */
  lemma ApplyChanges(data: Data, delta: Delta)
    ensures var d := Apply(data, delta);
            && d.id == delta.id
            && (delta.checksum == Some(d.sha256) || (delta.checksum == None && d.sha256 == data.sha256))
            && (delta.tags == Some(d.tags) || (delta.tags == None && d.tags == data.tags))
            && (delta.flags == Some(d.flags) || (delta.flags == None && d.flags == data.flags))
            && (delta.path == Some(d.path) || (delta.path == None && d.path == data.path))
            && (delta.geometry == Some(d.geometry) || (delta.geometry == None && d.geometry == data.geometry))
            && (delta.group == Some(d.group) || (delta.group == None && d.group == data.group))
  {
  }

  /** All deltas in order, applied to the record of one photo. */
  function ApplyMine(id: int, data: Data, deltas: seq<Delta>): Data
    decreases |deltas|
  {
    if deltas == [] then data
    else ApplyMine(id, if deltas[0].id == Some(id) then Apply(data, deltas[0]) else data, deltas[1..])
  }

  lemma {:induction false} ApplyMineSnoc(id: int, data: Data, deltas: seq<Delta>, last: Delta)
    ensures ApplyMine(id, data, deltas + [last])
         == var before := ApplyMine(id, data, deltas); if last.id == Some(id) then Apply(before, last) else before
    decreases |deltas|
  {
    if deltas == [] {
      assert (deltas + [last])[1..] == [];
    } else {
      assert (deltas + [last])[1..] == deltas[1..] + [last];
      ApplyMineSnoc(id, if deltas[0].id == Some(id) then Apply(data, deltas[0]) else data, deltas[1..], last);
    }
  }
}
