/** The SQL backend: deltas stored as rows, rows read back as photo records. */
module SqlBackend {
  import opened Common
  import opened Photos
  import opened Tables
  import opened ChangeLog
  import opened Transactions
  import opened TagStorage
  import MapCompare

  // ---------------------------------------------------------------------------
  // Reading
  // ---------------------------------------------------------------------------

  function GeometryPhoto(r: GeometryRow): int { r.photoId }
  function Sha256Photo(r: Sha256Row): int { r.photoId }
  function FlagsPhoto(r: FlagsRow): int { r.photoId }
  function PhotoIdOf(r: PhotoRow): int { r.id }

  function TypeOfCode(code: int): Option<TagType> {
    match code
    case 0 => Some(InvalidTag)
    case 1 => Some(Event)
    case 2 => Some(Place)
    case 3 => Some(Date)
    case 4 => Some(Time)
    case 6 => Some(Rating)
    case 7 => Some(Category)
    case _ => None
  }

  /** Later rows of the same tag win; NULL values are skipped. */
  function ReadTags(rows: seq<TagRow>): Tags {
    if rows == [] then map[]
    else
      var last := rows[|rows| - 1];
      var before := ReadTags(rows[..|rows| - 1]);
      match (TypeOfCode(last.name), last.value)
      case (Some(t), Some(v)) => before[t := v]
      case _ => before
  }

  function FlagsOfRow(r: FlagsRow): Flags {
    map[StagingArea := r.staging, ExifLoaded := r.exif, Sha256Loaded := r.sha,
        ThumbnailLoaded := r.thumb, GeometryLoaded := r.geom]
  }

  function ReadFlags(db: Tables, id: int): Flags {
    match FirstOf(db.flags, FlagsPhoto, id)
    case None => map[]
    case Some(r) => FlagsOfRow(r)
  }

  function ReadGeometry(db: Tables, id: int): Size {
    match FirstOf(db.geometry, GeometryPhoto, id)
    case None => NO_SIZE
    case Some(r) => Size(r.width, r.height)
  }

  function ReadChecksum(db: Tables, id: int): Option<string> {
    match FirstOf(db.sha256sums, Sha256Photo, id)
    case None => None
    case Some(r) => Some(r.sha256)
  }

  function ReadPath(db: Tables, id: int): string {
    match FirstOf(db.photos, PhotoIdOf, id)
    case None => ""
    case Some(r) => r.path
  }

  /** Everything but the group, which this backend keeps unfinished. */
  function GetPhotoDelta(db: Tables, id: int): Delta {
    var geometry := ReadGeometry(db, id);
    Delta(
      Some(id),
      ReadChecksum(db, id),
      Some(ReadTags(TagsOfPhoto(db.tags, id))),
      Some(ReadFlags(db, id)),
      Some(ReadPath(db, id)),
      if geometry.Valid() then Some(geometry) else None,
      None)
  }

  function GetPhoto(db: Tables, id: int): Data {
    Apply(NO_DATA, GetPhotoDelta(db, id))
  }

  // ---------------------------------------------------------------------------
  // What a record that was read has to agree with
  // ---------------------------------------------------------------------------

  /** A size that is not valid is not read back. */
  function Normal(s: Size): Size {
    if s.Valid() then s else NO_SIZE
  }

  /** read carries the tags, checksum, flags and geometry of meant. */
  ghost predicate Agrees(read: Data, meant: Data) {
    && read.tags == meant.tags
    && read.sha256 == meant.sha256
    && read.geometry == Normal(meant.geometry)
    && forall f: Flag :: FlagOf(read.flags, f) == FlagOf(meant.flags, f)
  }

  lemma AgreesThroughApply(read: Data, meant: Data, delta: Delta, after: Data)
    requires Agrees(read, meant) && Agrees(after, Apply(read, delta))
    ensures Agrees(after, Apply(meant, delta))
  {
  }

  lemma ReadAgreesWithItself(db: Tables, id: int)
    ensures Agrees(GetPhoto(db, id), GetPhoto(db, id))
  {
  }

  // ---------------------------------------------------------------------------
  // Reading back what was stored
  // ---------------------------------------------------------------------------

  lemma CodeRoundTrip(t: TagType)
    ensures TypeOfCode(TagCode(t)) == Some(t)
  {
  }

  /** Row i of an ordered list is what its tag reads as: no later row has the same tag. */
  lemma {:induction false} ReadRow(rows: seq<TagRow>, entries: seq<(int, string)>, i: nat)
    requires RowsSay(rows, entries) && MapCompare.Ordered(entries) && i < |rows|
    requires TypeOfCode(entries[i].0).Some?
    ensures TypeOfCode(entries[i].0).value in ReadTags(rows)
    ensures ReadTags(rows)[TypeOfCode(entries[i].0).value] == entries[i].1
    decreases |rows|
  {
    var n := |rows| - 1;
    assert Says(rows[n], entries[n]);
    if i < n {
      PrefixSays(rows, entries, n);
      ReadRow(rows[..n], entries[..n], i);
      assert entries[i].0 < entries[n].0;
    }
  }

  lemma PrefixSays(rows: seq<TagRow>, entries: seq<(int, string)>, n: nat)
    requires RowsSay(rows, entries) && MapCompare.Ordered(entries) && n <= |rows|
    ensures RowsSay(rows[..n], entries[..n]) && MapCompare.Ordered(entries[..n])
  {
    forall i | 0 <= i < n
      ensures Says(rows[..n][i], entries[..n][i])
    {
      assert Says(rows[i], entries[i]);
    }
  }

  /** Of several rows of a tag the last one with a value is read. */
  lemma {:induction false} LastRowIsRead(rows: seq<TagRow>, t: TagType, i: nat)
    requires i < |rows| && rows[i].name == TagCode(t) && rows[i].value.Some?
    requires forall j :: i < j < |rows| ==> rows[j].name != TagCode(t) || rows[j].value.None?
    ensures TagIn(ReadTags(rows), t) == rows[i].value
    decreases |rows|
  {
    var n := |rows| - 1;
    if i < n {
      LastRowIsRead(rows[..n], t, i);
      assert TypeOfCode(rows[n].name) == Some(t) ==> rows[n].name == TagCode(t);
    }
  }

  /** A tag that is read comes from an entry. */
  lemma {:induction false} ReadFromEntry(rows: seq<TagRow>, entries: seq<(int, string)>, t: TagType) returns (i: nat)
    requires RowsSay(rows, entries) && MapCompare.Ordered(entries) && t in ReadTags(rows)
    ensures i < |entries| && entries[i].0 == TagCode(t)
    decreases |rows|
  {
    var n := |rows| - 1;
    assert Says(rows[n], entries[n]);
    if TypeOfCode(entries[n].0) == Some(t) {
      i := n;
    } else {
      PrefixSays(rows, entries, n);
      i := ReadFromEntry(rows[..n], entries[..n], t);
    }
  }

  lemma EntryOfTag(tags: Tags, t: TagType) returns (i: nat)
    requires t in tags
    ensures i < |TagEntries(tags)| && TagEntries(tags)[i] == (TagCode(t), tags[t])
  {
    var entries := TagEntries(tags);
    EntriesFrom(tags, 0);
    assert TAG_ORDER[0..] == TAG_ORDER;
    var j := EveryTagOrdered(t);
    assert (TagCode(TAG_ORDER[j]), tags[TAG_ORDER[j]]) in entries;
    i :| 0 <= i < |entries| && entries[i] == (TagCode(t), tags[t]);
  }

  /** Rows that say the entries of a tag list read as that list. */
  lemma ReadStoredTags(rows: seq<TagRow>, tags: Tags)
    requires RowsSay(rows, TagEntries(tags))
    ensures ReadTags(rows) == tags
  {
    var entries := TagEntries(tags);
    TagEntriesOrdered(tags);
    forall t | t in tags
      ensures t in ReadTags(rows) && ReadTags(rows)[t] == tags[t]
    {
      var i := EntryOfTag(tags, t);
      CodeRoundTrip(t);
      ReadRow(rows, entries, i);
    }
    forall t | t in ReadTags(rows)
      ensures t in tags
    {
      var i := ReadFromEntry(rows, entries, t);
      CodeInMap(entries, i);
    }
  }

  lemma CodeInMap(entries: seq<(int, string)>, i: nat)
    requires MapCompare.Ordered(entries) && i < |entries|
    ensures entries[i].0 in MapCompare.ToMap(entries)
  {
    MapCompare.ToMapEntries(entries);
  }

  function FlagsRowOf(id: int, flags: Flags): FlagsRow {
    FlagsRow(id, FlagOf(flags, StagingArea), FlagOf(flags, ExifLoaded), FlagOf(flags, Sha256Loaded),
             FlagOf(flags, ThumbnailLoaded), FlagOf(flags, GeometryLoaded))
  }

  function OperationCode(op: Operation): int {
    match op
    case Add => 1
    case Modify => 2
    case Remove => 3
  }

  function FieldCode(f: Field): int {
    match f
    case TagsField => 1
    case GroupField => 2
  }

  function LogRowsOf(entries: seq<Entry>): (rows: seq<LogRow>)
    ensures |rows| == |entries|
    ensures forall i :: 0 <= i < |entries| ==>
      rows[i] == LogRow(entries[i].photo, OperationCode(entries[i].operation), FieldCode(entries[i].field), entries[i].data)
  {
    seq(|entries|, i requires 0 <= i < |entries| =>
      LogRow(entries[i].photo, OperationCode(entries[i].operation), FieldCode(entries[i].field), entries[i].data))
  }

  /** The columns of the delta are stored, each in its own table. */
  ghost predicate ColumnsStored(before: Tables, after: Tables, delta: Delta)
    requires delta.id.Some?
  {
    var id := delta.id.value;
    && after == before.(tags := after.tags, geometry := after.geometry, sha256sums := after.sha256sums,
                        flags := after.flags, changeLog := after.changeLog)
    && (match delta.tags
        case None => after.tags == before.tags
        case Some(t) => TagsStored(before.tags, after.tags, id, t))
    && after.geometry == (match delta.geometry
        case None => before.geometry
        case Some(g) => Upsert(before.geometry, GeometryPhoto, id, GeometryRow(id, g.width, g.height)))
    && after.sha256sums == (match delta.checksum
        case None => before.sha256sums
        case Some(c) => Upsert(before.sha256sums, Sha256Photo, id, Sha256Row(id, c)))
    && after.flags == (match delta.flags
        case None => before.flags
        case Some(f) => Upsert(before.flags, FlagsPhoto, id, FlagsRowOf(id, f)))
  }

  /** The delta is stored together with its log rows. */
  ghost predicate DataStored(before: Tables, after: Tables, delta: Delta)
    requires delta.id.Some?
  {
    && ColumnsStored(before, after, delta)
    && after.changeLog == before.changeLog + LogRowsOf(Difference(delta.id.value, GetPhoto(before, delta.id.value), delta))
  }

  // ---------------------------------------------------------------------------
  // One column of the record at a time
  // ---------------------------------------------------------------------------

  lemma TagsReadBack(before: Tables, after: Tables, delta: Delta, other: int)
    requires delta.id.Some? && ColumnsStored(before, after, delta)
    ensures ReadTags(TagsOfPhoto(after.tags, other))
         == if other == delta.id.value && delta.tags.Some? then delta.tags.value else ReadTags(TagsOfPhoto(before.tags, other))
  {
    var id := delta.id.value;
    match delta.tags
    case None =>
    case Some(t) =>
      if other == id {
        ReadStoredTags(TagsOfPhoto(after.tags, id), t);
      } else {
        OthersDetermine(before.tags, id, other);
        OthersDetermine(after.tags, id, other);
      }
  }

  lemma GeometryReadsBack(before: Tables, after: Tables, delta: Delta, other: int)
    requires delta.id.Some? && ColumnsStored(before, after, delta)
    ensures ReadGeometry(after, other)
         == if other == delta.id.value && delta.geometry.Some? then delta.geometry.value else ReadGeometry(before, other)
  {
    match delta.geometry
    case None =>
    case Some(g) => UpsertFirst(before.geometry, GeometryPhoto, delta.id.value, GeometryRow(delta.id.value, g.width, g.height), other);
  }

  lemma ChecksumReadsBack(before: Tables, after: Tables, delta: Delta, other: int)
    requires delta.id.Some? && ColumnsStored(before, after, delta)
    ensures ReadChecksum(after, other)
         == if other == delta.id.value && delta.checksum.Some? then delta.checksum else ReadChecksum(before, other)
  {
    match delta.checksum
    case None =>
    case Some(c) => UpsertFirst(before.sha256sums, Sha256Photo, delta.id.value, Sha256Row(delta.id.value, c), other);
  }

  lemma FlagsOfStoredRow(id: int, flags: Flags, f: Flag)
    ensures FlagOf(FlagsOfRow(FlagsRowOf(id, flags)), f) == FlagOf(flags, f)
  {
    match f
    case StagingArea =>
    case ExifLoaded =>
    case Sha256Loaded =>
    case ThumbnailLoaded =>
    case GeometryLoaded =>
  }

  lemma FlagsReadBack(before: Tables, after: Tables, delta: Delta, other: int)
    requires delta.id.Some? && ColumnsStored(before, after, delta)
    ensures FirstOf(after.flags, FlagsPhoto, other)
         == if other == delta.id.value && delta.flags.Some? then Some(FlagsRowOf(other, delta.flags.value)) else FirstOf(before.flags, FlagsPhoto, other)
  {
    match delta.flags
    case None =>
    case Some(flags) => UpsertFirst(before.flags, FlagsPhoto, delta.id.value, FlagsRowOf(delta.id.value, flags), other);
  }

  lemma FlagsReadAsApplied(before: Tables, after: Tables, delta: Delta)
    requires delta.id.Some? && ColumnsStored(before, after, delta)
    ensures var id := delta.id.value;
            forall f: Flag :: FlagOf(ReadFlags(after, id), f) == FlagOf(delta.flags.GetOr(ReadFlags(before, id)), f)
  {
    var id := delta.id.value;
    FlagsReadBack(before, after, delta, id);
    if delta.flags.Some? {
      forall f: Flag
        ensures FlagOf(FlagsOfRow(FlagsRowOf(id, delta.flags.value)), f) == FlagOf(delta.flags.value, f)
      {
        FlagsOfStoredRow(id, delta.flags.value, f);
      }
    }
  }

  /** No other photo reads differently. */
  lemma OthersReadTheSame(before: Tables, after: Tables, delta: Delta, other: int)
    requires delta.id.Some? && ColumnsStored(before, after, delta) && delta.id.value != other
    ensures GetPhoto(after, other) == GetPhoto(before, other)
  {
    TagsReadBack(before, after, delta, other);
    GeometryReadsBack(before, after, delta, other);
    ChecksumReadsBack(before, after, delta, other);
    FlagsReadBack(before, after, delta, other);
  }

  /** The photo reads as its old record with the delta applied. */
  lemma ReadsAsApplied(before: Tables, after: Tables, delta: Delta)
    requires delta.id.Some? && ColumnsStored(before, after, delta)
    ensures Agrees(GetPhoto(after, delta.id.value), Apply(GetPhoto(before, delta.id.value), delta))
    ensures GetPhoto(after, delta.id.value).path == GetPhoto(before, delta.id.value).path
  {
    var id := delta.id.value;
    TagsReadBack(before, after, delta, id);
    GeometryReadsBack(before, after, delta, id);
    ChecksumReadsBack(before, after, delta, id);
    FlagsReadAsApplied(before, after, delta);
  }
}
