/** The tables of the SQL backend, as collections of rows. */
module Tables {
  import opened Common
  import opened Photos

  datatype PhotoRow = PhotoRow(id: int, path: string)
  datatype TagRow = TagRow(id: int, photoId: int, name: int, value: Option<string>)
  datatype FlagsRow = FlagsRow(photoId: int, staging: int, exif: int, sha: int, thumb: int, geom: int)
  datatype GeometryRow = GeometryRow(photoId: int, width: int, height: int)
  datatype Sha256Row = Sha256Row(photoId: int, sha256: string)
  datatype GeneralFlagRow = GeneralFlagRow(photoId: int, name: string, value: Option<int>)
  datatype PeopleRow = PeopleRow(photoId: int, personId: Option<int>)
  datatype PersonNameRow = PersonNameRow(id: int, name: Option<string>)
  datatype GroupRow = GroupRow(id: int, representativeId: int)
  datatype MemberRow = MemberRow(groupId: int, photoId: int)
  datatype ThumbnailRow = ThumbnailRow(photoId: int)
  datatype LogRow = LogRow(photoId: int, operation: int, field: int, data: string)

  datatype Tables = Tables(
    photos: seq<PhotoRow>,
    tags: seq<TagRow>,
    flags: seq<FlagsRow>,
    geometry: seq<GeometryRow>,
    sha256sums: seq<Sha256Row>,
    generalFlags: seq<GeneralFlagRow>,
    people: seq<PeopleRow>,
    peopleNames: seq<PersonNameRow>,
    groups: seq<GroupRow>,
    members: seq<MemberRow>,
    thumbnails: seq<ThumbnailRow>,
    changeLog: seq<LogRow>)

  function FlagColumn(row: FlagsRow, f: Flag): int {
    match f
    case StagingArea => row.staging
    case ExifLoaded => row.exif
    case Sha256Loaded => row.sha
    case ThumbnailLoaded => row.thumb
    case GeometryLoaded => row.geom
  }

  ghost predicate HasPhoto(db: Tables, id: int) {
    exists p :: p in db.photos && p.id == id
  }

  /** Foreign keys that the filter queries rely on: groups refer to stored photos. */
  ghost predicate GroupKeysIntact(db: Tables) {
    && (forall g :: g in db.groups ==> HasPhoto(db, g.representativeId))
    && (forall m :: m in db.members ==> HasPhoto(db, m.photoId))
  }

  /** The primary key of the photos table. */
  ghost predicate UniquePhotos(photos: seq<PhotoRow>) {
    forall i, j :: 0 <= i < j < |photos| ==> photos[i].id != photos[j].id
  }

  /** One row for each tag of a photo. */
  ghost predicate OneRowPerTag(tags: seq<TagRow>) {
    forall i, j :: 0 <= i < j < |tags| ==> tags[i].photoId != tags[j].photoId || tags[i].name != tags[j].name
  }

  /** The primary key of the tags table. */
  ghost predicate DistinctTagIds(tags: seq<TagRow>) {
    forall i, j :: 0 <= i < j < |tags| ==> tags[i].id != tags[j].id
  }

  // ---------------------------------------------------------------------------
  // Rows found by the photo they belong to
  // ---------------------------------------------------------------------------

  /** The first row of a photo in a table with a photo_id column. */
  function FirstOf<R>(rows: seq<R>, photoOf: R -> int, id: int): Option<R> {
    if rows == [] then None
    else if photoOf(rows[0]) == id then Some(rows[0])
    else FirstOf(rows[1..], photoOf, id)
  }

  /** UPDATE .. WHERE photo_id = id: every matching row becomes `row`. */
  function UpdateRows<R>(rows: seq<R>, photoOf: R -> int, id: int, row: R): seq<R> {
    if rows == [] then []
    else [if photoOf(rows[0]) == id then row else rows[0]] + UpdateRows(rows[1..], photoOf, id, row)
  }

  function CountOf<R>(rows: seq<R>, photoOf: R -> int, id: int): nat {
    if rows == [] then 0 else (if photoOf(rows[0]) == id then 1 else 0) + CountOf(rows[1..], photoOf, id)
  }

  /** Update the rows of the photo; insert one when there was none. */
  function Upsert<R>(rows: seq<R>, photoOf: R -> int, id: int, row: R): seq<R> {
    if CountOf(rows, photoOf, id) == 0 then rows + [row] else UpdateRows(rows, photoOf, id, row)
  }

  /** All rows of the photo are overwritten and no others, in place. */
  lemma {:induction false} UpdateRowsEach<R>(rows: seq<R>, photoOf: R -> int, id: int, row: R, i: nat)
    requires i < |rows|
    ensures |UpdateRows(rows, photoOf, id, row)| == |rows|
    ensures UpdateRows(rows, photoOf, id, row)[i] == if photoOf(rows[i]) == id then row else rows[i]
  {
    if i > 0 {
      UpdateRowsEach(rows[1..], photoOf, id, row, i - 1);
    } else if |rows| > 1 {
      UpdateRowsEach(rows[1..], photoOf, id, row, 0);
    }
  }

  lemma {:induction false} UpdateRowsFirst<R>(rows: seq<R>, photoOf: R -> int, id: int, row: R, other: int)
    requires photoOf(row) == id
    ensures FirstOf(UpdateRows(rows, photoOf, id, row), photoOf, other)
         == if other == id && CountOf(rows, photoOf, id) > 0 then Some(row) else FirstOf(rows, photoOf, other)
    ensures CountOf(UpdateRows(rows, photoOf, id, row), photoOf, other) == CountOf(rows, photoOf, other)
  {
    if rows != [] {
      UpdateRowsFirst(rows[1..], photoOf, id, row, other);
    }
  }

  lemma {:induction false} AppendFirst<R>(rows: seq<R>, photoOf: R -> int, row: R, other: int)
    ensures FirstOf(rows + [row], photoOf, other)
         == if CountOf(rows, photoOf, other) > 0 then FirstOf(rows, photoOf, other)
            else if photoOf(row) == other then Some(row) else None
    ensures CountOf(rows + [row], photoOf, other) == CountOf(rows, photoOf, other) + if photoOf(row) == other then 1 else 0
    ensures CountOf(rows, photoOf, other) == 0 <==> FirstOf(rows, photoOf, other).None?
  {
    if rows != [] {
      assert (rows + [row])[1..] == rows[1..] + [row];
      AppendFirst(rows[1..], photoOf, row, other);
    } else {
      assert (rows + [row])[1..] == [];
    }
  }

  /** Reading after an upsert: the photo reads the new row, every other photo what it read before. */
  lemma UpsertFirst<R>(rows: seq<R>, photoOf: R -> int, id: int, row: R, other: int)
    requires photoOf(row) == id
    ensures FirstOf(Upsert(rows, photoOf, id, row), photoOf, other) == if other == id then Some(row) else FirstOf(rows, photoOf, other)
    ensures CountOf(Upsert(rows, photoOf, id, row), photoOf, other)
         == if other == id && CountOf(rows, photoOf, id) == 0 then 1 else CountOf(rows, photoOf, other)
  {
    UpdateRowsFirst(rows, photoOf, id, row, other);
    AppendFirst(rows, photoOf, row, other);
  }

  // ---------------------------------------------------------------------------
  // The tags of a photo
  // ---------------------------------------------------------------------------

  function TagsOfPhoto(tags: seq<TagRow>, id: int): (r: seq<TagRow>)
    ensures forall x :: x in r <==> x in tags && x.photoId == id
  {
    if tags == [] then []
    else (if tags[0].photoId == id then [tags[0]] else []) + TagsOfPhoto(tags[1..], id)
  }

  function TagsOfOthers(tags: seq<TagRow>, id: int): (r: seq<TagRow>)
    ensures forall x :: x in r <==> x in tags && x.photoId != id
  {
    if tags == [] then []
    else (if tags[0].photoId != id then [tags[0]] else []) + TagsOfOthers(tags[1..], id)
  }

  lemma TagsOfPhotoCons(row: TagRow, tail: seq<TagRow>, id: int)
    ensures TagsOfPhoto([row] + tail, id) == (if row.photoId == id then [row] else []) + TagsOfPhoto(tail, id)
    ensures TagsOfOthers([row] + tail, id) == (if row.photoId != id then [row] else []) + TagsOfOthers(tail, id)
  {
    assert ([row] + tail)[1..] == tail;
  }

  lemma SameIdSameRow(tags: seq<TagRow>, x: TagRow, y: TagRow)
    requires DistinctTagIds(tags) && x in tags && y in tags && x.id == y.id
    ensures x == y
  {
  }

  lemma {:induction false} TagsOfPhotoAppend(tags: seq<TagRow>, row: TagRow, id: int)
    ensures TagsOfPhoto(tags + [row], id) == TagsOfPhoto(tags, id) + if row.photoId == id then [row] else []
  {
    var all := tags + [row];
    if tags == [] {
      assert all[1..] == [];
    } else {
      assert all[1..] == tags[1..] + [row] && all[0] == tags[0];
      TagsOfPhotoAppend(tags[1..], row, id);
    }
  }

  lemma {:induction false} TagsOfOthersAppend(tags: seq<TagRow>, row: TagRow, id: int)
    ensures TagsOfOthers(tags + [row], id) == TagsOfOthers(tags, id) + if row.photoId != id then [row] else []
  {
    var all := tags + [row];
    if tags == [] {
      assert all[1..] == [];
    } else {
      assert all[1..] == tags[1..] + [row] && all[0] == tags[0];
      TagsOfOthersAppend(tags[1..], row, id);
    }
  }

  /** The other photos' rows determine what each other photo has. */
  lemma {:induction false} OthersDetermine(tags: seq<TagRow>, id: int, other: int)
    requires other != id
    ensures TagsOfPhoto(TagsOfOthers(tags, id), other) == TagsOfPhoto(tags, other)
  {
    if tags != [] {
      OthersDetermine(tags[1..], id, other);
      var rest := TagsOfOthers(tags[1..], id);
      if tags[0].photoId != id {
        assert ([tags[0]] + rest)[1..] == rest;
      } else {
        assert TagsOfOthers(tags, id) == rest;
      }
    }
  }

  lemma {:induction false} TagsOfPhotoDistinct(tags: seq<TagRow>, id: int)
    requires DistinctTagIds(tags)
    ensures DistinctTagIds(TagsOfPhoto(tags, id))
  {
    if tags != [] {
      TagsOfPhotoDistinct(tags[1..], id);
      var mine := TagsOfPhoto(tags[1..], id);
      forall i | 0 <= i < |mine|
        ensures mine[i].id != tags[0].id
      {
        assert mine[i] in tags[1..];
      }
    }
  }
}
