/** Keys of the tables that storing keeps: one row per tag, and rows only for photos that exist. */
module TableKeys {
  import opened Common
  import opened Photos
  import opened Tables
  import opened ChangeLog
  import opened TagStorage
  import opened SqlBackend
  import MapCompare

  // ---------------------------------------------------------------------------
  // One row per tag
  // ---------------------------------------------------------------------------

  ghost predicate DistinctNames(rows: seq<TagRow>) {
    forall i, j :: 0 <= i < j < |rows| ==> rows[i].name != rows[j].name
  }

  lemma {:induction false} NamesDistinctIn(tags: seq<TagRow>, photo: int)
    requires OneRowPerTag(tags)
    ensures DistinctNames(TagsOfPhoto(tags, photo))
  {
    if tags != [] {
      NamesDistinctIn(tags[1..], photo);
      var mine := TagsOfPhoto(tags[1..], photo);
      forall i | 0 <= i < |mine| && tags[0].photoId == photo
        ensures mine[i].name != tags[0].name
      {
        assert mine[i] in tags[1..];
      }
    }
  }

  lemma {:induction false} NamesDistinctEverywhere(tags: seq<TagRow>)
    requires forall photo: int :: DistinctNames(TagsOfPhoto(tags, photo))
    ensures OneRowPerTag(tags)
  {
    if tags != [] {
      var tail := tags[1..];
      forall photo: int
        ensures DistinctNames(TagsOfPhoto(tail, photo))
      {
        var mine := TagsOfPhoto(tail, photo);
        assert DistinctNames(TagsOfPhoto(tags, photo));
        forall i, j | 0 <= i < j < |mine|
          ensures mine[i].name != mine[j].name
        {
          if tags[0].photoId == photo {
            assert TagsOfPhoto(tags, photo)[i + 1] == mine[i] && TagsOfPhoto(tags, photo)[j + 1] == mine[j];
          } else {
            assert TagsOfPhoto(tags, photo) == mine;
          }
        }
      }
      NamesDistinctEverywhere(tail);
      forall j | 0 <= j < |tail|
        ensures tags[0].photoId != tail[j].photoId || tags[0].name != tail[j].name
      {
        if tags[0].photoId == tail[j].photoId {
          HeadNameIsNew(tags, j);
        }
      }
      forall i, j | 0 <= i < j < |tags|
        ensures tags[i].photoId != tags[j].photoId || tags[i].name != tags[j].name
      {
        assert tags[j] == tail[j - 1];
        if i > 0 {
          assert tags[i] == tail[i - 1];
        }
      }
    }
  }

  lemma HeadNameIsNew(tags: seq<TagRow>, j: nat)
    requires j + 1 < |tags| && tags[0].photoId == tags[j + 1].photoId
    requires DistinctNames(TagsOfPhoto(tags, tags[0].photoId))
    ensures tags[0].name != tags[j + 1].name
  {
    var photo := tags[0].photoId;
    var mine := TagsOfPhoto(tags[1..], photo);
    assert tags[1..][j] in mine;
    var k :| 0 <= k < |mine| && mine[k] == tags[j + 1];
    assert TagsOfPhoto(tags, photo)[0] == tags[0] && TagsOfPhoto(tags, photo)[k + 1] == mine[k];
  }

  /** Storing a tag list keeps one row per tag, for every photo. */
  lemma StoringKeepsOneRowPerTag(before: seq<TagRow>, after: seq<TagRow>, photo: int, tags: Tags)
    requires OneRowPerTag(before) && TagsStored(before, after, photo, tags)
    ensures OneRowPerTag(after)
  {
    forall other: int
      ensures DistinctNames(TagsOfPhoto(after, other))
    {
      if other == photo {
        TagEntriesOrdered(tags);
        StoredNamesDistinct(TagsOfPhoto(after, photo), TagEntries(tags));
      } else {
        NamesDistinctIn(before, other);
        OthersDetermine(before, photo, other);
        OthersDetermine(after, photo, other);
      }
    }
    NamesDistinctEverywhere(after);
  }

  lemma StoredNamesDistinct(rows: seq<TagRow>, entries: seq<(int, string)>)
    requires RowsSay(rows, entries) && MapCompare.Ordered(entries)
    ensures DistinctNames(rows)
  {
    forall i, j | 0 <= i < j < |rows|
      ensures rows[i].name != rows[j].name
    {
      assert Says(rows[i], entries[i]) && Says(rows[j], entries[j]);
      assert entries[i].0 < entries[j].0;
    }
  }

  // ---------------------------------------------------------------------------
  // Rows only for photos that exist
  // ---------------------------------------------------------------------------

  ghost predicate RowsHavePhotos(db: Tables) {
    && (forall r :: r in db.tags ==> HasPhoto(db, r.photoId))
    && (forall r :: r in db.geometry ==> HasPhoto(db, r.photoId))
    && (forall r :: r in db.sha256sums ==> HasPhoto(db, r.photoId))
    && (forall r :: r in db.flags ==> HasPhoto(db, r.photoId))
  }

  lemma {:induction false} UpdatedRowIsOldOrNew<R>(rows: seq<R>, photoOf: R -> int, id: int, row: R, x: R)
    requires x in UpdateRows(rows, photoOf, id, row)
    ensures x in rows || x == row
  {
    if x != (if photoOf(rows[0]) == id then row else rows[0]) {
      UpdatedRowIsOldOrNew(rows[1..], photoOf, id, row, x);
    }
  }

  lemma UpsertedRowIsOldOrNew<R>(rows: seq<R>, photoOf: R -> int, id: int, row: R, x: R)
    requires x in Upsert(rows, photoOf, id, row)
    ensures x in rows || x == row
  {
    if CountOf(rows, photoOf, id) != 0 {
      UpdatedRowIsOldOrNew(rows, photoOf, id, row, x);
    }
  }

  lemma TagRowsHavePhotos(before: Tables, after: Tables, delta: Delta)
    requires delta.id.Some? && HasPhoto(before, delta.id.value) && RowsHavePhotos(before) && ColumnsStored(before, after, delta)
    ensures forall r :: r in after.tags ==> HasPhoto(after, r.photoId)
  {
    var id := delta.id.value;
    forall r | r in after.tags
      ensures HasPhoto(before, r.photoId)
    {
      if delta.tags.Some? && r.photoId != id {
        assert r in TagsOfOthers(after.tags, id);
        assert r in before.tags;
      }
    }
  }

  lemma OtherRowsHavePhotos(before: Tables, after: Tables, delta: Delta)
    requires delta.id.Some? && HasPhoto(before, delta.id.value) && RowsHavePhotos(before) && ColumnsStored(before, after, delta)
    ensures forall r :: r in after.geometry ==> HasPhoto(after, r.photoId)
    ensures forall r :: r in after.sha256sums ==> HasPhoto(after, r.photoId)
    ensures forall r :: r in after.flags ==> HasPhoto(after, r.photoId)
  {
    var id := delta.id.value;
    forall r | r in after.geometry
      ensures HasPhoto(before, r.photoId)
    {
      match delta.geometry
      case None =>
      case Some(g) => UpsertedRowIsOldOrNew(before.geometry, GeometryPhoto, id, GeometryRow(id, g.width, g.height), r);
    }
    forall r | r in after.sha256sums
      ensures HasPhoto(before, r.photoId)
    {
      match delta.checksum
      case None =>
      case Some(c) => UpsertedRowIsOldOrNew(before.sha256sums, Sha256Photo, id, Sha256Row(id, c), r);
    }
    forall r | r in after.flags
      ensures HasPhoto(before, r.photoId)
    {
      match delta.flags
      case None =>
      case Some(f) => UpsertedRowIsOldOrNew(before.flags, FlagsPhoto, id, FlagsRowOf(id, f), r);
    }
  }

  /** The keys a stored delta keeps. */
  ghost predicate KeysIntact(db: Tables) {
    DistinctTagIds(db.tags) && OneRowPerTag(db.tags) && RowsHavePhotos(db)
  }

  lemma StoringKeepsKeys(before: Tables, after: Tables, delta: Delta)
    requires delta.id.Some? && HasPhoto(before, delta.id.value) && KeysIntact(before) && ColumnsStored(before, after, delta)
    ensures KeysIntact(after)
  {
    TagRowsHavePhotos(before, after, delta);
    OtherRowsHavePhotos(before, after, delta);
    match delta.tags
    case None =>
    case Some(t) => StoringKeepsOneRowPerTag(before.tags, after.tags, delta.id.value, t);
  }

  /** A photo id nobody uses reads as an empty record. */
  lemma {:induction false} NoRowNothingFirst<R>(rows: seq<R>, photoOf: R -> int, id: int)
    requires forall r :: r in rows ==> photoOf(r) != id
    ensures FirstOf(rows, photoOf, id) == None
  {
    if rows != [] {
      NoRowNothingFirst(rows[1..], photoOf, id);
    }
  }

  lemma {:induction false} NoTagRows(rows: seq<TagRow>, id: int)
    requires forall r :: r in rows ==> r.photoId != id
    ensures TagsOfPhoto(rows, id) == []
  {
    if rows != [] {
      NoTagRows(rows[1..], id);
    }
  }

  lemma UnknownPhotoReadsEmpty(db: Tables, id: int)
    requires RowsHavePhotos(db) && !HasPhoto(db, id)
    ensures ReadTags(TagsOfPhoto(db.tags, id)) == map[] && ReadGeometry(db, id) == NO_SIZE
    ensures ReadChecksum(db, id) == None && FirstOf(db.flags, FlagsPhoto, id) == None
  {
    NoRowNothingFirst(db.geometry, GeometryPhoto, id);
    NoRowNothingFirst(db.sha256sums, Sha256Photo, id);
    NoRowNothingFirst(db.flags, FlagsPhoto, id);
    NoTagRows(db.tags, id);
  }
}
