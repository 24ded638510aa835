/** Storing the tags of a photo over whatever rows it had: surplus rows go, the others are reused, missing ones are added. */
module TagStorage {
  import opened Common
  import opened Photos
  import opened Tables
  import opened ChangeLog
  import opened Transactions

  // ---------------------------------------------------------------------------
  // Statements on the tags table
  // ---------------------------------------------------------------------------

  function IdsOf(rows: seq<TagRow>): (ids: seq<int>)
    ensures |ids| == |rows| && forall i :: 0 <= i < |rows| ==> ids[i] == rows[i].id
  {
    seq(|rows|, i requires 0 <= i < |rows| => rows[i].id)
  }

  function DeleteIds(rows: seq<TagRow>, ids: seq<int>): (r: seq<TagRow>)
    ensures forall x :: x in r <==> x in rows && x.id !in ids
  {
    if rows == [] then []
    else (if rows[0].id in ids then [] else [rows[0]]) + DeleteIds(rows[1..], ids)
  }

  /** UPDATE tags SET value, photo_id, name WHERE id = tagId */
  function OverwriteTag(rows: seq<TagRow>, tagId: int, photoId: int, name: int, value: string): seq<TagRow> {
    if rows == [] then []
    else [if rows[0].id == tagId then TagRow(tagId, photoId, name, Some(value)) else rows[0]]
         + OverwriteTag(rows[1..], tagId, photoId, name, value)
  }

  /** The id a new row gets: one more than the greatest in use. */
  function NextTagId(rows: seq<TagRow>): (n: int)
    ensures n >= 1 && forall x :: x in rows ==> x.id < n
  {
    if rows == [] then 1
    else
      var rest := NextTagId(rows[1..]);
      if rows[0].id < rest then rest else rows[0].id + 1
  }

  // ---------------------------------------------------------------------------
  // Their effect, seen from one photo
  // ---------------------------------------------------------------------------

  lemma {:induction false} DeleteKeepsDistinct(rows: seq<TagRow>, ids: seq<int>)
    requires DistinctTagIds(rows)
    ensures DistinctTagIds(DeleteIds(rows, ids))
  {
    if rows != [] {
      DeleteKeepsDistinct(rows[1..], ids);
      var rest := DeleteIds(rows[1..], ids);
      forall i | 0 <= i < |rest|
        ensures rest[i].id != rows[0].id
      {
        assert rest[i] in rows[1..];
      }
    }
  }

  /** Deleting rows that no other photo has leaves the other photos alone. */
  lemma {:induction false} DeleteLeavesOthers(rows: seq<TagRow>, photoId: int, ids: seq<int>)
    requires forall x :: x in rows && x.photoId != photoId ==> x.id !in ids
    ensures TagsOfOthers(DeleteIds(rows, ids), photoId) == TagsOfOthers(rows, photoId)
    ensures TagsOfPhoto(DeleteIds(rows, ids), photoId) == DeleteIds(TagsOfPhoto(rows, photoId), ids)
  {
    if rows != [] {
      DeleteLeavesOthers(rows[1..], photoId, ids);
      var rest := DeleteIds(rows[1..], ids);
      if rows[0].id !in ids {
        assert ([rows[0]] + rest)[1..] == rest;
      } else {
        assert DeleteIds(rows, ids) == rest;
      }
      if rows[0].photoId == photoId {
        var mine := TagsOfPhoto(rows[1..], photoId);
        assert ([rows[0]] + mine)[1..] == mine;
      } else {
        assert TagsOfPhoto(rows, photoId) == TagsOfPhoto(rows[1..], photoId);
      }
    }
  }

  lemma {:induction false} DeleteNothing(rows: seq<TagRow>, ids: seq<int>)
    requires forall x :: x in rows ==> x.id !in ids
    ensures DeleteIds(rows, ids) == rows
  {
    if rows != [] {
      DeleteNothing(rows[1..], ids);
    }
  }

  /** Deleting the ids from position k on keeps the first k rows. */
  lemma {:induction false} DeleteSurplus(rows: seq<TagRow>, k: nat)
    requires DistinctTagIds(rows) && k <= |rows|
    ensures DeleteIds(rows, IdsOf(rows)[k..]) == rows[..k]
  {
    var ids := IdsOf(rows)[k..];
    if k == 0 {
      DeleteAll(rows, ids);
    } else {
      var tail := rows[1..];
      assert IdsOf(tail)[k - 1..] == ids;
      DeleteSurplus(tail, k - 1);
      forall i | 0 <= i < |ids|
        ensures ids[i] != rows[0].id
      {
        assert ids[i] == rows[k + i].id;
      }
      assert rows[..k] == [rows[0]] + tail[..k - 1];
    }
  }

  lemma {:induction false} DeleteAll(rows: seq<TagRow>, ids: seq<int>)
    requires forall x :: x in rows ==> x.id in ids
    ensures DeleteIds(rows, ids) == []
  {
    if rows != [] {
      DeleteAll(rows[1..], ids);
    }
  }

  lemma {:induction false} OverwriteMembers(rows: seq<TagRow>, tagId: int, photoId: int, name: int, value: string)
    ensures |OverwriteTag(rows, tagId, photoId, name, value)| == |rows|
    ensures forall i :: 0 <= i < |rows| ==> OverwriteTag(rows, tagId, photoId, name, value)[i].id == rows[i].id
  {
    if rows != [] {
      OverwriteMembers(rows[1..], tagId, photoId, name, value);
    }
  }

  lemma {:induction false} OverwriteNobody(rows: seq<TagRow>, tagId: int, photoId: int, name: int, value: string)
    requires forall x :: x in rows ==> x.id != tagId
    ensures OverwriteTag(rows, tagId, photoId, name, value) == rows
  {
    if rows != [] {
      OverwriteNobody(rows[1..], tagId, photoId, name, value);
    }
  }

  lemma OverwriteCons(head: TagRow, tail: seq<TagRow>, tagId: int, photoId: int, name: int, value: string)
    ensures OverwriteTag([head] + tail, tagId, photoId, name, value)
         == [if head.id == tagId then TagRow(tagId, photoId, name, Some(value)) else head]
            + OverwriteTag(tail, tagId, photoId, name, value)
  {
    assert ([head] + tail)[1..] == tail;
  }

  ghost predicate ReplacesMine(before: seq<TagRow>, after: seq<TagRow>, photoId: int, k: nat, row: TagRow)
    requires k < |TagsOfPhoto(before, photoId)|
  {
    && TagsOfPhoto(after, photoId) == TagsOfPhoto(before, photoId)[k := row]
    && TagsOfOthers(after, photoId) == TagsOfOthers(before, photoId)
  }

  lemma ReplacesBehind(head: TagRow, tail: seq<TagRow>, after: seq<TagRow>, photoId: int, j: nat, row: TagRow)
    requires j < |TagsOfPhoto(tail, photoId)| && ReplacesMine(tail, after, photoId, j, row)
    ensures var k := if head.photoId == photoId then j + 1 else j;
            k < |TagsOfPhoto([head] + tail, photoId)| && ReplacesMine([head] + tail, [head] + after, photoId, k, row)
  {
    TagsOfPhotoCons(head, tail, photoId);
    TagsOfPhotoCons(head, after, photoId);
    var mine := TagsOfPhoto(tail, photoId);
    assert ([head] + mine)[j + 1 := row] == [head] + mine[j := row];
  }

  lemma DistinctTail(rows: seq<TagRow>)
    requires DistinctTagIds(rows) && rows != []
    ensures DistinctTagIds(rows[1..]) && forall x :: x in rows[1..] ==> x.id != rows[0].id
  {
  }

  /** Overwriting the k-th row of a photo replaces just that row. */
  lemma {:induction false} OverwriteMine(rows: seq<TagRow>, photoId: int, k: nat, name: int, value: string)
    requires DistinctTagIds(rows) && k < |TagsOfPhoto(rows, photoId)|
    ensures var tagId := TagsOfPhoto(rows, photoId)[k].id;
            ReplacesMine(rows, OverwriteTag(rows, tagId, photoId, name, value), photoId, k, TagRow(tagId, photoId, name, Some(value)))
  {
    var head, tail := rows[0], rows[1..];
    assert rows == [head] + tail;
    DistinctTail(rows);
    TagsOfPhotoCons(head, tail, photoId);
    if head.photoId == photoId && k == 0 {
      OverwriteHead(head, tail, photoId, name, value);
    } else {
      var j := if head.photoId == photoId then k - 1 else k;
      OverwriteMine(tail, photoId, j, name, value);
      OverwriteBehind(head, tail, photoId, j, name, value);
    }
  }

  lemma OverwriteHead(head: TagRow, tail: seq<TagRow>, photoId: int, name: int, value: string)
    requires head.photoId == photoId && forall x :: x in tail ==> x.id != head.id
    ensures TagsOfPhoto([head] + tail, photoId) != []
    ensures ReplacesMine([head] + tail, OverwriteTag([head] + tail, head.id, photoId, name, value), photoId, 0,
                         TagRow(head.id, photoId, name, Some(value)))
  {
    var row := TagRow(head.id, photoId, name, Some(value));
    assert OverwriteTag([head] + tail, head.id, photoId, name, value) == [row] + tail by {
      OverwriteCons(head, tail, head.id, photoId, name, value);
      OverwriteNobody(tail, head.id, photoId, name, value);
    }
    ReplaceFirst(head, row, tail, photoId);
  }

  lemma ReplaceFirst(head: TagRow, row: TagRow, tail: seq<TagRow>, photoId: int)
    requires head.photoId == photoId && row.photoId == photoId
    ensures TagsOfPhoto([head] + tail, photoId) != []
    ensures ReplacesMine([head] + tail, [row] + tail, photoId, 0, row)
  {
    TagsOfPhotoCons(head, tail, photoId);
    TagsOfPhotoCons(row, tail, photoId);
    assert ([head] + TagsOfPhoto(tail, photoId))[0 := row] == [row] + TagsOfPhoto(tail, photoId);
  }

  lemma OverwriteBehind(head: TagRow, tail: seq<TagRow>, photoId: int, j: nat, name: int, value: string)
    requires j < |TagsOfPhoto(tail, photoId)| && forall x :: x in tail ==> x.id != head.id
    requires var tagId := TagsOfPhoto(tail, photoId)[j].id;
             ReplacesMine(tail, OverwriteTag(tail, tagId, photoId, name, value), photoId, j, TagRow(tagId, photoId, name, Some(value)))
    ensures var tagId := TagsOfPhoto(tail, photoId)[j].id;
            var k := if head.photoId == photoId then j + 1 else j;
            && k < |TagsOfPhoto([head] + tail, photoId)| && TagsOfPhoto([head] + tail, photoId)[k].id == tagId
            && ReplacesMine([head] + tail, OverwriteTag([head] + tail, tagId, photoId, name, value), photoId, k,
                            TagRow(tagId, photoId, name, Some(value)))
  {
    var x := TagsOfPhoto(tail, photoId)[j];
    assert x in tail;
    TagsOfPhotoCons(head, tail, photoId);
    OverwriteCons(head, tail, x.id, photoId, name, value);
    ReplacesBehind(head, tail, OverwriteTag(tail, x.id, photoId, name, value), photoId, j, TagRow(x.id, photoId, name, Some(value)));
  }

  // ---------------------------------------------------------------------------
  // Storing
  // ---------------------------------------------------------------------------

  /** Row i says what entry i says. */
  ghost predicate Says(row: TagRow, entry: (int, string)) {
    row.name == entry.0 && row.value == Some(entry.1)
  }

  /** Exactly one row for each entry, in order. */
  ghost predicate RowsSay(rows: seq<TagRow>, entries: seq<(int, string)>) {
    |rows| == |entries| && forall i :: 0 <= i < |rows| ==> Says(rows[i], entries[i])
  }

  ghost predicate OnlyTagsOf(before: seq<TagRow>, after: seq<TagRow>, photoId: int) {
    DistinctTagIds(after) && TagsOfOthers(after, photoId) == TagsOfOthers(before, photoId)
  }

  /** The method's goal: one row per tag, rows reused in order, no other photo's rows changed. */
  ghost predicate TagsStored(before: seq<TagRow>, after: seq<TagRow>, photoId: int, tags: Tags) {
    EntriesStored(before, after, photoId, TagEntries(tags))
  }

  ghost predicate EntriesStored(before: seq<TagRow>, after: seq<TagRow>, photoId: int, entries: seq<(int, string)>) {
    var was, now := TagsOfPhoto(before, photoId), TagsOfPhoto(after, photoId);
    && OnlyTagsOf(before, after, photoId)
    && RowsSay(now, entries)
    && forall i :: 0 <= i < |was| && i < |now| ==> now[i].id == was[i].id
  }

  /** One tag value: overwrites the row tagId, or inserts when there is none to reuse. */
  method StoreTag(db: Connection<Tables>, value: string, photoId: int, name: int, tagId: Option<int>) returns (ok: bool)
    requires value != ""
    modifies db
    ensures db.Asked() && ok == db.succeeds(old(db.requests))
    ensures db.saved == old(db.saved) && db.open == old(db.open) && db.commits == old(db.commits) && db.rollbacks == old(db.rollbacks)
    ensures db.store == if !ok then old(db.store) else old(db.store).(tags :=
      match tagId
      case None => old(db.store).tags + [TagRow(NextTagId(old(db.store).tags), photoId, name, Some(value))]
      case Some(t) => OverwriteTag(old(db.store).tags, t, photoId, name, value))
  {
    ok := db.Request();
    if ok {
      var rows := db.store.tags;
      match tagId
      case None => db.Write(db.store.(tags := rows + [TagRow(NextTagId(rows), photoId, name, Some(value))]));
      case Some(t) => db.Write(db.store.(tags := OverwriteTag(rows, t, photoId, name, value)));
    }
  }

  /** How far the loop has come: the first rows say the new entries, the rest of the reused rows are as they were. */
  ghost predicate Progress(rows: seq<TagRow>, was: seq<TagRow>, entries: seq<(int, string)>, done: nat, kept: nat) {
    && kept <= |was| && done <= |entries|
    && |rows| == (if done < kept then kept else done)
    && (forall i :: 0 <= i < done && i < |rows| ==> Says(rows[i], entries[i]))
    && (forall i :: 0 <= i < kept && i < |rows| ==> rows[i].id == was[i].id)
  }

  /** What storing never touches on the connection. */
  twostate predicate OnlyTagsWritten(db: Connection<Tables>)
    reads db
  {
    && db.saved == old(db.saved) && db.open == old(db.open)
    && db.commits == old(db.commits) && db.rollbacks == old(db.rollbacks)
    && db.store == old(db.store).(tags := db.store.tags)
  }

  /** Deletes the rows of the photo from position `kept` on. */
  method TrimTags(db: Connection<Tables>, photoId: int, kept: nat) returns (ok: bool)
    requires DistinctTagIds(db.store.tags) && kept <= |TagsOfPhoto(db.store.tags, photoId)|
    modifies db
    ensures OnlyTagsWritten(db)
    ensures db.Asked() && ok == db.succeeds(old(db.requests))
    ensures OnlyTagsOf(old(db.store).tags, db.store.tags, photoId)
    ensures ok ==> TagsOfPhoto(db.store.tags, photoId) == TagsOfPhoto(old(db.store).tags, photoId)[..kept]
  {
    ok := db.Request();
    if ok {
      var rows := db.store.tags;
      var surplus := IdsOf(TagsOfPhoto(rows, photoId))[kept..];
      ForeignIds(rows, photoId, TagsOfPhoto(rows, photoId), kept);
      TagsOfPhotoDistinct(rows, photoId);
      DeleteLeavesOthers(rows, photoId, surplus);
      DeleteSurplus(TagsOfPhoto(rows, photoId), kept);
      DeleteKeepsDistinct(rows, surplus);
      db.Write(db.store.(tags := DeleteIds(rows, surplus)));
    }
  }

  /** One round: the row at this position is overwritten, or one is inserted. */
  method WriteEntry(db: Connection<Tables>, ghost before: seq<TagRow>, photoId: int, entries: seq<(int, string)>, ids: seq<int>,
                    kept: nat, counter: nat) returns (ok: bool)
    requires DistinctTagIds(before) && kept <= |entries| && kept <= |ids| && counter < |entries| && entries[counter].1 != ""
    requires |TagsOfPhoto(before, photoId)| == kept
    requires forall i :: 0 <= i < kept ==> TagsOfPhoto(before, photoId)[i].id == ids[i]
    requires OnlyTagsOf(before, db.store.tags, photoId)
    requires Progress(TagsOfPhoto(db.store.tags, photoId), TagsOfPhoto(before, photoId), entries, counter, kept)
    modifies db
    ensures OnlyTagsWritten(db)
    ensures db.Asked() && ok == db.succeeds(old(db.requests))
    ensures OnlyTagsOf(before, db.store.tags, photoId)
    ensures ok ==> Progress(TagsOfPhoto(db.store.tags, photoId), TagsOfPhoto(before, photoId), entries, counter + 1, kept)
  {
    ghost var rows, was := db.store.tags, TagsOfPhoto(before, photoId);
    var tagId := if counter < kept then Some(ids[counter]) else None;
    ok := StoreTag(db, entries[counter].1, photoId, entries[counter].0, tagId);
    if ok {
      if counter < kept {
        StepReuses(before, rows, was, entries, counter, kept, photoId);
      } else {
        StepInserts(before, rows, was, entries, counter, kept, photoId);
      }
    }
  }

  /** Overwrites the kept rows, then inserts. */
  method WriteEntries(db: Connection<Tables>, photoId: int, entries: seq<(int, string)>, ids: seq<int>, kept: nat) returns (ok: bool)
    requires DistinctTagIds(db.store.tags) && kept <= |entries| && kept <= |ids|
    requires |TagsOfPhoto(db.store.tags, photoId)| == kept
    requires forall i :: 0 <= i < kept ==> TagsOfPhoto(db.store.tags, photoId)[i].id == ids[i]
    requires forall i :: 0 <= i < |entries| ==> entries[i].1 != ""
    modifies db
    ensures OnlyTagsWritten(db) && AsRequested(db, ok)
    ensures OnlyTagsOf(old(db.store).tags, db.store.tags, photoId)
    ensures ok ==> Progress(TagsOfPhoto(db.store.tags, photoId), TagsOfPhoto(old(db.store).tags, photoId), entries, |entries|, kept)
  {
    ghost var before := db.store.tags;
    ghost var was := TagsOfPhoto(before, photoId);
    ok := true;
    var counter := 0;
    while ok && counter < |entries|
      invariant 0 <= counter <= |entries|
      invariant OnlyTagsWritten(db) && AsRequested(db, ok)
      invariant OnlyTagsOf(before, db.store.tags, photoId)
      invariant ok ==> Progress(TagsOfPhoto(db.store.tags, photoId), was, entries, counter, kept)
      decreases |entries| - counter, ok
    {
      ok := WriteEntry(db, before, photoId, entries, ids, kept, counter);
      if ok {
        counter := counter + 1;
      }
    }
  }

  /** Trims what is too much, then writes the entries. */
  method ReplaceTags(db: Connection<Tables>, photoId: int, entries: seq<(int, string)>) returns (ok: bool)
    requires DistinctTagIds(db.store.tags)
    requires forall i :: 0 <= i < |entries| ==> entries[i].1 != ""
    modifies db
    ensures OnlyTagsWritten(db) && AsRequested(db, ok)
    ensures OnlyTagsOf(old(db.store).tags, db.store.tags, photoId)
    ensures ok ==> EntriesStored(old(db.store).tags, db.store.tags, photoId, entries)
  {
    var currentIds := IdsOf(TagsOfPhoto(db.store.tags, photoId));
    var kept := |currentIds|;
    ok := true;
    if |currentIds| > |entries| {
      kept := |entries|;
      ok := TrimTags(db, photoId, kept);
    }
    if ok {
      ok := WriteEntries(db, photoId, entries, currentIds, kept);
    }
  }

  method StoreTags(db: Connection<Tables>, photoId: int, tags: Tags) returns (ok: bool)
    requires DistinctTagIds(db.store.tags)
    // storing asserts that values are not empty
    requires forall t :: t in tags ==> tags[t] != ""
    modifies db
    ensures OnlyTagsWritten(db) && AsRequested(db, ok)
    ensures OnlyTagsOf(old(db.store).tags, db.store.tags, photoId)
    ensures ok ==> TagsStored(old(db.store).tags, db.store.tags, photoId, tags)
  {
    ok := db.Request();
    if ok {
      EntriesNotEmpty(tags);
      ok := ReplaceTags(db, photoId, TagEntries(tags));
    }
  }

  lemma EntriesNotEmpty(tags: Tags)
    requires forall t :: t in tags ==> tags[t] != ""
    ensures forall i :: 0 <= i < |TagEntries(tags)| ==> TagEntries(tags)[i].1 != ""
  {
    EntriesFrom(tags, 0);
    assert TAG_ORDER[0..] == TAG_ORDER;
    forall i | 0 <= i < |TagEntries(tags)|
      ensures TagEntries(tags)[i].1 != ""
    {
      assert TagEntries(tags)[i] in TagEntries(tags);
    }
  }

  /** Ids of a photo's rows are ids of no other photo's rows. */
  lemma ForeignIds(rows: seq<TagRow>, photoId: int, was: seq<TagRow>, k: nat)
    requires DistinctTagIds(rows) && was == TagsOfPhoto(rows, photoId) && k <= |was|
    ensures forall x :: x in rows && x.photoId != photoId ==> x.id !in IdsOf(was)[k..]
  {
    forall x, i | x in rows && x.photoId != photoId && k <= i < |was|
      ensures x.id != was[i].id
    {
      assert was[i] in was;
      if x.id == was[i].id {
        SameIdSameRow(rows, x, was[i]);
      }
    }
  }

  /** One more entry stored over a row that is reused. */
  lemma StepReuses(before: seq<TagRow>, rows: seq<TagRow>, was: seq<TagRow>, entries: seq<(int, string)>, counter: nat, kept: nat, photoId: int)
    requires OnlyTagsOf(before, rows, photoId) && counter < kept <= |entries|
    requires Progress(TagsOfPhoto(rows, photoId), was, entries, counter, kept)
    ensures var after := OverwriteTag(rows, was[counter].id, photoId, entries[counter].0, entries[counter].1);
            && OnlyTagsOf(before, after, photoId)
            && Progress(TagsOfPhoto(after, photoId), was, entries, counter + 1, kept)
  {
    OverwriteMine(rows, photoId, counter, entries[counter].0, entries[counter].1);
    OverwriteMembers(rows, was[counter].id, photoId, entries[counter].0, entries[counter].1);
  }

  /** A new row has a new id. */
  lemma NewRowKeepsDistinct(rows: seq<TagRow>, row: TagRow)
    requires DistinctTagIds(rows) && row.id == NextTagId(rows)
    ensures DistinctTagIds(rows + [row])
  {
    forall i | 0 <= i < |rows|
      ensures rows[i].id != row.id
    {
      assert rows[i] in rows;
    }
  }

  lemma ProgressInserts(mine: seq<TagRow>, was: seq<TagRow>, entries: seq<(int, string)>, counter: nat, kept: nat, row: TagRow)
    requires kept <= counter < |entries| && Progress(mine, was, entries, counter, kept) && Says(row, entries[counter])
    ensures Progress(mine + [row], was, entries, counter + 1, kept)
  {
  }

  /** One more entry stored in a new row. */
  lemma StepInserts(before: seq<TagRow>, rows: seq<TagRow>, was: seq<TagRow>, entries: seq<(int, string)>, counter: nat, kept: nat, photoId: int)
    requires OnlyTagsOf(before, rows, photoId) && kept <= counter < |entries|
    requires Progress(TagsOfPhoto(rows, photoId), was, entries, counter, kept)
    ensures var after := rows + [TagRow(NextTagId(rows), photoId, entries[counter].0, Some(entries[counter].1))];
            && OnlyTagsOf(before, after, photoId)
            && Progress(TagsOfPhoto(after, photoId), was, entries, counter + 1, kept)
  {
    var row := TagRow(NextTagId(rows), photoId, entries[counter].0, Some(entries[counter].1));
    TagsOfPhotoAppend(rows, row, photoId);
    TagsOfOthersAppend(rows, row, photoId);
    NewRowKeepsDistinct(rows, row);
    ProgressInserts(TagsOfPhoto(rows, photoId), was, entries, counter, kept, row);
  }
}
