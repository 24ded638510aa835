/** The change log as stored rows: read back, replayed and undone, it explains how the tags came to be what they are. */
module SqlLog {
  import opened Common
  import opened Photos
  import opened Tables
  import opened ChangeLog
  import opened ChangeUndo
  import opened SqlBackend

  // ---------------------------------------------------------------------------
  // Reading log rows
  // ---------------------------------------------------------------------------

  function OperationOf(code: int): Option<Operation> {
    match code
    case 1 => Some(Add)
    case 2 => Some(Modify)
    case 3 => Some(Remove)
    case _ => None
  }

  function FieldOf(code: int): Option<Field> {
    match code
    case 1 => Some(TagsField)
    case 2 => Some(GroupField)
    case _ => None
  }

  /** Rows in the order they were written; a row with unknown codes says nothing. */
  function EntriesOfRows(rows: seq<LogRow>): seq<Entry> {
    if rows == [] then []
    else
      var rest := EntriesOfRows(rows[1..]);
      match (OperationOf(rows[0].operation), FieldOf(rows[0].field))
      case (Some(op), Some(field)) => [Entry(rows[0].photoId, op, field, rows[0].data)] + rest
      case _ => rest
  }

  lemma {:induction false} RowsReadBack(entries: seq<Entry>)
    ensures EntriesOfRows(LogRowsOf(entries)) == entries
  {
    if entries != [] {
      RowsReadBack(entries[1..]);
      assert LogRowsOf(entries)[1..] == LogRowsOf(entries[1..]);
    }
  }

  lemma {:induction false} EntriesConcat(a: seq<LogRow>, b: seq<LogRow>)
    ensures EntriesOfRows(a + b) == EntriesOfRows(a) + EntriesOfRows(b)
  {
    if a == [] {
      assert a + b == b;
    } else {
      assert (a + b)[0] == a[0] && (a + b)[1..] == a[1..] + b;
      EntriesConcat(a[1..], b);
    }
  }

  // ---------------------------------------------------------------------------
  // Replaying them
  // ---------------------------------------------------------------------------

  /** The tags of a photo as replaying represents them. */
  function TagState(db: Tables, id: int): Replayed {
    Replayed(TagMap(ReadTags(TagsOfPhoto(db.tags, id))), NO_GROUP)
  }

  ghost predicate ReplayGives(log: seq<Entry>, id: int, from: Replayed, to: Replayed) {
    Replay(log, id, from) == to
  }

  ghost predicate UndoGives(log: seq<Entry>, id: int, from: Replayed, to: Replayed) {
    Undo(log, id, from) == to
  }

  /** Replayed, the entries take the tags of the photo from what they were to what they are; undone, they take them back. */
  ghost predicate ExplainsAt(start: Tables, now: Tables, entries: seq<Entry>, id: int) {
    && ReplayGives(entries, id, TagState(start, id), TagState(now, id))
    && UndoGives(entries, id, TagState(now, id), TagState(start, id))
  }

  function EntriesSince(start: Tables, now: Tables): seq<Entry>
    requires start.changeLog <= now.changeLog
  {
    EntriesOfRows(now.changeLog[|start.changeLog|..])
  }

  /** The rows added to the log do so for every photo. */
  ghost predicate LogExplains(start: Tables, now: Tables) {
    && start.changeLog <= now.changeLog
    && forall id: int :: ExplainsAt(start, now, EntriesSince(start, now), id)
  }

  lemma NothingToExplain(db: Tables)
    ensures LogExplains(db, db)
  {
    assert db.changeLog[|db.changeLog|..] == [];
    forall id: int
      ensures ExplainsAt(db, db, [], id)
    {
    }
  }

  /** One stored delta, for one photo. */
  lemma DifferenceExplains(before: Tables, after: Tables, delta: Delta, id: int)
    requires delta.id.Some? && delta.group.None? && ColumnsStored(before, after, delta)
    ensures var difference := Difference(delta.id.value, GetPhoto(before, delta.id.value), delta);
            && ReplayGives(difference, id, TagState(before, id), TagState(after, id))
            && UndoGives(difference, id, TagState(after, id), TagState(before, id))
  {
    var photo := delta.id.value;
    var current := GetPhoto(before, photo);
    TagsReadBack(before, after, delta, id);
    if id == photo {
      ReplayDifference(photo, current, delta);
      UndoDifference(photo, current, delta);
    } else {
      DifferenceOfPhoto(photo, current, delta);
      ReplayForeign(Difference(photo, current, delta), photo, id, TagState(before, id));
      UndoForeign(Difference(photo, current, delta), photo, id, TagState(before, id));
    }
  }

  lemma ReplayChains(a: seq<Entry>, b: seq<Entry>, id: int, x: Replayed, y: Replayed, z: Replayed)
    requires ReplayGives(a, id, x, y) && ReplayGives(b, id, y, z)
    ensures ReplayGives(a + b, id, x, z)
  {
    ReplayConcat(a, b, id, x);
  }

  lemma UndoChains(a: seq<Entry>, b: seq<Entry>, id: int, x: Replayed, y: Replayed, z: Replayed)
    requires UndoGives(b, id, z, y) && UndoGives(a, id, y, x)
    ensures UndoGives(a + b, id, z, x)
  {
    UndoConcat(a, b, id, z);
  }

  lemma EntriesAdded(start: seq<LogRow>, before: seq<LogRow>, difference: seq<Entry>)
    requires start <= before
    ensures var after := before + LogRowsOf(difference);
            start <= after && EntriesOfRows(after[|start|..]) == EntriesOfRows(before[|start|..]) + difference
  {
    var after := before + LogRowsOf(difference);
    assert after[|start|..] == before[|start|..] + LogRowsOf(difference);
    EntriesConcat(before[|start|..], LogRowsOf(difference));
    RowsReadBack(difference);
  }

  lemma ExplainsOneMore(start: Tables, before: Tables, after: Tables, delta: Delta)
    requires LogExplains(start, before) && delta.id.Some? && delta.group.None? && DataStored(before, after, delta)
    ensures LogExplains(start, after)
  {
    var difference := Difference(delta.id.value, GetPhoto(before, delta.id.value), delta);
    var earlier := EntriesSince(start, before);
    EntriesAdded(start.changeLog, before.changeLog, difference);
    forall id: int
      ensures ExplainsAt(start, after, earlier + difference, id)
    {
      assert ExplainsAt(start, before, earlier, id);
      DifferenceExplains(before, after, delta, id);
      ReplayChains(earlier, difference, id, TagState(start, id), TagState(before, id), TagState(after, id));
      UndoChains(earlier, difference, id, TagState(start, id), TagState(before, id), TagState(after, id));
    }
  }
}
