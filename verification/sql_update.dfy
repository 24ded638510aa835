/** Writing deltas through the connection: one photo, a batch in a transaction, and new photos. */
module SqlUpdate {
  import opened Common
  import opened Photos
  import opened Tables
  import opened ChangeLog
  import opened Transactions
  import opened TagStorage
  import opened SqlBackend
  import opened TableKeys
  import opened SqlLog
  import MapCompare

  // ---------------------------------------------------------------------------
  // One row per photo: update it, insert it when there was none
  // ---------------------------------------------------------------------------

  /** get and put are one column of the tables record. */
  ghost predicate IsTable<R(!new)>(get: Tables -> seq<R>, put: (Tables, seq<R>) -> Tables) {
    && (forall t :: put(t, get(t)) == t)
    && (forall t, a :: get(put(t, a)) == a)
    && (forall t, a, b :: put(put(t, a), b) == put(t, b))
  }

  lemma {:induction false} UpdateNobody<R>(rows: seq<R>, photoOf: R -> int, id: int, row: R)
    requires CountOf(rows, photoOf, id) == 0
    ensures UpdateRows(rows, photoOf, id, row) == rows
  {
    if rows != [] {
      UpdateNobody(rows[1..], photoOf, id, row);
    }
  }

  /** What a failed or partial write leaves of the connection. */
  twostate predicate SameScope(db: Connection<Tables>)
    reads db
  {
    && db.saved == old(db.saved) && db.open == old(db.open)
    && db.commits == old(db.commits) && db.rollbacks == old(db.rollbacks)
  }

  method UpdateOrInsert<R(!new)>(db: Connection<Tables>, get: Tables -> seq<R>, put: (Tables, seq<R>) -> Tables,
                                 photoOf: R -> int, id: int, row: R) returns (ok: bool)
    requires IsTable(get, put)
    modifies db
    ensures SameScope(db) && AsRequested(db, ok)
    ensures db.store == if ok then put(old(db.store), Upsert(get(old(db.store)), photoOf, id, row)) else old(db.store)
  {
    ok := db.Request();
    if ok {
      var rows := get(db.store);
      var affected := CountOf(rows, photoOf, id);
      db.Write(put(db.store, UpdateRows(rows, photoOf, id, row)));
      if affected == 0 {
        UpdateNobody(rows, photoOf, id, row);
        ok := db.Request();
        if ok {
          db.Write(put(db.store, get(db.store) + [row]));
        }
      }
    }
  }

  method StoreGeometry(db: Connection<Tables>, id: int, geometry: Size) returns (ok: bool)
    modifies db
    ensures SameScope(db) && AsRequested(db, ok)
    ensures db.store == if !ok then old(db.store) else
      old(db.store).(geometry := Upsert(old(db.store).geometry, GeometryPhoto, id, GeometryRow(id, geometry.width, geometry.height)))
  {
    ok := UpdateOrInsert(db, (t: Tables) => t.geometry, (t: Tables, rows) => t.(geometry := rows),
                         GeometryPhoto, id, GeometryRow(id, geometry.width, geometry.height));
  }

  method StoreSha256(db: Connection<Tables>, id: int, checksum: string) returns (ok: bool)
    modifies db
    ensures SameScope(db) && AsRequested(db, ok)
    ensures db.store == if !ok then old(db.store) else
      old(db.store).(sha256sums := Upsert(old(db.store).sha256sums, Sha256Photo, id, Sha256Row(id, checksum)))
  {
    ok := UpdateOrInsert(db, (t: Tables) => t.sha256sums, (t: Tables, rows) => t.(sha256sums := rows),
                         Sha256Photo, id, Sha256Row(id, checksum));
  }

  method StoreFlags(db: Connection<Tables>, id: int, flags: Flags) returns (ok: bool)
    modifies db
    ensures SameScope(db) && AsRequested(db, ok)
    ensures db.store == if !ok then old(db.store) else
      old(db.store).(flags := Upsert(old(db.store).flags, FlagsPhoto, id, FlagsRowOf(id, flags)))
  {
    ok := UpdateOrInsert(db, (t: Tables) => t.flags, (t: Tables, rows) => t.(flags := rows),
                         FlagsPhoto, id, FlagsRowOf(id, flags));
  }

  /** One insert for each log entry; the first that fails raises an error. */
  method AppendLog(db: Connection<Tables>, entries: seq<Entry>) returns (ok: bool)
    modifies db
    ensures SameScope(db) && AsRequested(db, ok)
    ensures db.store == old(db.store).(changeLog := db.store.changeLog)
    ensures ok ==> db.store.changeLog == old(db.store).changeLog + LogRowsOf(entries)
  {
    ghost var log := db.store.changeLog;
    ok := true;
    var i := 0;
    while ok && i < |entries|
      invariant 0 <= i <= |entries|
      invariant SameScope(db) && AsRequested(db, ok)
      invariant db.store == old(db.store).(changeLog := db.store.changeLog)
      invariant ok ==> db.store.changeLog == log + LogRowsOf(entries)[..i]
      decreases |entries| - i, ok
    {
      ok := db.Request();
      if ok {
        var e := entries[i];
        var row := LogRow(e.photo, OperationCode(e.operation), FieldCode(e.field), e.data);
        db.Write(db.store.(changeLog := db.store.changeLog + [row]));
        assert LogRowsOf(entries)[..i + 1] == LogRowsOf(entries)[..i] + [row];
        i := i + 1;
      }
    }
  }

  // ---------------------------------------------------------------------------
  // One photo
  // ---------------------------------------------------------------------------

  /** What storing asserts of its input: an existing photo, tag values that are not empty. Groups are not part of this model. */
  ghost predicate Storable(db: Tables, delta: Delta) {
    && delta.id.Some? && HasPhoto(db, delta.id.value)
    && (delta.tags.Some? ==> forall t :: t in delta.tags.value ==> delta.tags.value[t] != "")
    && delta.group.None?
  }

  /** The tables a delta can never touch. */
  ghost predicate SameElsewhere(before: Tables, after: Tables) {
    after == before.(tags := after.tags, geometry := after.geometry, sha256sums := after.sha256sums,
                     flags := after.flags, changeLog := after.changeLog)
  }

  method StoreColumns(db: Connection<Tables>, delta: Delta) returns (ok: bool)
    requires Storable(db.store, delta) && DistinctTagIds(db.store.tags)
    modifies db
    ensures SameScope(db) && AsRequested(db, ok)
    ensures DistinctTagIds(db.store.tags) && SameElsewhere(old(db.store), db.store)
    ensures db.store.changeLog == old(db.store).changeLog
    ensures ok ==> ColumnsStored(old(db.store), db.store, delta)
  {
    var id := delta.id.value;
    ok := true;
    if delta.tags.Some? {
      ok := StoreTags(db, id, delta.tags.value);
    }
    if ok && delta.geometry.Some? {
      ok := StoreGeometry(db, id, delta.geometry.value);
    }
    if ok && delta.checksum.Some? {
      ok := StoreSha256(db, id, delta.checksum.value);
    }
    if ok && delta.flags.Some? {
      ok := StoreFlags(db, id, delta.flags.value);
    }
  }

  /** The difference is logged even when storing failed; only an error while logging hides that. */
  method StoreData(db: Connection<Tables>, delta: Delta) returns (ok: bool)
    requires Storable(db.store, delta) && DistinctTagIds(db.store.tags)
    modifies db
    ensures SameScope(db) && AsRequested(db, ok)
    ensures DistinctTagIds(db.store.tags) && SameElsewhere(old(db.store), db.store)
    ensures ok ==> DataStored(old(db.store), db.store, delta)
  {
    var id := delta.id.value;
    var current := GetPhoto(db.store, id);
    ok := StoreColumns(db, delta);
    var entries := StoreDifference(id, current, delta);
    var logged := AppendLog(db, entries);
    ok := ok && logged;
  }

  // ---------------------------------------------------------------------------
  // A batch
  // ---------------------------------------------------------------------------

  /** The photo reads as the deltas say, its path as before, and exactly as before if there is no delta of it. */
  ghost predicate ReflectsAt(start: Tables, now: Tables, deltas: seq<Delta>, id: int) {
    && Agrees(GetPhoto(now, id), ApplyMine(id, GetPhoto(start, id), deltas))
    && GetPhoto(now, id).path == GetPhoto(start, id).path
    && (Some(id) !in IdsOfDeltas(deltas) ==> GetPhoto(now, id) == GetPhoto(start, id))
  }

  /** So does every photo. */
  ghost predicate Reflects(start: Tables, now: Tables, deltas: seq<Delta>) {
    forall id: int :: ReflectsAt(start, now, deltas, id)
  }

  function IdsOfDeltas(deltas: seq<Delta>): (ids: set<Option<int>>)
  {
    set i | 0 <= i < |deltas| :: deltas[i].id
  }

  lemma ReflectsNothing(start: Tables)
    ensures Reflects(start, start, [])
  {
    forall id: int
      ensures ReflectsAt(start, start, [], id)
    {
      ReadAgreesWithItself(start, id);
    }
  }

  lemma ReflectsOneMore(start: Tables, before: Tables, after: Tables, deltas: seq<Delta>, last: Delta, more: seq<Delta>)
    requires more == deltas + [last]
    requires Reflects(start, before, deltas) && last.id.Some? && ColumnsStored(before, after, last)
    ensures Reflects(start, after, more)
  {
    forall id: int
      ensures ReflectsAt(start, after, more, id)
    {
      ReflectsOne(start, before, after, deltas, last, id);
    }
  }

  lemma KeysStay(before: Tables, after: Tables, delta: Delta)
    requires delta.id.Some? && HasPhoto(before, delta.id.value) && ColumnsStored(before, after, delta)
    ensures KeysIntact(before) ==> KeysIntact(after)
  {
    if KeysIntact(before) {
      StoringKeepsKeys(before, after, delta);
    }
  }

  lemma ReflectsOne(start: Tables, before: Tables, after: Tables, deltas: seq<Delta>, last: Delta, id: int)
    requires ReflectsAt(start, before, deltas, id) && last.id.Some? && ColumnsStored(before, after, last)
    ensures ReflectsAt(start, after, deltas + [last], id)
  {
    var meant := ApplyMine(id, GetPhoto(start, id), deltas);
    ApplyMineSnoc(id, GetPhoto(start, id), deltas, last);
    IdsOfMore(deltas, last);
    if last.id == Some(id) {
      ReadsAsApplied(before, after, last);
      AgreesThroughApply(GetPhoto(before, id), meant, last, GetPhoto(after, id));
    } else {
      OthersReadTheSame(before, after, last, id);
    }
  }

  lemma IdsOfMore(deltas: seq<Delta>, last: Delta)
    ensures IdsOfDeltas(deltas + [last]) == IdsOfDeltas(deltas) + {last.id}
  {
    var all := deltas + [last];
    forall x | x in IdsOfDeltas(deltas) + {last.id}
      ensures x in IdsOfDeltas(all)
    {
      if x == last.id {
        assert all[|deltas|].id == x;
      } else {
        var i :| 0 <= i < |deltas| && deltas[i].id == x;
        assert all[i].id == x;
      }
    }
  }

  lemma StillStorable(start: Tables, now: Tables, delta: Delta)
    requires Storable(start, delta) && SameElsewhere(start, now)
    ensures Storable(now, delta)
  {
    assert now.photos == start.photos;
  }

  /** The deltas are stored: the tables read as they say, and the log explains it. */
  ghost predicate AllStored(start: Tables, now: Tables, deltas: seq<Delta>, touched: set<Option<int>>) {
    && DistinctTagIds(now.tags) && (KeysIntact(start) ==> KeysIntact(now))
    && touched == IdsOfDeltas(deltas) && Reflects(start, now, deltas) && LogExplains(start, now)
  }

  lemma NothingStored(start: Tables)
    requires DistinctTagIds(start.tags)
    ensures AllStored(start, start, [], {})
  {
    ReflectsNothing(start);
    NothingToExplain(start);
  }

  lemma OneMoreStored(start: Tables, before: Tables, after: Tables, deltas: seq<Delta>, last: Delta, more: seq<Delta>, touched: set<Option<int>>)
    requires more == deltas + [last] && AllStored(start, before, deltas, touched)
    requires Storable(before, last) && DataStored(before, after, last) && DistinctTagIds(after.tags)
    ensures AllStored(start, after, more, touched + {last.id})
  {
    KeysStay(before, after, last);
    ExplainsOneMore(start, before, after, last);
    ReflectsOneMore(start, before, after, deltas, last, more);
    IdsOfMore(deltas, last);
  }

  /** One round of the loop of a batch. */
  method StoreNext(db: Connection<Tables>, ghost start: Tables, ghost deltas: seq<Delta>, last: Delta, ghost more: seq<Delta>,
                   touched: set<Option<int>>) returns (ok: bool, now: set<Option<int>>)
    requires more == deltas + [last] && Storable(start, last)
    requires SameElsewhere(start, db.store) && AllStored(start, db.store, deltas, touched)
    modifies db
    ensures SameScope(db) && SameElsewhere(start, db.store) && AsRequested(db, ok)
    ensures ok ==> AllStored(start, db.store, more, now)
  {
    ghost var before := db.store;
    StillStorable(start, before, last);
    ok := StoreData(db, last);
    now := touched + {last.id};
    if ok {
      OneMoreStored(start, before, db.store, deltas, last, more, touched);
    }
  }

  /** The loop of a batch: it stops at the first delta that cannot be stored. */
  method StoreAll(db: Connection<Tables>, deltas: seq<Delta>) returns (ok: bool, touched: set<Option<int>>)
    requires DistinctTagIds(db.store.tags)
    requires forall i :: 0 <= i < |deltas| ==> Storable(db.store, deltas[i])
    modifies db
    ensures SameScope(db) && SameElsewhere(old(db.store), db.store) && AsRequested(db, ok)
    ensures ok ==> AllStored(old(db.store), db.store, deltas, touched)
  {
    ghost var start, first := db.store, [];
    NothingStored(start);
    ok, touched := true, {};
    var i := 0;
    while ok && i < |deltas|
      invariant 0 <= i <= |deltas| && first == deltas[..i]
      invariant SameScope(db) && SameElsewhere(start, db.store) && AsRequested(db, ok)
      invariant ok ==> AllStored(start, db.store, first, touched)
      decreases |deltas| - i, ok
    {
      ghost var more := first + [deltas[i]];
      ok, touched := StoreNext(db, start, first, deltas[i], more, touched);
      first, i := more, i + 1;
    }
    assert ok ==> first == deltas;
  }

  method Update(nt: NestedTransaction<Tables>, deltas: seq<Delta>) returns (ok: bool, announced: set<Option<int>>)
    requires DistinctTagIds(nt.db.store.tags)
    requires forall i :: 0 <= i < |deltas| ==> Storable(nt.db.store, deltas[i])
    modifies nt, nt.db
    ensures nt.level == old(nt.level)
    ensures announced == if ok then IdsOfDeltas(deltas) else {}
    // success: the tables read as the deltas applied in order to a plain map of photos
    ensures ok ==> Reflects(old(nt.db.store), nt.db.store, deltas) && SameElsewhere(old(nt.db.store), nt.db.store)
    ensures ok && KeysIntact(old(nt.db.store)) ==> KeysIntact(nt.db.store)
    // and the log rows it added, read back and replayed, explain every photo's tags
    ensures ok ==> LogExplains(old(nt.db.store), nt.db.store)
    ensures ok && nt.level == 0 ==> !nt.db.open
    // failure: nothing is durable, and nothing is visible once no transaction is open
    ensures nt.level == 0 && !ok ==> nt.db.Durable() == old(nt.db.Durable())
    ensures nt.level == 0 && !ok && !nt.db.open ==> nt.db.store == old(nt.db.Durable())
    // inside a wider transaction: only that one commits, and a failure makes it roll back
    ensures nt.level > 0 ==> nt.clean == (old(nt.clean) && ok) && nt.db.open == old(nt.db.open) && nt.db.saved == old(nt.db.saved)
    // it fails only when a request does, or when a transaction was left open before
    ensures nt.level > 0 || !old(nt.db.open) ==> AsRequested(nt.db, ok)
    ensures nt.level == 0 && old(nt.db.open) ==> !ok
  {
    ghost var start := nt.db.store;
    var t := new Transaction(nt);
    announced := {};
    ok := t.Begin();
    if ok {
      var touched;
      ok, touched := StoreAll(nt.db, deltas);
      if ok {
        assert AllStored(start, nt.db.store, deltas, touched);
        ok := t.Commit();
        if ok {
          announced := touched;
        }
      }
    }
    t.Destroy();
  }

  // ---------------------------------------------------------------------------
  // When the tables and a plain map agree on the whole record
  // ---------------------------------------------------------------------------

  /** The same record, flags that were never written counting as 0. Groups are not part of this model. */
  ghost predicate SameRecord(read: Data, meant: Data) {
    && read.tags == meant.tags && read.sha256 == meant.sha256 && read.path == meant.path && read.geometry == meant.geometry
    && forall f: Flag :: FlagOf(read.flags, f) == FlagOf(meant.flags, f)
  }

  /** Exactly: the deltas leave the path alone and the last size is valid, or the size that stands for none. */
  lemma SameRecordExactly(start: Tables, now: Tables, deltas: seq<Delta>, id: int)
    requires Reflects(start, now, deltas)
    ensures var meant := ApplyMine(id, GetPhoto(start, id), deltas);
            SameRecord(GetPhoto(now, id), meant) <==>
            meant.path == GetPhoto(start, id).path && (meant.geometry.Valid() || meant.geometry == NO_SIZE)
  {
    assert ReflectsAt(start, now, deltas, id);
  }

  /** For one delta the caller can tell beforehand. */
  lemma SameRecordForOneDelta(start: Tables, now: Tables, delta: Delta)
    requires delta.id.Some? && Reflects(start, now, [delta])
    ensures SameRecord(GetPhoto(now, delta.id.value), Apply(GetPhoto(start, delta.id.value), delta)) <==>
            && (delta.path.Some? ==> delta.path.value == GetPhoto(start, delta.id.value).path)
            && (delta.geometry.Some? ==> delta.geometry.value.Valid() || delta.geometry.value == NO_SIZE)
  {
    var id := delta.id.value;
    assert [delta][1..] == [];
    assert ApplyMine(id, GetPhoto(start, id), [delta]) == Apply(GetPhoto(start, id), delta);
    SameRecordExactly(start, now, [delta], id);
  }
}
