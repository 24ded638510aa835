/** New photos: a row that gives the photo its id, then its data like any other delta. */
module SqlInsert {
  import opened Common
  import opened Photos
  import opened Tables
  import opened Transactions
  import opened SqlBackend
  import opened TableKeys
  import opened SqlUpdate

  /** The id of a new row: greater than every id in use. */
  function NextPhotoId(rows: seq<PhotoRow>): (n: int)
    ensures n >= 1 && forall r :: r in rows ==> r.id < n
  {
    if rows == [] then 1
    else
      var rest := NextPhotoId(rows[1..]);
      if rows[0].id < rest then rest else rows[0].id + 1
  }

  /** What introducing asserts of its input; groups are not part of this model. */
  predicate Introducible(delta: Delta) {
    && delta.id.None? && delta.path.Some? && delta.group.None?
    && (delta.tags.Some? ==> forall t :: t in delta.tags.value ==> delta.tags.value[t] != "")
  }

  function WithId(delta: Delta, id: int): Delta {
    delta.(id := Some(id))
  }

  ghost predicate ReadsAsNew(db: Tables, delta: Delta, id: int) {
    Agrees(GetPhoto(db, id), Apply(NO_DATA, WithId(delta, id))) && Some(GetPhoto(db, id).path) == delta.path
  }

  /** id is new, reads as the delta on an empty record, and nothing else reads differently. */
  ghost predicate Introduced(before: Tables, after: Tables, delta: Delta, id: int) {
    && (forall p: int :: HasPhoto(after, p) <==> HasPhoto(before, p) || p == id)
    && !HasPhoto(before, id)
    && ReadsAsNew(after, delta, id)
    && (forall other: int :: other != id ==> GetPhoto(after, other) == GetPhoto(before, other))
  }

  function WithRow(db: Tables, row: PhotoRow): Tables {
    db.(photos := db.photos + [row])
  }

  lemma NewRowAlone(before: Tables, row: PhotoRow)
    requires KeysIntact(before) && !HasPhoto(before, row.id)
    ensures var mid := WithRow(before, row);
            && KeysIntact(mid) && HasPhoto(mid, row.id)
            && (forall p: int :: HasPhoto(mid, p) <==> HasPhoto(before, p) || p == row.id)
  {
    var mid := WithRow(before, row);
    assert row in mid.photos;
    forall p: int
      ensures HasPhoto(mid, p) <==> HasPhoto(before, p) || p == row.id
    {
      if HasPhoto(before, p) {
        var r :| r in before.photos && r.id == p;
        assert r in mid.photos;
      }
    }
  }

  lemma NewRowReads(before: Tables, row: PhotoRow, other: int)
    requires KeysIntact(before) && !HasPhoto(before, row.id)
    ensures var mid := WithRow(before, row);
            if other == row.id then Agrees(GetPhoto(mid, other), NO_DATA) && GetPhoto(mid, other).path == row.path
            else GetPhoto(mid, other) == GetPhoto(before, other)
  {
    AppendFirst(before.photos, PhotoIdOf, row, other);
    if other == row.id {
      UnknownPhotoReadsEmpty(before, other);
      NoRowNothingFirst(before.photos, PhotoIdOf, other);
    }
  }

  lemma IntroducedByStoring(before: Tables, after: Tables, delta: Delta, row: PhotoRow)
    requires Introducible(delta) && row.path == delta.path.value
    requires KeysIntact(before) && !HasPhoto(before, row.id)
    requires ColumnsStored(WithRow(before, row), after, WithId(delta, row.id))
    ensures Introduced(before, after, delta, row.id) && KeysIntact(after)
  {
    var mid, id := WithRow(before, row), row.id;
    NewRowAlone(before, row);
    StoringKeepsKeys(mid, after, WithId(delta, id));
    NewRowReads(before, row, id);
    ReadsAsApplied(mid, after, WithId(delta, id));
    AgreesThroughApply(GetPhoto(mid, id), NO_DATA, WithId(delta, id), GetPhoto(after, id));
    forall p: int
      ensures HasPhoto(after, p) <==> HasPhoto(mid, p)
    {
      assert after.photos == mid.photos;
    }
    forall other: int | other != id
      ensures GetPhoto(after, other) == GetPhoto(before, other)
    {
      NewRowReads(before, row, other);
      OthersReadTheSame(mid, after, WithId(delta, id), other);
    }
  }

  /** The row that gives the photo its id. */
  method AddRow(db: Connection<Tables>, path: string) returns (ok: bool, row: PhotoRow)
    requires KeysIntact(db.store)
    modifies db
    ensures SameScope(db) && row.path == path && AsRequested(db, ok)
    ensures ok ==>
      && !HasPhoto(old(db.store), row.id) && db.store == WithRow(old(db.store), row)
      && KeysIntact(db.store) && HasPhoto(db.store, row.id)
  {
    ghost var before := db.store;
    row := PhotoRow(NextPhotoId(db.store.photos), path);
    ok := db.Request();
    if ok {
      NewRowAlone(before, row);
      db.Write(WithRow(db.store, row));
    }
  }

  method Introduce(db: Connection<Tables>, delta: Delta) returns (ok: bool, id: Option<int>)
    requires Introducible(delta) && KeysIntact(db.store)
    modifies db
    ensures SameScope(db) && AsRequested(db, ok)
    ensures ok ==> id.Some? && Introduced(old(db.store), db.store, delta, id.value) && KeysIntact(db.store)
  {
    ghost var before := db.store;
    id := None;
    var row;
    ok, row := AddRow(db, delta.path.value);
    if ok {
      id := Some(row.id);
      ok := StoreData(db, WithId(delta, row.id));
      if ok {
        IntroducedByStoring(before, db.store, delta, row);
      }
    }
  }

  // ---------------------------------------------------------------------------
  // A batch of new photos
  // ---------------------------------------------------------------------------

  /** The first deltas became photos, in order, under ids of their own. */
  ghost predicate FirstIntroduced(start: Tables, now: Tables, deltas: seq<Delta>, ids: seq<int>) {
    && |ids| <= |deltas| && Distinct(ids)
    && (forall p: int :: HasPhoto(now, p) <==> HasPhoto(start, p) || p in ids)
    && (forall k :: 0 <= k < |ids| ==> !HasPhoto(start, ids[k]) && ReadsAsNew(now, deltas[k], ids[k]))
    && (forall other: int :: other !in ids ==> GetPhoto(now, other) == GetPhoto(start, other))
  }

  lemma IdIsNew(start: Tables, before: Tables, deltas: seq<Delta>, ids: seq<int>, id: int)
    requires FirstIntroduced(start, before, deltas, ids) && !HasPhoto(before, id)
    ensures id !in ids && !HasPhoto(start, id) && Distinct(ids + [id])
    ensures forall p :: p in ids + [id] <==> p in ids || p == id
  {
  }

  lemma StillReadsAsNew(before: Tables, after: Tables, delta: Delta, last: Delta, k: int, id: int)
    requires Introduced(before, after, last, id) && k != id && ReadsAsNew(before, delta, k)
    ensures ReadsAsNew(after, delta, k)
  {
    assert GetPhoto(after, k) == GetPhoto(before, k);
  }

  lemma OneMoreIntroduced(start: Tables, before: Tables, after: Tables, deltas: seq<Delta>, ids: seq<int>, id: int)
    requires FirstIntroduced(start, before, deltas, ids) && |ids| < |deltas|
    requires Introduced(before, after, deltas[|ids|], id)
    ensures FirstIntroduced(start, after, deltas, ids + [id])
  {
    var more := ids + [id];
    IdIsNew(start, before, deltas, ids, id);
    forall k | 0 <= k < |more|
      ensures !HasPhoto(start, more[k]) && ReadsAsNew(after, deltas[k], more[k])
    {
      if k < |ids| {
        assert more[k] == ids[k] && ids[k] in ids;
        StillReadsAsNew(before, after, deltas[k], deltas[|ids|], ids[k], id);
      }
    }
    forall other: int | other !in more
      ensures GetPhoto(after, other) == GetPhoto(start, other)
    {
      assert other != id && other !in ids;
      assert GetPhoto(after, other) == GetPhoto(before, other);
    }
  }

  /** The loop of a batch: it stops at the first photo that cannot be introduced. */
  method IntroduceAll(db: Connection<Tables>, deltas: seq<Delta>) returns (ok: bool, ids: seq<int>)
    requires KeysIntact(db.store)
    requires forall k :: 0 <= k < |deltas| ==> Introducible(deltas[k])
    modifies db
    ensures SameScope(db) && AsRequested(db, ok)
    ensures ok ==> KeysIntact(db.store) && FirstIntroduced(old(db.store), db.store, deltas, ids) && |ids| == |deltas|
  {
    ghost var start := db.store;
    ok, ids := true, [];
    assert FirstIntroduced(start, start, deltas, []);
    while ok && |ids| < |deltas|
      invariant SameScope(db) && |ids| <= |deltas| && AsRequested(db, ok)
      invariant ok ==> KeysIntact(db.store) && FirstIntroduced(start, db.store, deltas, ids)
      decreases |deltas| - |ids|, ok
    {
      ghost var before := db.store;
      var id;
      ok, id := Introduce(db, deltas[|ids|]);
      if ok {
        OneMoreIntroduced(start, before, db.store, deltas, ids, id.value);
        ids := ids + [id.value];
      }
    }
  }

  method Insert(nt: NestedTransaction<Tables>, deltas: seq<Delta>) returns (ok: bool, ids: seq<int>)
    requires KeysIntact(nt.db.store)
    requires forall k :: 0 <= k < |deltas| ==> Introducible(deltas[k])
    modifies nt, nt.db
    ensures nt.level == old(nt.level)
    ensures ok ==> KeysIntact(nt.db.store) && FirstIntroduced(old(nt.db.store), nt.db.store, deltas, ids) && |ids| == |deltas|
    ensures ok && nt.level == 0 ==> !nt.db.open
    ensures nt.level == 0 && !ok ==> nt.db.Durable() == old(nt.db.Durable())
    ensures nt.level == 0 && !ok && !nt.db.open ==> nt.db.store == old(nt.db.Durable())
    ensures nt.level > 0 ==> nt.clean == (old(nt.clean) && ok) && nt.db.open == old(nt.db.open) && nt.db.saved == old(nt.db.saved)
    // it fails only when a request does, or when a transaction was left open before
    ensures nt.level > 0 || !old(nt.db.open) ==> AsRequested(nt.db, ok)
    ensures nt.level == 0 && old(nt.db.open) ==> !ok
  {
    var t := new Transaction(nt);
    ids := [];
    ok := t.Begin();
    if ok {
      ok, ids := IntroduceAll(nt.db, deltas);
      if ok {
        ok := t.Commit();
      }
    }
    t.Destroy();
  }
}
