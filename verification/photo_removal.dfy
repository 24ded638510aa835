/** Removing the photos a filter selects: a snapshot of their ids, then one table after another. */
module PhotoRemoval {
  import opened Common
  import opened Tables
  import opened Sql
  import opened FilterCompiler
  import opened FilterCorrectness
  import opened Transactions

  // ---------------------------------------------------------------------------
  // Statements
  // ---------------------------------------------------------------------------

  datatype Table =
    | FlagsTable | GeneralFlagsTable | GeometryTable | PeopleTable | ChangeLogTable
    | Sha256Table | TagsTable | ThumbnailsTable | PhotosTable

  /** The tables, and the temporary table of ids while there is one. */
  datatype Store = Store(tables: Tables, dropIndices: Option<seq<Value>>)

  datatype Statement = CreateDropIndices(q: Query) | DeleteFrom(table: Table) | DropIndices

  function Remaining<R(!new)>(rows: seq<R>, photoOf: R -> int, ids: seq<Value>): (r: seq<R>)
    ensures forall x :: x in r <==> x in rows && Int(photoOf(x)) !in ids
  {
    if rows == [] then []
    else (if Int(photoOf(rows[0])) in ids then [] else [rows[0]]) + Remaining(rows[1..], photoOf, ids)
  }

  function DeletedFrom(db: Tables, table: Table, ids: seq<Value>): Tables {
    match table
    case FlagsTable => db.(flags := Remaining(db.flags, (r: FlagsRow) => r.photoId, ids))
    case GeneralFlagsTable => db.(generalFlags := Remaining(db.generalFlags, (r: GeneralFlagRow) => r.photoId, ids))
    case GeometryTable => db.(geometry := Remaining(db.geometry, (r: GeometryRow) => r.photoId, ids))
    case PeopleTable => db.(people := Remaining(db.people, (r: PeopleRow) => r.photoId, ids))
    case ChangeLogTable => db.(changeLog := Remaining(db.changeLog, (r: LogRow) => r.photoId, ids))
    case Sha256Table => db.(sha256sums := Remaining(db.sha256sums, (r: Sha256Row) => r.photoId, ids))
    case TagsTable => db.(tags := Remaining(db.tags, (r: TagRow) => r.photoId, ids))
    case ThumbnailsTable => db.(thumbnails := Remaining(db.thumbnails, (r: ThumbnailRow) => r.photoId, ids))
    case PhotosTable => db.(photos := Remaining(db.photos, (r: PhotoRow) => r.id, ids))
  }

  predicate NoRowOf<R>(rows: seq<R>, photoOf: R -> int, ids: seq<Value>) {
    forall i :: 0 <= i < |rows| ==> Int(photoOf(rows[i])) !in ids
  }

  predicate NotInGroups(db: Tables, ids: seq<Value>) {
    && NoRowOf(db.groups, (r: GroupRow) => r.representativeId, ids)
    && NoRowOf(db.members, (r: MemberRow) => r.photoId, ids)
  }

  /** No row of any dependent table points at one of the photos. */
  predicate Unreferenced(db: Tables, ids: seq<Value>) {
    && NotInGroups(db, ids)
    && NoRowOf(db.flags, (r: FlagsRow) => r.photoId, ids)
    && NoRowOf(db.generalFlags, (r: GeneralFlagRow) => r.photoId, ids)
    && NoRowOf(db.geometry, (r: GeometryRow) => r.photoId, ids)
    && NoRowOf(db.people, (r: PeopleRow) => r.photoId, ids)
    && NoRowOf(db.changeLog, (r: LogRow) => r.photoId, ids)
    && NoRowOf(db.sha256sums, (r: Sha256Row) => r.photoId, ids)
    && NoRowOf(db.tags, (r: TagRow) => r.photoId, ids)
    && NoRowOf(db.thumbnails, (r: ThumbnailRow) => r.photoId, ids)
  }

  /** What a statement does when the server accepts it; deleting a photo that is referred to breaks a foreign key. */
  function Execute(s: Statement, st: Store, like: (string, string) -> bool): Option<Store> {
    match s
    case CreateDropIndices(q) =>
      if st.dropIndices.Some? then None else Some(st.(dropIndices := Some(EvalQuery(q, Engine(st.tables, like)))))
    case DeleteFrom(table) =>
      if st.dropIndices.None? || (table == PhotosTable && !Unreferenced(st.tables, st.dropIndices.value)) then None
      else Some(st.(tables := DeletedFrom(st.tables, table, st.dropIndices.value)))
    case DropIndices =>
      if st.dropIndices.None? then None else Some(st.(dropIndices := None))
  }

  function ExecuteAll(list: seq<Statement>, st: Store, like: (string, string) -> bool): Option<Store>
    decreases |list|
  {
    if list == [] then Some(st)
    else match Execute(list[0], st, like)
      case None => None
      case Some(next) => ExecuteAll(list[1..], next, like)
  }

  const DELETION_ORDER: seq<Table> := [
    FlagsTable, GeneralFlagsTable, GeometryTable, PeopleTable, ChangeLogTable, Sha256Table, TagsTable, ThumbnailsTable, PhotosTable]

  function Deletions(order: seq<Table>): (list: seq<Statement>)
    ensures |list| == |order| && forall i :: 0 <= i < |order| ==> list[i] == DeleteFrom(order[i])
  {
    seq(|order|, i requires 0 <= i < |order| => DeleteFrom(order[i]))
  }

  function RemovalOf(q: Query): seq<Statement> {
    [CreateDropIndices(q)] + Deletions(DELETION_ORDER) + [DropIndices]
  }

  // ---------------------------------------------------------------------------
  // What the whole list does
  // ---------------------------------------------------------------------------

  function Cleared(db: Tables, tables: seq<Table>, ids: seq<Value>): Tables
    decreases |tables|
  {
    if tables == [] then db else Cleared(DeletedFrom(db, tables[0], ids), tables[1..], ids)
  }

  /** Deleting and then dropping the ids: it works exactly when the photos have become unreferenced in time. */
  lemma {:induction false} DeletionsRun(order: seq<Table>, db: Tables, ids: seq<Value>, like: (string, string) -> bool)
    requires PhotosTable !in order
    ensures ExecuteAll(Deletions(order) + [DeleteFrom(PhotosTable), DropIndices], Store(db, Some(ids)), like)
         == var cleared := Cleared(db, order, ids);
            if Unreferenced(cleared, ids) then Some(Store(DeletedFrom(cleared, PhotosTable, ids), None)) else None
    decreases |order|
  {
    var last := [DeleteFrom(PhotosTable), DropIndices];
    var list := Deletions(order) + last;
    if order == [] {
      assert list == last && last[1..] == [DropIndices] && last[1..][1..] == [];
    } else {
      assert list[0] == DeleteFrom(order[0]) && order[0] != PhotosTable;
      assert list[1..] == Deletions(order[1..]) + last;
      DeletionsRun(order[1..], DeletedFrom(db, order[0], ids), ids, like);
    }
  }

  const DEPENDENTS: seq<Table> := [
    FlagsTable, GeneralFlagsTable, GeometryTable, PeopleTable, ChangeLogTable, Sha256Table, TagsTable, ThumbnailsTable]

  /** All dependent tables without the rows of the photos; groups as they were. */
  function DependentsCleared(db: Tables, ids: seq<Value>): Tables {
    db.(flags := Remaining(db.flags, (r: FlagsRow) => r.photoId, ids),
        generalFlags := Remaining(db.generalFlags, (r: GeneralFlagRow) => r.photoId, ids),
        geometry := Remaining(db.geometry, (r: GeometryRow) => r.photoId, ids),
        people := Remaining(db.people, (r: PeopleRow) => r.photoId, ids),
        changeLog := Remaining(db.changeLog, (r: LogRow) => r.photoId, ids),
        sha256sums := Remaining(db.sha256sums, (r: Sha256Row) => r.photoId, ids),
        tags := Remaining(db.tags, (r: TagRow) => r.photoId, ids),
        thumbnails := Remaining(db.thumbnails, (r: ThumbnailRow) => r.photoId, ids))
  }

  lemma ClearedOne(db: Tables, table: Table, rest: seq<Table>, ids: seq<Value>)
    ensures Cleared(db, [table] + rest, ids) == Cleared(DeletedFrom(db, table, ids), rest, ids)
  {
    assert ([table] + rest)[1..] == rest;
  }

  const LATER_DEPENDENTS: seq<Table> := [ChangeLogTable, Sha256Table, TagsTable, ThumbnailsTable]

  lemma LaterDependentsAreCleared(db: Tables, ids: seq<Value>)
    ensures Cleared(db, LATER_DEPENDENTS, ids) ==
      db.(changeLog := Remaining(db.changeLog, (r: LogRow) => r.photoId, ids),
          sha256sums := Remaining(db.sha256sums, (r: Sha256Row) => r.photoId, ids),
          tags := Remaining(db.tags, (r: TagRow) => r.photoId, ids),
          thumbnails := Remaining(db.thumbnails, (r: ThumbnailRow) => r.photoId, ids))
  {
    var d1 := DeletedFrom(db, ChangeLogTable, ids);
    var d2 := DeletedFrom(d1, Sha256Table, ids);
    var d3 := DeletedFrom(d2, TagsTable, ids);
    ClearedOne(db, ChangeLogTable, [Sha256Table, TagsTable, ThumbnailsTable], ids);
    ClearedOne(d1, Sha256Table, [TagsTable, ThumbnailsTable], ids);
    ClearedOne(d2, TagsTable, [ThumbnailsTable], ids);
    ClearedOne(d3, ThumbnailsTable, [], ids);
    assert [ChangeLogTable] + [Sha256Table, TagsTable, ThumbnailsTable] == LATER_DEPENDENTS;
    assert [Sha256Table] + [TagsTable, ThumbnailsTable] == [Sha256Table, TagsTable, ThumbnailsTable];
    assert [TagsTable] + [ThumbnailsTable] == [TagsTable, ThumbnailsTable];
    assert [ThumbnailsTable] + [] == [ThumbnailsTable];
  }

  lemma EarlierDependentsAreCleared(db: Tables, rest: seq<Table>, ids: seq<Value>)
    ensures Cleared(db, [FlagsTable] + ([GeneralFlagsTable] + ([GeometryTable] + ([PeopleTable] + rest))), ids) ==
      Cleared(db.(flags := Remaining(db.flags, (r: FlagsRow) => r.photoId, ids),
                  generalFlags := Remaining(db.generalFlags, (r: GeneralFlagRow) => r.photoId, ids),
                  geometry := Remaining(db.geometry, (r: GeometryRow) => r.photoId, ids),
                  people := Remaining(db.people, (r: PeopleRow) => r.photoId, ids)), rest, ids)
  {
    var d1 := DeletedFrom(db, FlagsTable, ids);
    var d2 := DeletedFrom(d1, GeneralFlagsTable, ids);
    var d3 := DeletedFrom(d2, GeometryTable, ids);
    ClearedOne(db, FlagsTable, [GeneralFlagsTable] + ([GeometryTable] + ([PeopleTable] + rest)), ids);
    ClearedOne(d1, GeneralFlagsTable, [GeometryTable] + ([PeopleTable] + rest), ids);
    ClearedOne(d2, GeometryTable, [PeopleTable] + rest, ids);
    ClearedOne(d3, PeopleTable, rest, ids);
  }

  lemma DependentsAreCleared(db: Tables, ids: seq<Value>)
    ensures Cleared(db, DEPENDENTS, ids) == DependentsCleared(db, ids)
  {
    EarlierDependentsAreCleared(db, LATER_DEPENDENTS, ids);
    DependentOrder();
    LaterDependentsAreCleared(db.(flags := Remaining(db.flags, (r: FlagsRow) => r.photoId, ids),
                                  generalFlags := Remaining(db.generalFlags, (r: GeneralFlagRow) => r.photoId, ids),
                                  geometry := Remaining(db.geometry, (r: GeometryRow) => r.photoId, ids),
                                  people := Remaining(db.people, (r: PeopleRow) => r.photoId, ids)), ids);
  }

  lemma DependentOrder()
    ensures DEPENDENTS == [FlagsTable] + ([GeneralFlagsTable] + ([GeometryTable] + ([PeopleTable] + LATER_DEPENDENTS)))
  {
  }

  lemma RemainingHasNoRow<R(!new)>(rows: seq<R>, photoOf: R -> int, ids: seq<Value>)
    ensures NoRowOf(Remaining(rows, photoOf, ids), photoOf, ids)
  {
    var rest := Remaining(rows, photoOf, ids);
    forall i | 0 <= i < |rest|
      ensures Int(photoOf(rest[i])) !in ids
    {
      assert rest[i] in rest;
    }
  }

  lemma ClearedIsUnreferenced(db: Tables, ids: seq<Value>)
    ensures Unreferenced(DependentsCleared(db, ids), ids) <==> NotInGroups(db, ids)
  {
    RemainingHasNoRow(db.flags, (r: FlagsRow) => r.photoId, ids);
    RemainingHasNoRow(db.generalFlags, (r: GeneralFlagRow) => r.photoId, ids);
    RemainingHasNoRow(db.geometry, (r: GeometryRow) => r.photoId, ids);
    RemainingHasNoRow(db.people, (r: PeopleRow) => r.photoId, ids);
    RemainingHasNoRow(db.changeLog, (r: LogRow) => r.photoId, ids);
    RemainingHasNoRow(db.sha256sums, (r: Sha256Row) => r.photoId, ids);
    RemainingHasNoRow(db.tags, (r: TagRow) => r.photoId, ids);
    RemainingHasNoRow(db.thumbnails, (r: ThumbnailRow) => r.photoId, ids);
  }

  /** Everything of the photos is gone, and nothing else. */
  function PhotosRemoved(db: Tables, ids: seq<Value>): Tables {
    DeletedFrom(DependentsCleared(db, ids), PhotosTable, ids)
  }

  /** The ids are those the filter selects in the starting tables, although later statements empty what it reads. */
  lemma RemovalRuns(q: Query, db: Tables, like: (string, string) -> bool)
    ensures var ids := EvalQuery(q, Engine(db, like));
            ExecuteAll(RemovalOf(q), Store(db, None), like) ==
            if NotInGroups(db, ids) then Some(Store(PhotosRemoved(db, ids), None)) else None
  {
    var ids := EvalQuery(q, Engine(db, like));
    var last := [DeleteFrom(PhotosTable), DropIndices];
    assert DELETION_ORDER == DEPENDENTS + [PhotosTable];
    assert RemovalOf(q)[0] == CreateDropIndices(q);
    assert RemovalOf(q)[1..] == Deletions(DEPENDENTS) + last;
    DeletionsRun(DEPENDENTS, db, ids, like);
    DependentsAreCleared(db, ids);
    ClearedIsUnreferenced(db, ids);
  }

  // ---------------------------------------------------------------------------
  // The operation
  // ---------------------------------------------------------------------------

  /** What is left of a table: the rows of photos that stay. */
  ghost predicate RowsGone<R(!new)>(before: seq<R>, after: seq<R>, photoOf: R -> int, f: Filter, en: Engine) {
    forall r :: r in after <==> r in before && !Goes(f, en, photoOf(r))
  }

  /** The photos the filter selects, and no other, are gone; no row points at any of them. */
  ghost predicate RemovedExactly(before: Tables, after: Tables, f: Filter, like: (string, string) -> bool) {
    var en := Engine(before, like);
    && RowsGone(before.photos, after.photos, (r: PhotoRow) => r.id, f, en)
    && RowsGone(before.flags, after.flags, (r: FlagsRow) => r.photoId, f, en)
    && RowsGone(before.generalFlags, after.generalFlags, (r: GeneralFlagRow) => r.photoId, f, en)
    && RowsGone(before.geometry, after.geometry, (r: GeometryRow) => r.photoId, f, en)
    && RowsGone(before.people, after.people, (r: PeopleRow) => r.photoId, f, en)
    && RowsGone(before.changeLog, after.changeLog, (r: LogRow) => r.photoId, f, en)
    && RowsGone(before.sha256sums, after.sha256sums, (r: Sha256Row) => r.photoId, f, en)
    && RowsGone(before.tags, after.tags, (r: TagRow) => r.photoId, f, en)
    && RowsGone(before.thumbnails, after.thumbnails, (r: ThumbnailRow) => r.photoId, f, en)
    && after.groups == before.groups && after.members == before.members && after.peopleNames == before.peopleNames
  }

  ghost predicate Goes(f: Filter, en: Engine, id: int) {
    HasPhoto(en.db, id) && Selects(f, en, id)
  }

  /** None of the selected photos is a representative or a member of a group. */
  ghost predicate NoneGrouped(f: Filter, en: Engine) {
    && (forall g :: g in en.db.groups ==> !Goes(f, en, g.representativeId))
    && (forall m :: m in en.db.members ==> !Goes(f, en, m.photoId))
  }

  lemma SelectedIds(f: Filter, en: Engine, id: int)
    requires WellFormed(f) && GroupKeysIntact(en.db)
    ensures Int(id) in EvalQuery(Generate(f), en) <==> Goes(f, en, id)
  {
    GenerateCorrect(f, en, Int(id));
  }

  lemma NotInGroupsMeans(f: Filter, en: Engine)
    requires WellFormed(f) && GroupKeysIntact(en.db)
    ensures NotInGroups(en.db, EvalQuery(Generate(f), en)) <==> NoneGrouped(f, en)
  {
    var ids := EvalQuery(Generate(f), en);
    forall id: int
      ensures Int(id) in ids <==> Goes(f, en, id)
    {
      SelectedIds(f, en, id);
    }
  }

  lemma RemainingAreGone<R(!new)>(rows: seq<R>, photoOf: R -> int, f: Filter, en: Engine, ids: seq<Value>)
    requires forall id: int :: Int(id) in ids <==> Goes(f, en, id)
    ensures RowsGone(rows, Remaining(rows, photoOf, ids), photoOf, f, en)
  {
    forall r
      ensures r in Remaining(rows, photoOf, ids) <==> r in rows && !Goes(f, en, photoOf(r))
    {
      assert Int(photoOf(r)) in ids <==> Goes(f, en, photoOf(r));
    }
  }

  lemma RemovedMeans(f: Filter, en: Engine)
    requires WellFormed(f) && GroupKeysIntact(en.db)
    ensures RemovedExactly(en.db, PhotosRemoved(en.db, EvalQuery(Generate(f), en)), f, en.like)
  {
    var db, ids := en.db, EvalQuery(Generate(f), en);
    forall id: int
      ensures Int(id) in ids <==> Goes(f, en, id)
    {
      SelectedIds(f, en, id);
    }
    RemainingAreGone(db.photos, (r: PhotoRow) => r.id, f, en, ids);
    RemainingAreGone(db.flags, (r: FlagsRow) => r.photoId, f, en, ids);
    RemainingAreGone(db.generalFlags, (r: GeneralFlagRow) => r.photoId, f, en, ids);
    RemainingAreGone(db.geometry, (r: GeometryRow) => r.photoId, f, en, ids);
    RemainingAreGone(db.people, (r: PeopleRow) => r.photoId, f, en, ids);
    RemainingAreGone(db.changeLog, (r: LogRow) => r.photoId, f, en, ids);
    RemainingAreGone(db.sha256sums, (r: Sha256Row) => r.photoId, f, en, ids);
    RemainingAreGone(db.tags, (r: TagRow) => r.photoId, f, en, ids);
    RemainingAreGone(db.thumbnails, (r: ThumbnailRow) => r.photoId, f, en, ids);
  }

  /** Runs the statements in order until one fails. */
  method Exec(db: Connection<Store>, list: seq<Statement>, like: (string, string) -> bool) returns (ok: bool)
    modifies db
    ensures db.saved == old(db.saved) && db.open == old(db.open) && db.commits == old(db.commits) && db.rollbacks == old(db.rollbacks)
    ensures old(db.requests) <= db.requests <= old(db.requests) + |list|
    ensures ok ==> ExecuteAll(list, old(db.store), like) == Some(db.store) && db.requests == old(db.requests) + |list|
    ensures ok || ExecuteAll(list, old(db.store), like) == None || SomeFailed(db.succeeds, old(db.requests), |list|)
  {
    ok := true;
    var rest := list;
    while ok && rest != []
      invariant |rest| <= |list|
      invariant db.saved == old(db.saved) && db.open == old(db.open)
      invariant db.commits == old(db.commits) && db.rollbacks == old(db.rollbacks)
      invariant if ok then db.requests == old(db.requests) + |list| - |rest| else old(db.requests) <= db.requests <= old(db.requests) + |list|
      invariant ok ==> ExecuteAll(list, old(db.store), like) == ExecuteAll(rest, db.store, like)
      invariant ok || ExecuteAll(list, old(db.store), like) == None || SomeFailed(db.succeeds, old(db.requests), |list|)
      decreases |rest|, ok
    {
      ok := db.Request();
      if ok {
        match Execute(rest[0], db.store, like)
        case None => ok := false;
        case Some(next) =>
          db.Write(next);
          rest := rest[1..];
      }
    }
  }

  /** Everything the statements of one filter do, in terms of what the filter selects. */
  lemma RemovalMeans(f: Filter, db: Tables, like: (string, string) -> bool)
    requires WellFormed(f) && GroupKeysIntact(db)
    ensures match ExecuteAll(RemovalOf(Generate(f)), Store(db, None), like)
      case None => !NoneGrouped(f, Engine(db, like))
      case Some(st) => NoneGrouped(f, Engine(db, like)) && st.dropIndices.None? && RemovedExactly(db, st.tables, f, like)
  {
    RemovalRuns(Generate(f), db, like);
    NotInGroupsMeans(f, Engine(db, like));
    RemovedMeans(f, Engine(db, like));
  }

  /** The statements in one transaction of their own. */
  method ExecInTransaction(db: Connection<Store>, list: seq<Statement>, like: (string, string) -> bool) returns (ok: bool)
    requires !db.open
    modifies db
    ensures ok ==> !db.open && ExecuteAll(list, old(db.store), like) == Some(db.store)
    ensures !ok ==> db.Durable() == old(db.store)
    ensures ok || ExecuteAll(list, old(db.store), like) == None || SomeFailed(db.succeeds, old(db.requests), |list| + 2)
  {
    ok := db.Begin();
    if ok {
      ok := Exec(db, list, like);
    }
    if ok {
      ok := db.Commit();
    } else {
      var _ := db.Rollback();
    }
  }

  /** The ids are read before the transaction; when that read fails they are none, and removing goes on all the same. */
  method RemovePhotos(db: Connection<Store>, f: Filter, like: (string, string) -> bool)
    returns (ok: bool, announced: seq<Value>)
    requires WellFormed(f) && GroupKeysIntact(db.store.tables)
    requires !db.open && db.store.dropIndices.None?
    modifies db
    // success: exactly the photos selected in the starting tables, none of which was in a group
    ensures ok ==> !db.open && db.store.dropIndices.None?
    ensures ok ==> RemovedExactly(old(db.store.tables), db.store.tables, f, like)
    ensures ok ==> NoneGrouped(f, Engine(old(db.store.tables), like))
    // failure: nothing is durable; it has a cause
    ensures !ok ==> db.Durable() == old(db.store)
    ensures ok || !NoneGrouped(f, Engine(old(db.store.tables), like)) || SomeFailed(db.succeeds, old(db.requests) + 1, 13)
    // the announcement, which does not depend on success
    ensures !db.succeeds(old(db.requests)) ==> announced == []
    ensures db.succeeds(old(db.requests)) ==>
      forall v :: v in announced <==> v.Int? && Goes(f, Engine(old(db.store.tables), like), v.i)
  {
    ghost var en := Engine(db.store.tables, like);
    var query := GenerateQuery(f);
    announced := [];
    var collected := db.Request();
    if collected {
      announced := EvalQuery(query, Engine(db.store.tables, like));
      forall v
        ensures v in announced <==> v.Int? && Goes(f, en, v.i)
      {
        GenerateCorrect(f, en, v);
      }
    }
    RemovalMeans(f, db.store.tables, like);
    assert db.store == Store(db.store.tables, None);
    ok := ExecInTransaction(db, RemovalOf(query), like);
  }
}
