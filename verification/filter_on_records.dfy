/** Filters on what a record holds select photos by the record that is read back from the tables. */
module FilterOnRecords {
  import opened Common
  import opened Photos
  import opened Tables
  import opened Sql
  import opened FilterCompiler
  import opened SqlBackend
  import FilterCorrectness
  import OrderingQuery

  // ---------------------------------------------------------------------------
  // A flag is looked for in the column it is stored in and read from
  // ---------------------------------------------------------------------------

  lemma FlagStoredInItsColumn(id: int, flags: Flags, f: Flag)
    ensures FlagColumn(FlagsRowOf(id, flags), f) == FlagOf(flags, f)
  {
  }

  lemma FlagReadFromItsColumn(row: FlagsRow, f: Flag)
    ensures f in FlagsOfRow(row) && FlagsOfRow(row)[f] == FlagColumn(row, f)
  {
  }

  // ---------------------------------------------------------------------------
  // The meaning of a filter on a record
  // ---------------------------------------------------------------------------

  /** Filters that ask for nothing but tags, flags, checksum, path and id, in any nesting. */
  predicate OnRecord(f: Filter) {
    match f
    case GroupFilter(fs) => forall g | g in fs :: OnRecord(g)
    case NotMatching(g) => OnRecord(g)
    case EmptyFilter => true
    case WithTag(_, _, _, _) => true
    case WithFlags(_, _) => true
    case WithSha256(_) => true
    case WithId(_) => true
    case WithPath(_) => true
    case _ => false
  }

  ghost predicate FlagsFit(wanted: Flags, mode: FlagsMode, flags: Flags) {
    match mode
    case AllFlags => forall f: Flag :: f in wanted ==> FlagOf(flags, f) == wanted[f]
    case AnyFlag => exists f: Flag :: f in wanted && FlagOf(flags, f) == wanted[f]
  }

  ghost predicate Fits(f: Filter, d: Data) {
    match f
    case EmptyFilter => true
    case GroupFilter(fs) => forall g | g in fs :: Fits(g, d)
    case NotMatching(g) => !Fits(g, d)
    case WithTag(t, None, _, _) => t in d.tags
    case WithTag(t, Some(v), op, false) => t in d.tags && TagCompares(t, op, d.tags[t], v)
    case WithTag(t, Some(v), op, true) => TextCompares(op, if t in d.tags then d.tags[t] else "", v)
    case WithFlags(wanted, mode) => FlagsFit(wanted, mode, d.flags)
    case WithSha256(sha) => d.sha256 == sha
    case WithId(id) => d.id == Some(id)
    case WithPath(path) => d.path == path
    case _ => false
  }

  /** One row for the photo where the tables have one for each, and tag values that are not NULL. */
  ghost predicate KeyedFor(db: Tables, id: int) {
    && UniquePhotos(db.photos) && OneRowPerTag(db.tags)
    && (forall r :: r in db.tags ==> r.value.Some?)
    && CountOf(db.flags, FlagsPhoto, id) == 1 && CountOf(db.sha256sums, Sha256Photo, id) <= 1
  }

  lemma {:induction false} CountedRow<R>(rows: seq<R>, photoOf: R -> int, r: R)
    requires r in rows
    ensures CountOf(rows, photoOf, photoOf(r)) >= 1
  {
    if rows[0] != r {
      CountedRow(rows[1..], photoOf, r);
    }
  }

  lemma {:induction false} TheOnlyRow<R>(rows: seq<R>, photoOf: R -> int, id: int, r: R)
    requires CountOf(rows, photoOf, id) <= 1 && r in rows && photoOf(r) == id
    ensures FirstOf(rows, photoOf, id) == Some(r)
  {
    if photoOf(rows[0]) == id {
      if rows[0] != r {
        CountedRow(rows[1..], photoOf, r);
      }
    } else {
      TheOnlyRow(rows[1..], photoOf, id, r);
    }
  }

  lemma {:induction false} FirstIsARow<R>(rows: seq<R>, photoOf: R -> int, id: int)
    ensures match FirstOf(rows, photoOf, id)
      case Some(r) => r in rows && photoOf(r) == id
      case None => CountOf(rows, photoOf, id) == 0
  {
    if rows != [] {
      FirstIsARow(rows[1..], photoOf, id);
    }
  }

  // ---------------------------------------------------------------------------
  // One kind of filter at a time
  // ---------------------------------------------------------------------------

  lemma FlagsMatchMeans(row: FlagsRow, wanted: Flags, mode: FlagsMode)
    ensures FlagsMatch(row, wanted, mode) <==> FlagsFit(wanted, mode, FlagsOfRow(row))
  {
    forall f: Flag
      ensures FlagOf(FlagsOfRow(row), f) == FlagColumn(row, f)
    {
      FlagReadFromItsColumn(row, f);
    }
  }

  /** A flag filter selects by the flags that are read back; but a photo without a row of flags, whose flags read as 0,
      it never selects. */
  lemma FlagsByRecord(wanted: Flags, mode: FlagsMode, en: Engine, id: int)
    requires CountOf(en.db.flags, FlagsPhoto, id) <= 1
    ensures Selects(WithFlags(wanted, mode), en, id) <==>
            CountOf(en.db.flags, FlagsPhoto, id) == 1 && FlagsFit(wanted, mode, GetPhoto(en.db, id).flags)
  {
    FirstIsARow(en.db.flags, FlagsPhoto, id);
    forall r | r in en.db.flags && r.photoId == id
      ensures CountOf(en.db.flags, FlagsPhoto, id) == 1 && FirstOf(en.db.flags, FlagsPhoto, id) == Some(r)
    {
      CountedRow(en.db.flags, FlagsPhoto, r);
      TheOnlyRow(en.db.flags, FlagsPhoto, id, r);
    }
    if CountOf(en.db.flags, FlagsPhoto, id) == 1 {
      FlagsMatchMeans(FirstOf(en.db.flags, FlagsPhoto, id).value, wanted, mode);
    }
  }

  /** In particular by those that were stored last. */
  lemma FlagsByStoredDelta(wanted: Flags, mode: FlagsMode, before: Tables, after: Tables, delta: Delta, like: (string, string) -> bool)
    requires delta.id.Some? && delta.flags.Some? && ColumnsStored(before, after, delta)
    requires CountOf(before.flags, FlagsPhoto, delta.id.value) <= 1
    ensures Selects(WithFlags(wanted, mode), Engine(after, like), delta.id.value) <==> FlagsFit(wanted, mode, delta.flags.value)
  {
    var id, flags := delta.id.value, delta.flags.value;
    UpsertFirst(before.flags, FlagsPhoto, id, FlagsRowOf(id, flags), id);
    FlagsByRecord(wanted, mode, Engine(after, like), id);
    FlagsReadAsApplied(before, after, delta);
  }

  lemma TagRowOf(db: Tables, id: int, t: TagType)
    requires OneRowPerTag(db.tags) && forall r :: r in db.tags ==> r.value.Some?
    ensures t in GetPhoto(db, id).tags <==> HasTag(db, id, t)
    ensures forall r :: r in db.tags && IsTagOf(r, id, t) ==> t in GetPhoto(db, id).tags && r.value == Some(GetPhoto(db, id).tags[t])
  {
    OrderingQuery.FoundTagIsRead(db, id, t);
    forall r | r in db.tags && IsTagOf(r, id, t)
      ensures t in GetPhoto(db, id).tags && r.value == Some(GetPhoto(db, id).tags[t])
    {
      OrderingQuery.FoundRow(db.tags, id, t, r);
    }
  }

  lemma TagByRecord(t: TagType, value: Option<string>, op: CompareOp, includeEmpty: bool, en: Engine, id: int)
    requires OneRowPerTag(en.db.tags) && forall r :: r in en.db.tags ==> r.value.Some?
    ensures Selects(WithTag(t, value, op, includeEmpty), en, id) <==> Fits(WithTag(t, value, op, includeEmpty), GetPhoto(en.db, id))
  {
    TagRowOf(en.db, id, t);
  }

  lemma ChecksumByRecord(sha: string, en: Engine, id: int)
    requires sha != "" && CountOf(en.db.sha256sums, Sha256Photo, id) <= 1
    ensures Selects(WithSha256(sha), en, id) <==> GetPhoto(en.db, id).sha256 == sha
  {
    FirstIsARow(en.db.sha256sums, Sha256Photo, id);
    forall r | r in en.db.sha256sums && r.photoId == id
      ensures ReadChecksum(en.db, id) == Some(r.sha256)
    {
      TheOnlyRow(en.db.sha256sums, Sha256Photo, id, r);
    }
  }

  lemma PathByRecord(path: string, en: Engine, id: int)
    requires UniquePhotos(en.db.photos) && HasPhoto(en.db, id)
    ensures Selects(WithPath(path), en, id) <==> GetPhoto(en.db, id).path == path
  {
    forall p | p in en.db.photos && p.id == id
      ensures GetPhoto(en.db, id).path == p.path
    {
      OrderingQuery.ReadPathOf(en.db.photos, p);
    }
  }

  // ---------------------------------------------------------------------------
  // All of them
  // ---------------------------------------------------------------------------

  lemma {:induction false} SelectsByRecord(f: Filter, en: Engine, id: int)
    requires WellFormed(f) && OnRecord(f) && KeyedFor(en.db, id) && HasPhoto(en.db, id)
    ensures Selects(f, en, id) <==> Fits(f, GetPhoto(en.db, id))
    decreases f
  {
    match f
    case GroupFilter(fs) =>
      forall g | g in fs
        ensures Selects(g, en, id) <==> Fits(g, GetPhoto(en.db, id))
      {
        SelectsByRecord(g, en, id);
      }
    case NotMatching(g) => SelectsByRecord(g, en, id);
    case WithTag(t, value, op, includeEmpty) => TagByRecord(t, value, op, includeEmpty, en, id);
    case WithFlags(wanted, mode) => FlagsByRecord(wanted, mode, en, id);
    case WithSha256(sha) => ChecksumByRecord(sha, en, id);
    case WithPath(path) => PathByRecord(path, en, id);
    case _ =>
  }

  /** Main result: the compiled query of such a filter yields exactly the photos whose record, as it is read back, fits. */
  lemma QueryByRecord(f: Filter, en: Engine, v: Value)
    requires WellFormed(f) && OnRecord(f) && GroupKeysIntact(en.db)
    requires forall id :: HasPhoto(en.db, id) ==> KeyedFor(en.db, id)
    ensures v in EvalQuery(Generate(f), en) <==> v.Int? && HasPhoto(en.db, v.i) && Fits(f, GetPhoto(en.db, v.i))
  {
    FilterCorrectness.GenerateCorrect(f, en, v);
    if v.Int? && HasPhoto(en.db, v.i) {
      SelectsByRecord(f, en, v.i);
    }
  }
}
