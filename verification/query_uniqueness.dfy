/** When the query of a filter returns no photo twice, as its callers take for granted. */
module QueryUniqueness {
  import opened Common
  import opened Photos
  import opened Tables
  import opened Sql
  import opened FilterCompiler
  import opened FilterCorrectness

  // ---------------------------------------------------------------------------
  // Keys of the tables
  // ---------------------------------------------------------------------------

  /** One row for a photo in the flags and checksum tables, one for each of its tags and general flags. */
  ghost predicate UniqueKeys(db: Tables) {
    && UniquePhotos(db.photos)
    && OneRowPerTag(db.tags)
    && (forall i, j :: 0 <= i < j < |db.flags| ==> db.flags[i].photoId != db.flags[j].photoId)
    && (forall i, j :: 0 <= i < j < |db.sha256sums| ==> db.sha256sums[i].photoId != db.sha256sums[j].photoId)
    && (forall i, j :: 0 <= i < j < |db.generalFlags| ==>
          db.generalFlags[i].photoId != db.generalFlags[j].photoId || db.generalFlags[i].name != db.generalFlags[j].name)
  }

  /** No two rows name this person on the same stored photo. */
  ghost predicate PersonOnce(db: Tables, person: int) {
    forall i, j :: 0 <= i < j < |db.people| && HasPhoto(db, db.people[i].photoId)
      && db.people[i].personId == Some(person) && db.people[j].personId == Some(person)
      ==> db.people[i].photoId != db.people[j].photoId
  }

  ghost predicate RepresentsOnce(db: Tables) {
    forall i, j :: 0 <= i < j < |db.groups| ==> db.groups[i].representativeId != db.groups[j].representativeId
  }

  ghost predicate MemberOnce(db: Tables) {
    forall i, j :: 0 <= i < j < |db.members| ==> db.members[i].photoId != db.members[j].photoId
  }

  /** Only a person or a group role can repeat a photo, and only when no other condition is beside it. */
  ghost predicate NoRepeat(f: Filter, db: Tables) {
    match f
    case GroupFilter(fs) => |fs| == 1 ==> NoRepeat(fs[0], db)
    case WithPerson(person) => PersonOnce(db, person)
    case WithRole(GroupRepresentative) => RepresentsOnce(db)
    case WithRole(GroupMember) => MemberOnce(db)
    case _ => true
  }

  // ---------------------------------------------------------------------------
  // Blocks of rows, one for each photo
  // ---------------------------------------------------------------------------

  lemma {:induction false} KeepConcat(a: seq<Env>, b: seq<Env>, c: Cond, en: Engine)
    ensures Keep(a + b, c, en) == Keep(a, c, en) + Keep(b, c, en)
    decreases |a|
  {
    if a == [] {
      assert a + b == b;
    } else {
      assert (a + b)[0] == a[0] && (a + b)[1..] == a[1..] + b;
      KeepConcat(a[1..], b, c, en);
    }
  }

  lemma ProjectConcat(e: Expr, a: seq<Env>, b: seq<Env>)
    ensures Project(e, a + b) == Project(e, a) + Project(e, b)
  {
  }

  function PhotoEnvs(photos: seq<PhotoRow>): (envs: seq<Env>)
    ensures |envs| == |photos|
    ensures forall i :: 0 <= i < |photos| ==> envs[i] == PhotoEnv(photos[i])
  {
    seq(|photos|, i requires 0 <= i < |photos| => PhotoEnv(photos[i]))
  }

  lemma PhotosAreEnvs(en: Engine)
    ensures EvalFrom(Base(PHOTOS), en) == PhotoEnvs(en.db.photos)
  {
  }

  /** Every row of the block shows this photo, and there are n of them. */
  ghost predicate BlockOf(block: seq<Env>, id: int, n: nat) {
    |block| == n && forall i :: 0 <= i < n ==> EvalExpr(PHOTO_ID, block[i]) == Int(id)
  }

  /** Blocks of distinct photos show no photo twice exactly when each has at most one row. */
  ghost predicate ShowsOnce(envs: seq<Env>) {
    Distinct(Project(PHOTO_ID, envs))
  }

  ghost predicate ShowsOnly(envs: seq<Env>, photos: seq<PhotoRow>) {
    forall i :: 0 <= i < |envs| ==> Shows(envs[i], photos)
  }

  ghost predicate Shows(e: Env, photos: seq<PhotoRow>) {
    exists k :: 0 <= k < |photos| && EvalExpr(PHOTO_ID, e) == Int(photos[k].id)
  }

  lemma DistinctConcat(a: seq<Value>, b: seq<Value>)
    requires forall i, j :: 0 <= i < |a| && 0 <= j < |b| ==> a[i] != b[j]
    ensures Distinct(a + b) <==> Distinct(a) && Distinct(b)
  {
    var all := a + b;
    assert forall i :: 0 <= i < |a| ==> all[i] == a[i];
    assert forall j :: 0 <= j < |b| ==> all[|a| + j] == b[j];
    if Distinct(all) {
      forall i, j | 0 <= i < j < |b|
        ensures b[i] != b[j]
      {
        assert all[|a| + i] != all[|a| + j];
      }
    }
  }

  lemma BlockDistinct(block: seq<Env>, id: int, n: nat)
    requires BlockOf(block, id, n)
    ensures ShowsOnce(block) <==> n <= 1
  {
    var shown := Project(PHOTO_ID, block);
    if n > 1 {
      assert shown[0] == Int(id) == shown[1];
    }
  }

  lemma ShownLater(e: Env, photos: seq<PhotoRow>)
    requires photos != [] && UniquePhotos(photos) && Shows(e, photos[1..])
    ensures Shows(e, photos) && EvalExpr(PHOTO_ID, e) != Int(photos[0].id)
  {
    var k :| 0 <= k < |photos[1..]| && EvalExpr(PHOTO_ID, e) == Int(photos[1..][k].id);
    assert photos[k + 1] == photos[1..][k];
  }

  lemma BlockShows(block: seq<Env>, rest: seq<Env>, photos: seq<PhotoRow>, n: nat)
    requires photos != [] && UniquePhotos(photos) && BlockOf(block, photos[0].id, n) && ShowsOnly(rest, photos[1..])
    ensures ShowsOnly(block + rest, photos)
  {
    var all := block + rest;
    forall i | 0 <= i < |all|
      ensures Shows(all[i], photos)
    {
      if i < n {
        assert EvalExpr(PHOTO_ID, all[i]) == Int(photos[0].id);
      } else {
        ShownLater(rest[i - n], photos);
      }
    }
  }

  lemma BlockFirst(block: seq<Env>, rest: seq<Env>, photos: seq<PhotoRow>, n: nat)
    requires photos != [] && UniquePhotos(photos) && BlockOf(block, photos[0].id, n) && ShowsOnly(rest, photos[1..])
    ensures ShowsOnly(block + rest, photos)
    ensures ShowsOnce(block + rest) <==> n <= 1 && ShowsOnce(rest)
  {
    BlockShows(block, rest, photos, n);
    BlockDistinct(block, photos[0].id, n);
    var a, b := Project(PHOTO_ID, block), Project(PHOTO_ID, rest);
    forall i, j | 0 <= i < |a| && 0 <= j < |b|
      ensures a[i] != b[j]
    {
      ShownLater(rest[j], photos);
    }
    ProjectConcat(PHOTO_ID, block, rest);
    DistinctConcat(a, b);
  }

  // ---------------------------------------------------------------------------
  // Joins
  // ---------------------------------------------------------------------------

  /** The joined row passes both conditions. */
  predicate Hits(p: PhotoRow, r: Ref, row: Row, on: Cond, where: Cond, en: Engine) {
    EvalCond(on, Joined(p, r, row), en) == True && EvalCond(where, Joined(p, r, row), en) == True
  }

  function CountRows(rows: seq<Row>, hit: Row -> bool): nat {
    if rows == [] then 0 else (if hit(rows[0]) then 1 else 0) + CountRows(rows[1..], hit)
  }

  ghost predicate AtMostOne(rows: seq<Row>, hit: Row -> bool) {
    forall i, j :: 0 <= i < j < |rows| ==> !hit(rows[i]) || !hit(rows[j])
  }

  lemma {:induction false} Counted(rows: seq<Row>, hit: Row -> bool, i: nat)
    requires i < |rows| && hit(rows[i])
    ensures CountRows(rows, hit) >= 1
  {
    if i > 0 {
      assert rows[1..][i - 1] == rows[i];
      Counted(rows[1..], hit, i - 1);
    }
  }

  lemma {:induction false} CountedTwice(rows: seq<Row>, hit: Row -> bool, i: nat, j: nat)
    requires i < j < |rows| && hit(rows[i]) && hit(rows[j])
    ensures CountRows(rows, hit) > 1
  {
    assert rows[1..][j - 1] == rows[j];
    if i == 0 {
      Counted(rows[1..], hit, j - 1);
    } else {
      assert rows[1..][i - 1] == rows[i];
      CountedTwice(rows[1..], hit, i - 1, j - 1);
    }
  }

  lemma {:induction false} SomeCounted(rows: seq<Row>, hit: Row -> bool) returns (i: nat)
    requires CountRows(rows, hit) >= 1
    ensures i < |rows| && hit(rows[i])
  {
    if hit(rows[0]) {
      i := 0;
    } else {
      var k := SomeCounted(rows[1..], hit);
      i := k + 1;
    }
  }

  lemma {:induction false} CountedAtMostOne(rows: seq<Row>, hit: Row -> bool)
    requires AtMostOne(rows, hit)
    ensures CountRows(rows, hit) <= 1
  {
    if rows != [] {
      assert forall i :: 0 <= i < |rows[1..]| ==> rows[1..][i] == rows[i + 1];
      CountedAtMostOne(rows[1..], hit);
      if CountRows(rows[1..], hit) >= 1 {
        var k := SomeCounted(rows[1..], hit);
        assert hit(rows[k + 1]);
      }
    }
  }

  function HitCount(p: PhotoRow, r: Ref, rows: seq<Row>, on: Cond, where: Cond, en: Engine): nat {
    CountRows(rows, (row: Row) => Hits(p, r, row, on, where, en))
  }

  ghost predicate HitsOnce(p: PhotoRow, r: Ref, rows: seq<Row>, on: Cond, where: Cond, en: Engine) {
    AtMostOne(rows, (row: Row) => Hits(p, r, row, on, where, en))
  }

  lemma CountedOnce(p: PhotoRow, r: Ref, rows: seq<Row>, on: Cond, where: Cond, en: Engine)
    ensures HitCount(p, r, rows, on, where, en) <= 1 <==> HitsOnce(p, r, rows, on, where, en)
  {
    var hit := (row: Row) => Hits(p, r, row, on, where, en);
    if AtMostOne(rows, hit) {
      CountedAtMostOne(rows, hit);
    } else {
      var i, j :| 0 <= i < j < |rows| && hit(rows[i]) && hit(rows[j]);
      CountedTwice(rows, hit, i, j);
    }
  }

  /** The joined rows of one photo that pass both conditions. */
  function Block(p: PhotoRow, r: Ref, rows: seq<Row>, on: Cond, where: Cond, en: Engine): seq<Env> {
    Keep(Keep(Extend(PhotoEnv(p), BaseRows(rows, r)), on, en), where, en)
  }

  lemma {:induction false} BlockIs(p: PhotoRow, r: Ref, rows: seq<Row>, on: Cond, where: Cond, en: Engine)
    requires r != PHOTOS
    ensures BlockOf(Block(p, r, rows, on, where, en), p.id, HitCount(p, r, rows, on, where, en))
    decreases |rows|
  {
    var all := Extend(PhotoEnv(p), BaseRows(rows, r));
    if rows != [] {
      var head, tail := Joined(p, r, rows[0]), Extend(PhotoEnv(p), BaseRows(rows[1..], r));
      BlockIs(p, r, rows[1..], on, where, en);
      assert Beside(PhotoEnv(p), Bind(r, rows[0], Nothing)) == head;
      assert all[0] == head && all[1..] == tail;
      JoinedColumns(p, r, rows[0]);
      KeepOne(head, tail, on, where, en);
    }
  }

  lemma KeepOne(head: Env, tail: seq<Env>, on: Cond, where: Cond, en: Engine)
    ensures Keep(Keep([head] + tail, on, en), where, en)
         == (if EvalCond(on, head, en) == True && EvalCond(where, head, en) == True then [head] else []) + Keep(Keep(tail, on, en), where, en)
  {
    assert ([head] + tail)[1..] == tail;
    var kept := Keep(tail, on, en);
    if EvalCond(on, head, en) == True {
      assert Keep([head] + tail, on, en) == [head] + kept;
      assert ([head] + kept)[1..] == kept;
    }
  }

  /** A join shows no photo twice exactly when no photo has two rows that pass both conditions. */
  lemma {:induction false} JoinedOnce(photos: seq<PhotoRow>, r: Ref, rows: seq<Row>, on: Cond, where: Cond, en: Engine)
    requires r != PHOTOS && UniquePhotos(photos)
    ensures var kept := Keep(Keep(Pairs(PhotoEnvs(photos), BaseRows(rows, r)), on, en), where, en);
            && ShowsOnly(kept, photos)
            && (ShowsOnce(kept) <==> forall p :: p in photos ==> HitsOnce(p, r, rows, on, where, en))
    decreases |photos|
  {
    var bs := BaseRows(rows, r);
    if photos != [] {
      var tail := photos[1..];
      JoinedOnce(tail, r, rows, on, where, en);
      assert PhotoEnvs(photos)[1..] == PhotoEnvs(tail);
      var first, rest := Extend(PhotoEnv(photos[0]), bs), Pairs(PhotoEnvs(tail), bs);
      KeepConcat(first, rest, on, en);
      KeepConcat(Keep(first, on, en), Keep(rest, on, en), where, en);
      BlockIs(photos[0], r, rows, on, where, en);
      CountedOnce(photos[0], r, rows, on, where, en);
      BlockFirst(Block(photos[0], r, rows, on, where, en), Keep(Keep(rest, on, en), where, en), photos,
                 HitCount(photos[0], r, rows, on, where, en));
      assert forall p :: p in photos <==> p == photos[0] || p in tail;
    }
  }

  ghost predicate AllHitOnce(en: Engine, r: Ref, on: Cond, where: Cond) {
    forall p :: p in en.db.photos ==> HitsOnce(p, r, RowsOf(en.db, r), on, where, en)
  }

  lemma JoinQueryOnce(en: Engine, r: Ref, on: Cond, where: Cond)
    requires r != PHOTOS && UniquePhotos(en.db.photos)
    ensures Distinct(EvalQuery(Select(PHOTO_ID, Join(Base(PHOTOS), Base(r), on), where), en)) <==>
            AllHitOnce(en, r, on, where)
  {
    PhotosAreEnvs(en);
    JoinedOnce(en.db.photos, r, RowsOf(en.db, r), on, where, en);
    var from := Join(Base(PHOTOS), Base(r), on);
    assert EvalFrom(from, en) == Keep(Pairs(EvalFrom(Base(PHOTOS), en), EvalFrom(Base(r), en)), on, en);
    assert EvalQuery(Select(PHOTO_ID, from, where), en) == Project(PHOTO_ID, Keep(EvalFrom(from, en), where, en));
  }

  /** What one photo contributes to a left join: its one match, or itself alone. */
  lemma LeftBlock(p: PhotoRow, r: Ref, rows: seq<Row>, on: Cond, en: Engine)
    requires r != PHOTOS && HitsOnce(p, r, rows, on, Always, en)
    ensures var matches := Keep(Extend(PhotoEnv(p), BaseRows(rows, r)), on, en);
            BlockOf(if matches == [] then [PhotoEnv(p)] else matches, p.id, 1)
  {
    BlockIs(p, r, rows, on, Always, en);
    CountedOnce(p, r, rows, on, Always, en);
    KeepAlways(Keep(Extend(PhotoEnv(p), BaseRows(rows, r)), on, en), en);
  }

  /** A left join adds at most one row for each photo when no photo matches two. */
  lemma {:induction false} LeftJoinedOnce(photos: seq<PhotoRow>, r: Ref, rows: seq<Row>, on: Cond, where: Cond, en: Engine)
    requires r != PHOTOS && UniquePhotos(photos)
    requires forall p :: p in photos ==> HitsOnce(p, r, rows, on, Always, en)
    ensures var kept := Keep(LeftRows(PhotoEnvs(photos), BaseRows(rows, r), on, en), where, en);
            ShowsOnly(kept, photos) && ShowsOnce(kept)
    decreases |photos|
  {
    var bs := BaseRows(rows, r);
    if photos != [] {
      var p, tail := photos[0], photos[1..];
      LeftJoinedOnce(tail, r, rows, on, where, en);
      assert PhotoEnvs(photos)[1..] == PhotoEnvs(tail);
      var matches := Keep(Extend(PhotoEnv(p), bs), on, en);
      var block := if matches == [] then [PhotoEnv(p)] else matches;
      LeftBlock(p, r, rows, on, en);
      KeptBlock(block, p.id, where, en);
      KeepConcat(block, LeftRows(PhotoEnvs(tail), bs, on, en), where, en);
      BlockFirst(Keep(block, where, en), Keep(LeftRows(PhotoEnvs(tail), bs, on, en), where, en), photos, |Keep(block, where, en)|);
    }
  }

  lemma {:induction false} KeepAlways(envs: seq<Env>, en: Engine)
    ensures Keep(envs, Always, en) == envs
  {
    if envs != [] {
      KeepAlways(envs[1..], en);
    }
  }

  lemma KeptBlock(block: seq<Env>, id: int, where: Cond, en: Engine)
    requires BlockOf(block, id, 1)
    ensures BlockOf(Keep(block, where, en), id, |Keep(block, where, en)|) && |Keep(block, where, en)| <= 1
  {
    assert block[1..] == [];
  }

  /** Without a join each photo is shown at most once. */
  lemma {:induction false} PlainOnce(photos: seq<PhotoRow>, where: Cond, en: Engine)
    requires UniquePhotos(photos)
    ensures ShowsOnly(Keep(PhotoEnvs(photos), where, en), photos) && ShowsOnce(Keep(PhotoEnvs(photos), where, en))
    decreases |photos|
  {
    if photos != [] {
      var tail := photos[1..];
      PlainOnce(tail, where, en);
      var block, later := [PhotoEnv(photos[0])], PhotoEnvs(tail);
      assert PhotoEnvs(photos) == block + later;
      KeptBlock(block, photos[0].id, where, en);
      KeepConcat(block, later, where, en);
      BlockFirst(Keep(block, where, en), Keep(later, where, en), photos, |Keep(block, where, en)|);
      assert Keep(PhotoEnvs(photos), where, en) == Keep(block, where, en) + Keep(later, where, en);
    }
  }

  lemma AllPhotosOnce(en: Engine, where: Cond)
    requires UniquePhotos(en.db.photos)
    ensures Distinct(EvalQuery(AllPhotos(where), en))
  {
    PhotosAreEnvs(en);
    PlainOnce(en.db.photos, where, en);
  }

  lemma LeftJoinQueryOnce(en: Engine, r: Ref, on: Cond, where: Cond)
    requires r != PHOTOS && UniquePhotos(en.db.photos)
    requires forall p :: p in en.db.photos ==> HitsOnce(p, r, RowsOf(en.db, r), on, Always, en)
    ensures Distinct(EvalQuery(Select(PHOTO_ID, LeftJoin(Base(PHOTOS), Base(r), on), where), en))
  {
    PhotosAreEnvs(en);
    LeftJoinedOnce(en.db.photos, r, RowsOf(en.db, r), on, where, en);
    var from := LeftJoin(Base(PHOTOS), Base(r), on);
    assert EvalFrom(from, en) == LeftRows(EvalFrom(Base(PHOTOS), en), EvalFrom(Base(r), en), on, en);
    assert EvalQuery(Select(PHOTO_ID, from, where), en) == Project(PHOTO_ID, Keep(EvalFrom(from, en), where, en));
  }

  // ---------------------------------------------------------------------------
  // Each kind of filter
  // ---------------------------------------------------------------------------

  lemma TagsOnce(en: Engine, t: TagType, value: Option<string>, op: CompareOp, includeEmpty: bool)
    requires UniqueKeys(en.db)
    ensures Distinct(EvalQuery(VisitTag(t, value, op, includeEmpty), en))
  {
    var rows := RowsOf(en.db, TAGS);
    if includeEmpty {
      var on := And(Cmp(Equal, Col(TAGS, PhotoId), PHOTO_ID), TagName(t));
      forall p | p in en.db.photos
        ensures HitsOnce(p, TAGS, rows, on, Always, en)
      {
        forall i | 0 <= i < |rows| && Hits(p, TAGS, rows[i], on, Always, en)
          ensures IsTagOf(en.db.tags[i], p.id, t)
        {
          OwnOnRow(t, p, rows[i], en);
        }
      }
      LeftJoinQueryOnce(en, TAGS, on, TagCondition(t, value, op, true));
    } else {
      var on, where := Cmp(Equal, Col(TAGS, PhotoId), PHOTO_ID), TagCondition(t, value, op, false);
      forall p | p in en.db.photos
        ensures HitsOnce(p, TAGS, rows, on, where, en)
      {
        forall i | 0 <= i < |rows| && Hits(p, TAGS, rows[i], on, where, en)
          ensures IsTagOf(en.db.tags[i], p.id, t)
        {
          OnSamePhoto(p, TAGS, rows[i], en);
          TagConditionOnRow(t, value, op, p, en.db.tags[i], en);
        }
      }
      JoinQueryOnce(en, TAGS, on, where);
    }
  }

  lemma FlagsOnce(en: Engine, where: Cond)
    requires UniqueKeys(en.db)
    ensures Distinct(EvalQuery(Select(PHOTO_ID, JoinPhotos(FLAGS), where), en))
  {
    var rows, on := RowsOf(en.db, FLAGS), Cmp(Equal, Col(FLAGS, PhotoId), PHOTO_ID);
    forall p | p in en.db.photos
      ensures HitsOnce(p, FLAGS, rows, on, where, en)
    {
      forall i | 0 <= i < |rows| && Hits(p, FLAGS, rows[i], on, where, en)
        ensures en.db.flags[i].photoId == p.id
      {
        OnSamePhoto(p, FLAGS, rows[i], en);
      }
    }
    JoinQueryOnce(en, FLAGS, on, where);
  }

  lemma Sha256Once(en: Engine, where: Cond)
    requires UniqueKeys(en.db)
    ensures Distinct(EvalQuery(Select(PHOTO_ID, JoinPhotos(SHA256SUMS), where), en))
  {
    var rows, on := RowsOf(en.db, SHA256SUMS), Cmp(Equal, Col(SHA256SUMS, PhotoId), PHOTO_ID);
    forall p | p in en.db.photos
      ensures HitsOnce(p, SHA256SUMS, rows, on, where, en)
    {
      forall i | 0 <= i < |rows| && Hits(p, SHA256SUMS, rows[i], on, where, en)
        ensures en.db.sha256sums[i].photoId == p.id
      {
        OnSamePhoto(p, SHA256SUMS, rows[i], en);
      }
    }
    JoinQueryOnce(en, SHA256SUMS, on, where);
  }

  lemma GeneralFlagsOnce(en: Engine, name: string, value: int)
    requires UniqueKeys(en.db)
    ensures Distinct(EvalQuery(VisitGeneralFlag(name, value), en))
  {
    var rows, on := RowsOf(en.db, GENERAL_FLAGS), GeneralFlagOn(name);
    forall p | p in en.db.photos
      ensures HitsOnce(p, GENERAL_FLAGS, rows, on, Always, en)
    {
      forall i | 0 <= i < |rows| && Hits(p, GENERAL_FLAGS, rows[i], on, Always, en)
        ensures IsGeneralFlagOf(en.db.generalFlags[i], p.id, name)
      {
        GeneralFlagOnRow(name, value, p, rows[i], en);
      }
    }
    LeftJoinQueryOnce(en, GENERAL_FLAGS, on, GeneralFlagWhere(value));
  }

  const PERSON_ON := Cmp(Equal, Col(PEOPLE, PhotoId), PHOTO_ID)

  function PersonWhere(person: int): Cond {
    Cmp(Equal, Col(PEOPLE, PersonId), Lit(Int(person)))
  }

  lemma PersonHits(en: Engine, person: int, p: PhotoRow, i: int)
    requires 0 <= i < |en.db.people|
    ensures Hits(p, PEOPLE, RowsOf(en.db, PEOPLE)[i], PERSON_ON, PersonWhere(person), en)
       <==> en.db.people[i].photoId == p.id && en.db.people[i].personId == Some(person)
  {
    PersonOnRow(person, p, RowsOf(en.db, PEOPLE)[i], en);
  }

  lemma PersonOnceHitsOnce(en: Engine, person: int, p: PhotoRow)
    requires PersonOnce(en.db, person) && p in en.db.photos
    ensures HitsOnce(p, PEOPLE, RowsOf(en.db, PEOPLE), PERSON_ON, PersonWhere(person), en)
  {
    assert HasPhoto(en.db, p.id);
    forall i, j | 0 <= i < j < |en.db.people|
      ensures !Hits(p, PEOPLE, RowsOf(en.db, PEOPLE)[i], PERSON_ON, PersonWhere(person), en)
           || !Hits(p, PEOPLE, RowsOf(en.db, PEOPLE)[j], PERSON_ON, PersonWhere(person), en)
    {
      PersonHits(en, person, p, i);
      PersonHits(en, person, p, j);
    }
  }

  lemma PersonTwiceHitsTwice(en: Engine, person: int) returns (p: PhotoRow)
    requires !PersonOnce(en.db, person)
    ensures p in en.db.photos && !HitsOnce(p, PEOPLE, RowsOf(en.db, PEOPLE), PERSON_ON, PersonWhere(person), en)
  {
    var i, j :| 0 <= i < j < |en.db.people| && HasPhoto(en.db, en.db.people[i].photoId)
      && en.db.people[i].personId == Some(person) && en.db.people[j].personId == Some(person)
      && en.db.people[i].photoId == en.db.people[j].photoId;
    p :| p in en.db.photos && p.id == en.db.people[i].photoId;
    PersonHits(en, person, p, i);
    PersonHits(en, person, p, j);
  }

  lemma PersonOnceMeans(en: Engine, person: int)
    ensures AllHitOnce(en, PEOPLE, PERSON_ON, PersonWhere(person)) <==> PersonOnce(en.db, person)
  {
    if PersonOnce(en.db, person) {
      forall p | p in en.db.photos
        ensures HitsOnce(p, PEOPLE, RowsOf(en.db, PEOPLE), PERSON_ON, PersonWhere(person), en)
      {
        PersonOnceHitsOnce(en, person, p);
      }
    } else {
      var p := PersonTwiceHitsTwice(en, person);
      assert !AllHitOnce(en, PEOPLE, PERSON_ON, PersonWhere(person));
    }
  }

  lemma PersonsOnceExactly(en: Engine, person: int)
    requires UniqueKeys(en.db)
    ensures Distinct(EvalQuery(Generate(WithPerson(person)), en)) <==> PersonOnce(en.db, person)
  {
    assert Generate(WithPerson(person)) == Select(PHOTO_ID, Join(Base(PHOTOS), Base(PEOPLE), PERSON_ON), PersonWhere(person));
    JoinQueryOnce(en, PEOPLE, PERSON_ON, PersonWhere(person));
    PersonOnceMeans(en, person);
  }

  lemma ColumnOnceExactly(en: Engine, r: Ref, c: Column)
    ensures Distinct(EvalQuery(Select(Col(r, c), Base(r), Always), en)) <==>
            forall i, j :: 0 <= i < j < |RowsOf(en.db, r)| ==> Get(RowsOf(en.db, r)[i], c) != Get(RowsOf(en.db, r)[j], c)
  {
    var envs := BaseRows(RowsOf(en.db, r), r);
    KeepAlways(envs, en);
    var shown := Project(Col(r, c), envs);
    assert EvalQuery(Select(Col(r, c), Base(r), Always), en) == shown;
    assert forall i :: 0 <= i < |envs| ==> shown[i] == Get(RowsOf(en.db, r)[i], c);
  }

  lemma RepresentativesOnceExactly(en: Engine)
    ensures Distinct(EvalQuery(REPRESENTATIVES, en)) <==> RepresentsOnce(en.db)
  {
    var rows := RowsOf(en.db, GROUPS);
    ColumnOnceExactly(en, GROUPS, RepresentativeId);
    forall i | 0 <= i < |en.db.groups|
      ensures Get(rows[i], RepresentativeId) == Int(en.db.groups[i].representativeId)
    {
      assert rows[i] == GroupR(en.db.groups[i]);
    }
  }

  lemma MembersOnceExactly(en: Engine)
    ensures Distinct(EvalQuery(GROUP_MEMBERS, en)) <==> MemberOnce(en.db)
  {
    var rows := RowsOf(en.db, GROUPS_MEMBERS);
    ColumnOnceExactly(en, GROUPS_MEMBERS, PhotoId);
    forall i | 0 <= i < |en.db.members|
      ensures Get(rows[i], PhotoId) == Int(en.db.members[i].photoId)
    {
      assert rows[i] == MemberR(en.db.members[i]);
    }
  }

  lemma RolesOnceExactly(en: Engine, role: RoleFilter)
    requires UniqueKeys(en.db)
    ensures Distinct(EvalQuery(VisitRole(role), en)) <==> NoRepeat(WithRole(role), en.db)
  {
    match role
    case Regular => AllPhotosOnce(en, NotIn(PHOTO_ID, Union(GROUP_MEMBERS, REPRESENTATIVES)));
    case GroupRepresentative => RepresentativesOnceExactly(en);
    case GroupMember => MembersOnceExactly(en);
  }

  /** Main result: the query of a filter returns no photo twice exactly when NoRepeat says so. */
  lemma {:induction false} GeneratedOnceExactly(f: Filter, en: Engine)
    requires UniqueKeys(en.db)
    ensures Distinct(EvalQuery(Generate(f), en)) <==> NoRepeat(f, en.db)
    decreases f
  {
    match f
    case EmptyFilter => AllPhotosOnce(en, Always);
    case GroupFilter(fs) =>
      var queries := GenerateAll(fs);
      if fs == [] {
        AllPhotosOnce(en, Always);
      } else if |fs| == 1 {
        GeneratedOnceExactly(fs[0], en);
      } else {
        AllPhotosOnce(en, Conjunction(MemberConds(queries)));
      }
    case NotMatching(g) => AllPhotosOnce(en, NotIn(PHOTO_ID, Generate(g)));
    case WithTag(t, value, op, includeEmpty) => TagsOnce(en, t, value, op, includeEmpty);
    case WithFlags(flags, mode) => FlagsOnce(en, FlagsCondition(flags, mode));
    case WithSha256(sha) => Sha256Once(en, Cmp(Equal, Col(SHA256SUMS, Sha256), Lit(Text(sha))));
    case WithId(id) => AllPhotosOnce(en, Cmp(Equal, PHOTO_ID, Lit(Int(id))));
    case MatchingExpression(terms) => AllPhotosOnce(en, Or(In(PHOTO_ID, TagsQuery(terms)), In(PHOTO_ID, PeopleQuery(terms))));
    case WithPath(path) => AllPhotosOnce(en, Cmp(Equal, Col(PHOTOS, Path), Lit(Text(path))));
    case WithRole(role) => RolesOnceExactly(en, role);
    case WithPerson(person) => PersonsOnceExactly(en, person);
    case WithGeneralFlag(name, value) => GeneralFlagsOnce(en, name, value);
  }
}
