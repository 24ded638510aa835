/** The compiled query of a filter selects exactly the photos the filter means. */
module FilterCorrectness {
  import opened Common
  import opened Photos
  import opened Tables
  import opened Sql
  import opened FilterCompiler

  // ---------------------------------------------------------------------------
  // Rows of joined tables
  // ---------------------------------------------------------------------------

  function PhotoEnv(p: PhotoRow): Env {
    Bind(PHOTOS, PhotoR(p), Nothing)
  }

  function Joined(p: PhotoRow, r: Ref, row: Row): Env {
    Bind(PHOTOS, PhotoR(p), Bind(r, row, Nothing))
  }

  lemma {:induction false} InPairs(xs: seq<Env>, bs: seq<Env>, e: Env)
    ensures e in Pairs(xs, bs) <==> exists a, b :: a in xs && b in bs && e == Beside(a, b)
  {
    if xs != [] {
      InPairs(xs[1..], bs, e);
      var head := Extend(xs[0], bs);
      assert Pairs(xs, bs) == head + Pairs(xs[1..], bs);
      if a, b :| a in xs && b in bs && e == Beside(a, b) {
        if a == xs[0] {
          var i :| 0 <= i < |bs| && bs[i] == b;
          assert head[i] == e;
        } else {
          assert a in xs[1..];
        }
      }
    }
  }

  ghost predicate Unmatched(a: Env, bs: seq<Env>, on: Cond, en: Engine) {
    forall b :: b in bs ==> EvalCond(on, Beside(a, b), en) != True
  }

  ghost predicate LeftRow(e: Env, a: Env, bs: seq<Env>, on: Cond, en: Engine) {
    || (exists b :: b in bs && e == Beside(a, b) && EvalCond(on, e, en) == True)
    || (e == a && Unmatched(a, bs, on, en))
  }

  lemma MatchesOf(a: Env, bs: seq<Env>, on: Cond, en: Engine, e: Env)
    ensures e in Keep(Extend(a, bs), on, en) <==> exists b :: b in bs && e == Beside(a, b) && EvalCond(on, e, en) == True
    ensures Keep(Extend(a, bs), on, en) == [] <==> Unmatched(a, bs, on, en)
  {
    var all := Extend(a, bs);
    var kept := Keep(all, on, en);
    if b :| b in bs && e == Beside(a, b) && EvalCond(on, e, en) == True {
      var i :| 0 <= i < |bs| && bs[i] == b;
      assert all[i] in all;
    }
    if kept != [] {
      assert kept[0] in kept;
      var i :| 0 <= i < |all| && all[i] == kept[0];
      assert bs[i] in bs;
    }
    forall b | b in bs && kept == []
      ensures EvalCond(on, Beside(a, b), en) != True
    {
      var i :| 0 <= i < |bs| && bs[i] == b;
      assert all[i] in all;
    }
  }

  lemma {:induction false} InLeftRows(xs: seq<Env>, bs: seq<Env>, on: Cond, en: Engine, e: Env)
    ensures e in LeftRows(xs, bs, on, en) <==> exists a :: a in xs && LeftRow(e, a, bs, on, en)
  {
    if xs != [] {
      var matches := Keep(Extend(xs[0], bs), on, en);
      var head := if matches == [] then [xs[0]] else matches;
      assert LeftRows(xs, bs, on, en) == head + LeftRows(xs[1..], bs, on, en);
      assert e in head <==> LeftRow(e, xs[0], bs, on, en) by {
        MatchesOf(xs[0], bs, on, en, e);
      }
      InLeftRows(xs[1..], bs, on, en, e);
      assert forall a :: a in xs <==> a == xs[0] || a in xs[1..];
    }
  }

  /** What the rows of a table are, without the wrapping. */
  predicate IsRowOf(db: Tables, r: Ref, row: Row) {
    match r
    case PHOTOS => row.PhotoR? && row.photo in db.photos
    case TAGS => row.TagR? && row.tag in db.tags
    case TagAlias(_) => row.TagR? && row.tag in db.tags
    case FLAGS => row.FlagsR? && row.flags in db.flags
    case SHA256SUMS => row.Sha256R? && row.sha in db.sha256sums
    case GENERAL_FLAGS => row.GeneralFlagR? && row.general in db.generalFlags
    case PEOPLE => row.PeopleR? && row.people in db.people
    case PEOPLE_NAMES => row.PersonNameR? && row.person in db.peopleNames
    case GROUPS => row.GroupR? && row.group in db.groups
    case GROUPS_MEMBERS => row.MemberR? && row.member in db.members
  }

  lemma InWrap<R>(rows: seq<R>, wrap: R -> Row, x: R)
    requires x in rows
    ensures wrap(x) in Wrap(rows, wrap)
  {
    var i :| 0 <= i < |rows| && rows[i] == x;
    assert Wrap(rows, wrap)[i] == wrap(x);
  }

  lemma InRowsOf(db: Tables, r: Ref, row: Row)
    ensures row in RowsOf(db, r) <==> IsRowOf(db, r, row)
  {
    if IsRowOf(db, r, row) {
      match r
      case PHOTOS => InWrap(db.photos, x => PhotoR(x), row.photo);
      case TAGS => InWrap(db.tags, x => TagR(x), row.tag);
      case TagAlias(_) => InWrap(db.tags, x => TagR(x), row.tag);
      case FLAGS => InWrap(db.flags, x => FlagsR(x), row.flags);
      case SHA256SUMS => InWrap(db.sha256sums, x => Sha256R(x), row.sha);
      case GENERAL_FLAGS => InWrap(db.generalFlags, x => GeneralFlagR(x), row.general);
      case PEOPLE => InWrap(db.people, x => PeopleR(x), row.people);
      case PEOPLE_NAMES => InWrap(db.peopleNames, x => PersonNameR(x), row.person);
      case GROUPS => InWrap(db.groups, x => GroupR(x), row.group);
      case GROUPS_MEMBERS => InWrap(db.members, x => MemberR(x), row.member);
    }
  }

  lemma InBase(en: Engine, r: Ref, e: Env)
    ensures e in EvalFrom(Base(r), en) <==> e.Bind? && e.name == r && e.rest == Nothing && IsRowOf(en.db, r, e.row)
  {
    var rows := RowsOf(en.db, r);
    var envs := BaseRows(rows, r);
    assert EvalFrom(Base(r), en) == envs;
    if e in envs {
      var i :| 0 <= i < |envs| && envs[i] == e;
      assert rows[i] in rows;
      InRowsOf(en.db, r, e.row);
    }
    if e.Bind? && e.name == r && e.rest == Nothing && IsRowOf(en.db, r, e.row) {
      InRowsOf(en.db, r, e.row);
      var i :| 0 <= i < |rows| && rows[i] == e.row;
      assert envs[i] == e;
    }
  }

  lemma InPhotos(en: Engine, e: Env)
    ensures e in EvalFrom(Base(PHOTOS), en) <==> exists p :: p in en.db.photos && e == PhotoEnv(p)
  {
    InBase(en, PHOTOS, e);
    if e in EvalFrom(Base(PHOTOS), en) {
      assert e == PhotoEnv(e.row.photo);
    }
  }

  lemma RowOfSelect(q: Query, en: Engine, v: Value) returns (e: Env)
    requires q.Select? && v in EvalQuery(q, en)
    ensures e in EvalFrom(q.from, en) && EvalCond(q.where, e, en) == True && v == EvalExpr(q.what, e)
  {
    var kept := Keep(EvalFrom(q.from, en), q.where, en);
    var i :| 0 <= i < |kept| && EvalQuery(q, en)[i] == v;
    e := kept[i];
    assert e in kept;
  }

  lemma RowIsSelected(q: Query, en: Engine, e: Env)
    requires q.Select? && e in EvalFrom(q.from, en) && EvalCond(q.where, e, en) == True
    ensures EvalExpr(q.what, e) in EvalQuery(q, en)
  {
    var kept := Keep(EvalFrom(q.from, en), q.where, en);
    var i :| 0 <= i < |kept| && kept[i] == e;
    assert EvalQuery(q, en)[i] == EvalExpr(q.what, e);
  }

  lemma InSelect(q: Query, en: Engine, v: Value)
    requires q.Select?
    ensures v in EvalQuery(q, en)
       <==> exists e :: e in EvalFrom(q.from, en) && EvalCond(q.where, e, en) == True && v == EvalExpr(q.what, e)
  {
    if v in EvalQuery(q, en) {
      var e := RowOfSelect(q, en, v);
    }
    forall e | e in EvalFrom(q.from, en) && EvalCond(q.where, e, en) == True && v == EvalExpr(q.what, e)
      ensures v in EvalQuery(q, en)
    {
      RowIsSelected(q, en, e);
    }
  }

  /** A row of photos joined with one more table. */
  ghost predicate JoinedOn(p: PhotoRow, r: Ref, row: Row, on: Cond, en: Engine) {
    && p in en.db.photos
    && IsRowOf(en.db, r, row)
    && EvalCond(on, Joined(p, r, row), en) == True
  }

  lemma JoinedIsPair(en: Engine, p: PhotoRow, r: Ref, row: Row)
    requires p in en.db.photos && IsRowOf(en.db, r, row)
    ensures PhotoEnv(p) in EvalFrom(Base(PHOTOS), en)
    ensures Bind(r, row, Nothing) in EvalFrom(Base(r), en)
    ensures Beside(PhotoEnv(p), Bind(r, row, Nothing)) == Joined(p, r, row)
  {
    InPhotos(en, PhotoEnv(p));
    InBase(en, r, Bind(r, row, Nothing));
  }

  /** A joined row, taken apart. */
  ghost predicate IsJoined(e: Env, r: Ref, on: Cond, en: Engine) {
    && e.Bind? && e.row.PhotoR? && e.rest.Bind?
    && JoinedOn(e.row.photo, r, e.rest.row, on, en)
    && e == Joined(e.row.photo, r, e.rest.row)
  }

  lemma PairShape(en: Engine, r: Ref, a: Env, b: Env)
    requires a in EvalFrom(Base(PHOTOS), en) && b in EvalFrom(Base(r), en)
    ensures a.Bind? && a.row.PhotoR? && a.row.photo in en.db.photos
    ensures b.Bind? && IsRowOf(en.db, r, b.row)
    ensures Beside(a, b) == Joined(a.row.photo, r, b.row)
  {
    InBase(en, PHOTOS, a);
    InBase(en, r, b);
    assert Beside(a.rest, b) == b;
  }

  lemma InJoin(en: Engine, r: Ref, on: Cond, e: Env)
    ensures e in EvalFrom(Join(Base(PHOTOS), Base(r), on), en) <==> IsJoined(e, r, on, en)
  {
    var photos, rows := EvalFrom(Base(PHOTOS), en), EvalFrom(Base(r), en);
    var pairs := Pairs(photos, rows);
    assert e in EvalFrom(Join(Base(PHOTOS), Base(r), on), en) <==> e in pairs && EvalCond(on, e, en) == True;
    assert e in pairs && EvalCond(on, e, en) == True <==> IsJoined(e, r, on, en) by {
      InPairs(photos, rows, e);
      if e in pairs {
        var a, b :| a in photos && b in rows && e == Beside(a, b);
        PairShape(en, r, a, b);
      }
      if IsJoined(e, r, on, en) {
        JoinedIsPair(en, e.row.photo, r, e.rest.row);
      }
    }
  }

  /** The shape of most queries: ids of photos joined with one table, under a condition. */
  lemma JoinRow(en: Engine, r: Ref, on: Cond, p: PhotoRow, row: Row)
    requires JoinedOn(p, r, row, on, en)
    ensures Joined(p, r, row) in EvalFrom(Join(Base(PHOTOS), Base(r), on), en) && EvalExpr(PHOTO_ID, Joined(p, r, row)) == Int(p.id)
  {
    InJoin(en, r, on, Joined(p, r, row));
  }

  lemma InJoinQuery(en: Engine, r: Ref, on: Cond, where: Cond, v: Value)
    requires r != PHOTOS
    ensures v in EvalQuery(Select(PHOTO_ID, Join(Base(PHOTOS), Base(r), on), where), en)
       <==> exists p, row :: JoinedOn(p, r, row, on, en) && EvalCond(where, Joined(p, r, row), en) == True && v == Int(p.id)
  {
    var q := Select(PHOTO_ID, Join(Base(PHOTOS), Base(r), on), where);
    InSelect(q, en, v);
    if v in EvalQuery(q, en) {
      var e :| e in EvalFrom(q.from, en) && EvalCond(where, e, en) == True && v == EvalExpr(PHOTO_ID, e);
      InJoin(en, r, on, e);
      assert v == Int(e.row.photo.id);
    }
    if p, row :| JoinedOn(p, r, row, on, en) && EvalCond(where, Joined(p, r, row), en) == True && v == Int(p.id) {
      JoinRow(en, r, on, p, row);
    }
  }

  ghost predicate NoRowFor(p: PhotoRow, r: Ref, on: Cond, en: Engine) {
    forall row :: IsRowOf(en.db, r, row) ==> EvalCond(on, Joined(p, r, row), en) != True
  }

  lemma UnmatchedPhoto(en: Engine, r: Ref, on: Cond, p: PhotoRow)
    requires p in en.db.photos
    ensures Unmatched(PhotoEnv(p), EvalFrom(Base(r), en), on, en) <==> NoRowFor(p, r, on, en)
  {
    var rows := EvalFrom(Base(r), en);
    if Unmatched(PhotoEnv(p), rows, on, en) {
      forall row | IsRowOf(en.db, r, row)
        ensures EvalCond(on, Joined(p, r, row), en) != True
      {
        JoinedIsPair(en, p, r, row);
      }
    }
    if NoRowFor(p, r, on, en) {
      forall b | b in rows
        ensures EvalCond(on, Beside(PhotoEnv(p), b), en) != True
      {
        InBase(en, r, b);
        assert Beside(PhotoEnv(p), b) == Joined(p, r, b.row);
      }
    }
  }

  ghost predicate IsLeftAlone(e: Env, r: Ref, on: Cond, en: Engine) {
    && e.Bind? && e.row.PhotoR?
    && e.row.photo in en.db.photos
    && e == PhotoEnv(e.row.photo)
    && NoRowFor(e.row.photo, r, on, en)
  }

  lemma InLeftJoin(en: Engine, r: Ref, on: Cond, e: Env)
    ensures e in EvalFrom(LeftJoin(Base(PHOTOS), Base(r), on), en)
       <==> IsJoined(e, r, on, en) || IsLeftAlone(e, r, on, en)
  {
    var photos, rows := EvalFrom(Base(PHOTOS), en), EvalFrom(Base(r), en);
    assert EvalFrom(LeftJoin(Base(PHOTOS), Base(r), on), en) == LeftRows(photos, rows, on, en);
    InLeftRows(photos, rows, on, en, e);
    if a :| a in photos && LeftRow(e, a, rows, on, en) {
      LeftRowShape(en, r, on, e, a);
    }
    if IsJoined(e, r, on, en) {
      JoinedIsPair(en, e.row.photo, r, e.rest.row);
      assert LeftRow(e, PhotoEnv(e.row.photo), rows, on, en);
    }
    if IsLeftAlone(e, r, on, en) {
      InPhotos(en, e);
      UnmatchedPhoto(en, r, on, e.row.photo);
      assert LeftRow(e, e, rows, on, en);
    }
  }

  lemma LeftRowShape(en: Engine, r: Ref, on: Cond, e: Env, a: Env)
    requires a in EvalFrom(Base(PHOTOS), en) && LeftRow(e, a, EvalFrom(Base(r), en), on, en)
    ensures IsJoined(e, r, on, en) || IsLeftAlone(e, r, on, en)
  {
    InBase(en, PHOTOS, a);
    var rows := EvalFrom(Base(r), en);
    UnmatchedPhoto(en, r, on, a.row.photo);
    if b :| b in rows && e == Beside(a, b) && EvalCond(on, e, en) == True {
      PairShape(en, r, a, b);
    }
  }

  ghost predicate JoinedResult(en: Engine, r: Ref, on: Cond, where: Cond, v: Value) {
    exists p, row :: JoinedOn(p, r, row, on, en) && EvalCond(where, Joined(p, r, row), en) == True && v == Int(p.id)
  }

  ghost predicate AloneResult(en: Engine, r: Ref, on: Cond, where: Cond, v: Value) {
    exists p :: p in en.db.photos && NoRowFor(p, r, on, en) && EvalCond(where, PhotoEnv(p), en) == True && v == Int(p.id)
  }

  lemma LeftJoinResult(en: Engine, r: Ref, on: Cond, where: Cond, v: Value, e: Env)
    requires r != PHOTOS && e in EvalFrom(LeftJoin(Base(PHOTOS), Base(r), on), en)
    requires EvalCond(where, e, en) == True && v == EvalExpr(PHOTO_ID, e)
    ensures JoinedResult(en, r, on, where, v) || AloneResult(en, r, on, where, v)
  {
    InLeftJoin(en, r, on, e);
    assert v == Int(e.row.photo.id);
  }

  /** The shape of the queries that keep photos without a matching row. */
  lemma JoinedRow(en: Engine, r: Ref, on: Cond, where: Cond, v: Value) returns (e: Env)
    requires r != PHOTOS && JoinedResult(en, r, on, where, v)
    ensures e in EvalFrom(LeftJoin(Base(PHOTOS), Base(r), on), en) && EvalCond(where, e, en) == True && v == EvalExpr(PHOTO_ID, e)
  {
    var p, row :| JoinedOn(p, r, row, on, en) && EvalCond(where, Joined(p, r, row), en) == True && v == Int(p.id);
    e := Joined(p, r, row);
    InLeftJoin(en, r, on, e);
  }

  lemma AloneRow(en: Engine, r: Ref, on: Cond, where: Cond, v: Value) returns (e: Env)
    requires r != PHOTOS && AloneResult(en, r, on, where, v)
    ensures e in EvalFrom(LeftJoin(Base(PHOTOS), Base(r), on), en) && EvalCond(where, e, en) == True && v == EvalExpr(PHOTO_ID, e)
  {
    var p :| p in en.db.photos && NoRowFor(p, r, on, en) && EvalCond(where, PhotoEnv(p), en) == True && v == Int(p.id);
    e := PhotoEnv(p);
    InLeftJoin(en, r, on, e);
  }

  lemma InLeftJoinQuery(en: Engine, r: Ref, on: Cond, where: Cond, v: Value)
    requires r != PHOTOS
    ensures v in EvalQuery(Select(PHOTO_ID, LeftJoin(Base(PHOTOS), Base(r), on), where), en)
       <==> JoinedResult(en, r, on, where, v) || AloneResult(en, r, on, where, v)
  {
    var q := Select(PHOTO_ID, LeftJoin(Base(PHOTOS), Base(r), on), where);
    InSelect(q, en, v);
    if e :| e in EvalFrom(q.from, en) && EvalCond(where, e, en) == True && v == EvalExpr(PHOTO_ID, e) {
      LeftJoinResult(en, r, on, where, v, e);
    }
    if JoinedResult(en, r, on, where, v) {
      var e := JoinedRow(en, r, on, where, v);
    } else if AloneResult(en, r, on, where, v) {
      var e := AloneRow(en, r, on, where, v);
    }
  }

  /** The shape without a join. */
  lemma InPhotosQuery(en: Engine, where: Cond, v: Value)
    ensures v in EvalQuery(AllPhotos(where), en)
       <==> exists p :: p in en.db.photos && EvalCond(where, PhotoEnv(p), en) == True && v == Int(p.id)
  {
    InSelect(AllPhotos(where), en, v);
    if v in EvalQuery(AllPhotos(where), en) {
      var e :| e in EvalFrom(Base(PHOTOS), en) && EvalCond(where, e, en) == True && v == EvalExpr(PHOTO_ID, e);
      InPhotos(en, e);
    }
    if p :| p in en.db.photos && EvalCond(where, PhotoEnv(p), en) == True && v == Int(p.id) {
      InPhotos(en, PhotoEnv(p));
    }
  }

  // ---------------------------------------------------------------------------
  // One visit at a time
  // ---------------------------------------------------------------------------

  lemma JoinedColumns(p: PhotoRow, r: Ref, row: Row)
    requires r != PHOTOS
    ensures forall c :: EvalExpr(Col(r, c), Joined(p, r, row)) == Get(row, c)
    ensures forall c :: EvalExpr(Col(PHOTOS, c), Joined(p, r, row)) == Get(PhotoR(p), c)
  {
    forall c
      ensures Lookup(Joined(p, r, row), r, c) == Get(row, c)
      ensures Lookup(Joined(p, r, row), PHOTOS, c) == Get(PhotoR(p), c)
    {
      assert Lookup(Bind(r, row, Nothing), r, c) == Get(row, c);
    }
  }

  /** joined.photo_id = photos.id holds exactly on the rows of that photo. */
  lemma OnSamePhoto(p: PhotoRow, r: Ref, row: Row, en: Engine)
    requires r != PHOTOS
    ensures EvalCond(Cmp(Equal, Col(r, PhotoId), PHOTO_ID), Joined(p, r, row), en) == True <==> Get(row, PhotoId) == Int(p.id)
    ensures EvalCond(Cmp(Equal, PHOTO_ID, Col(r, PhotoId)), Joined(p, r, row), en) == True <==> Get(row, PhotoId) == Int(p.id)
  {
    JoinedColumns(p, r, row);
  }

  ghost predicate SomeRow(db: Tables, r: Ref, id: int, f: (Row, int) -> bool) {
    exists row :: IsRowOf(db, r, row) && f(row, id)
  }

  /** A join selects the photos that have a row satisfying sel, when sel is what the conditions say of a row. */
  lemma JoinSelects(en: Engine, r: Ref, on: Cond, where: Cond, sel: (Row, int) -> bool, v: Value)
    requires r != PHOTOS
    requires forall p, row :: p in en.db.photos && IsRowOf(en.db, r, row) ==>
      (sel(row, p.id) <==> EvalCond(on, Joined(p, r, row), en) == True && EvalCond(where, Joined(p, r, row), en) == True)
    ensures v in EvalQuery(Select(PHOTO_ID, Join(Base(PHOTOS), Base(r), on), where), en)
       <==> v.Int? && HasPhoto(en.db, v.i) && SomeRow(en.db, r, v.i, sel)
  {
    InJoinQuery(en, r, on, where, v);
    if v.Int? && HasPhoto(en.db, v.i) {
      if row :| IsRowOf(en.db, r, row) && sel(row, v.i) {
        var p :| p in en.db.photos && p.id == v.i;
        assert JoinedOn(p, r, row, on, en);
      }
    }
  }

  /** The conditions of a left join, said about one row and the id of the photo. */
  ghost predicate LeftJoinMeans(en: Engine, r: Ref, on: Cond, where: Cond, mine: (Row, int) -> bool, sel: (Row, int) -> bool, alone: bool) {
    && (forall p, row :: p in en.db.photos && IsRowOf(en.db, r, row) ==>
          (mine(row, p.id) <==> EvalCond(on, Joined(p, r, row), en) == True))
    && (forall p, row :: p in en.db.photos && IsRowOf(en.db, r, row) ==>
          (sel(row, p.id) <==> mine(row, p.id) && EvalCond(where, Joined(p, r, row), en) == True))
    && (forall p :: p in en.db.photos ==> (alone <==> EvalCond(where, PhotoEnv(p), en) == True))
  }

  lemma JoinedGivesRow(en: Engine, r: Ref, on: Cond, where: Cond, mine: (Row, int) -> bool, sel: (Row, int) -> bool, alone: bool, v: Value)
    requires LeftJoinMeans(en, r, on, where, mine, sel, alone) && JoinedResult(en, r, on, where, v)
    ensures v.Int? && HasPhoto(en.db, v.i) && SomeRow(en.db, r, v.i, sel)
  {
    var p, row :| JoinedOn(p, r, row, on, en) && EvalCond(where, Joined(p, r, row), en) == True && v == Int(p.id);
    assert sel(row, p.id);
  }

  lemma RowGivesJoined(en: Engine, r: Ref, on: Cond, where: Cond, mine: (Row, int) -> bool, sel: (Row, int) -> bool, alone: bool, id: int)
    requires LeftJoinMeans(en, r, on, where, mine, sel, alone) && HasPhoto(en.db, id) && SomeRow(en.db, r, id, sel)
    ensures JoinedResult(en, r, on, where, Int(id))
  {
    var p :| p in en.db.photos && p.id == id;
    var row :| IsRowOf(en.db, r, row) && sel(row, id);
    assert JoinedOn(p, r, row, on, en);
  }

  lemma AloneGivesNoRow(en: Engine, r: Ref, on: Cond, where: Cond, mine: (Row, int) -> bool, sel: (Row, int) -> bool, alone: bool, v: Value)
    requires LeftJoinMeans(en, r, on, where, mine, sel, alone) && AloneResult(en, r, on, where, v)
    ensures v.Int? && HasPhoto(en.db, v.i) && alone && !SomeRow(en.db, r, v.i, mine)
  {
    var p :| p in en.db.photos && NoRowFor(p, r, on, en) && EvalCond(where, PhotoEnv(p), en) == True && v == Int(p.id);
    forall row | IsRowOf(en.db, r, row)
      ensures !mine(row, p.id)
    {
    }
  }

  lemma NoRowGivesAlone(en: Engine, r: Ref, on: Cond, where: Cond, mine: (Row, int) -> bool, sel: (Row, int) -> bool, alone: bool, id: int)
    requires LeftJoinMeans(en, r, on, where, mine, sel, alone) && HasPhoto(en.db, id) && alone && !SomeRow(en.db, r, id, mine)
    ensures AloneResult(en, r, on, where, Int(id))
  {
    var p :| p in en.db.photos && p.id == id;
    forall row | IsRowOf(en.db, r, row)
      ensures EvalCond(on, Joined(p, r, row), en) != True
    {
      assert !mine(row, p.id);
    }
    assert NoRowFor(p, r, on, en);
  }

  /** A left join also selects the photos without a joined row, when the condition accepts NULLs. */
  lemma LeftJoinSelects(en: Engine, r: Ref, on: Cond, where: Cond, mine: (Row, int) -> bool, sel: (Row, int) -> bool, alone: bool, v: Value)
    requires r != PHOTOS && LeftJoinMeans(en, r, on, where, mine, sel, alone)
    ensures v in EvalQuery(Select(PHOTO_ID, LeftJoin(Base(PHOTOS), Base(r), on), where), en)
       <==> v.Int? && HasPhoto(en.db, v.i)
            && (SomeRow(en.db, r, v.i, sel) || (alone && !SomeRow(en.db, r, v.i, mine)))
  {
    InLeftJoinQuery(en, r, on, where, v);
    if JoinedResult(en, r, on, where, v) {
      JoinedGivesRow(en, r, on, where, mine, sel, alone, v);
    } else if AloneResult(en, r, on, where, v) {
      AloneGivesNoRow(en, r, on, where, mine, sel, alone, v);
    } else if v.Int? && HasPhoto(en.db, v.i) {
      if SomeRow(en.db, r, v.i, sel) {
        RowGivesJoined(en, r, on, where, mine, sel, alone, v.i);
      }
      if alone && !SomeRow(en.db, r, v.i, mine) {
        NoRowGivesAlone(en, r, on, where, mine, sel, alone, v.i);
      }
    }
  }

  lemma SomeTagRow(db: Tables, id: int, f: (Row, int) -> bool)
    ensures SomeRow(db, TAGS, id, f) <==> exists r :: r in db.tags && f(TagR(r), id)
  {
    if row :| IsRowOf(db, TAGS, row) && f(row, id) {
      assert row == TagR(row.tag);
    }
    if r :| r in db.tags && f(TagR(r), id) {
      assert IsRowOf(db, TAGS, TagR(r));
    }
  }

  /** What the comparisons of the query language mean on texts and on numbers. */
  lemma HoldsMeans(op: CompareOp, a: string, b: string, x: int, y: int)
    ensures Holds(op, Text(a), Text(b)) <==> TextCompares(op, a, b)
    ensures Holds(op, Int(x), Int(y)) <==> NumberCompares(op, x, y)
    ensures Holds(op, Int(x), Text(b)) <==> op == Less || op == LessOrEqual
  {
  }

  lemma TagNameOnRow(t: TagType, p: PhotoRow, r: TagRow, en: Engine)
    ensures EvalCond(TagName(t), Joined(p, TAGS, TagR(r)), en) == True <==> r.name == TagCode(t)
  {
    JoinedColumns(p, TAGS, TagR(r));
  }

  lemma TagComparesOnRow(t: TagType, v: string, op: CompareOp, p: PhotoRow, r: TagRow, en: Engine)
    ensures var env := Joined(p, TAGS, TagR(r));
            var cond := if t == Rating then Cmp(op, CastInteger(Col(TAGS, ValueColumn)), Lit(NumericLiteral(v)))
                        else Cmp(op, Col(TAGS, ValueColumn), Lit(Text(v)));
            EvalCond(cond, env, en) == True <==> r.value.Some? && TagCompares(t, op, r.value.value, v)
  {
    JoinedColumns(p, TAGS, TagR(r));
    assert EvalExpr(CastInteger(Col(TAGS, ValueColumn)), Joined(p, TAGS, TagR(r))) == Cast(OptText(r.value));
    if r.value.Some? {
      HoldsMeans(op, r.value.value, v, CastToInteger(r.value.value), CastToInteger(v));
    }
  }

  lemma TagValueOnRow(t: TagType, v: string, op: CompareOp, p: PhotoRow, r: TagRow, en: Engine)
    ensures EvalCond(TagCondition(t, Some(v), op, false), Joined(p, TAGS, TagR(r)), en) == True
       <==> r.name == TagCode(t) && r.value.Some? && TagCompares(t, op, r.value.value, v)
  {
    TagNameOnRow(t, p, r, en);
    TagComparesOnRow(t, v, op, p, r, en);
  }

  lemma TagConditionOnRow(t: TagType, value: Option<string>, op: CompareOp, p: PhotoRow, r: TagRow, en: Engine)
    ensures EvalCond(TagName(t), Joined(p, TAGS, TagR(r)), en) == True <==> r.name == TagCode(t)
    ensures EvalCond(TagCondition(t, value, op, false), Joined(p, TAGS, TagR(r)), en) == True
       <==> r.name == TagCode(t) && (value.Some? ==> r.value.Some? && TagCompares(t, op, r.value.value, value.value))
  {
    TagNameOnRow(t, p, r, en);
    if value.Some? {
      TagValueOnRow(t, value.value, op, p, r, en);
    }
  }

  predicate PlainTagRow(row: Row, id: int, t: TagType, value: Option<string>, op: CompareOp) {
    && row.TagR? && IsTagOf(row.tag, id, t)
    && (value.Some? ==> row.tag.value.Some? && TagCompares(t, op, row.tag.value.value, value.value))
  }

  lemma VisitTagCorrect(t: TagType, value: Option<string>, op: CompareOp, en: Engine, v: Value)
    ensures v in EvalQuery(VisitTag(t, value, op, false), en)
       <==> v.Int? && HasPhoto(en.db, v.i) && (if value.None? then HasTag(en.db, v.i, t) else HasTagValue(en.db, v.i, t, op, value.value))
  {
    var on, where := Cmp(Equal, Col(TAGS, PhotoId), PHOTO_ID), TagCondition(t, value, op, false);
    var sel := (row: Row, id: int) => PlainTagRow(row, id, t, value, op);
    forall p, row | p in en.db.photos && IsRowOf(en.db, TAGS, row)
      ensures sel(row, p.id) <==> EvalCond(on, Joined(p, TAGS, row), en) == True && EvalCond(where, Joined(p, TAGS, row), en) == True
    {
      OnSamePhoto(p, TAGS, row, en);
      TagConditionOnRow(t, value, op, p, row.tag, en);
    }
    JoinSelects(en, TAGS, on, where, sel, v);
    if v.Int? {
      PlainMeaning(en.db, v.i, t, value, op, sel);
    }
  }

  lemma PlainMeaning(db: Tables, id: int, t: TagType, value: Option<string>, op: CompareOp, sel: (Row, int) -> bool)
    requires forall row, i :: sel(row, i) == PlainTagRow(row, i, t, value, op)
    ensures SomeRow(db, TAGS, id, sel) <==> (if value.None? then HasTag(db, id, t) else HasTagValue(db, id, t, op, value.value))
  {
    SomeTagRow(db, id, sel);
  }

  lemma AloneColumns(p: PhotoRow, r: Ref)
    requires r != PHOTOS
    ensures forall c :: EvalExpr(Col(r, c), PhotoEnv(p)) == Null
  {
    forall c
      ensures Lookup(PhotoEnv(p), r, c) == Null
    {
      assert Lookup(Nothing, r, c) == Null;
    }
  }

  predicate OwnTagRow(row: Row, id: int, t: TagType) {
    row.TagR? && IsTagOf(row.tag, id, t)
  }

  predicate EmptyableRow(row: Row, id: int, t: TagType, value: Option<string>, op: CompareOp) {
    OwnTagRow(row, id, t) && (value.Some? ==> TextCompares(op, row.tag.value.GetOr(""), value.value))
  }

  predicate EmptyAccepted(value: Option<string>, op: CompareOp) {
    value.Some? && TextCompares(op, "", value.value)
  }

  lemma OwnOnRow(t: TagType, p: PhotoRow, row: Row, en: Engine)
    requires row.TagR?
    ensures EvalCond(And(Cmp(Equal, Col(TAGS, PhotoId), PHOTO_ID), TagName(t)), Joined(p, TAGS, row), en) == True <==> OwnTagRow(row, p.id, t)
  {
    OnSamePhoto(p, TAGS, row, en);
    TagConditionOnRow(t, None, Equal, p, row.tag, en);
  }

  lemma EmptyableOnRow(t: TagType, value: Option<string>, op: CompareOp, p: PhotoRow, row: Row, en: Engine)
    requires row.TagR?
    ensures EmptyableRow(row, p.id, t, value, op)
       <==> OwnTagRow(row, p.id, t) && EvalCond(TagCondition(t, value, op, true), Joined(p, TAGS, row), en) == True
  {
    if value.None? {
      TagConditionOnRow(t, None, Equal, p, row.tag, en);
    } else {
      JoinedColumns(p, TAGS, row);
    }
  }

  lemma EmptyableAlone(t: TagType, value: Option<string>, op: CompareOp, p: PhotoRow, en: Engine)
    ensures EvalCond(TagCondition(t, value, op, true), PhotoEnv(p), en) == True <==> EmptyAccepted(value, op)
  {
    AloneColumns(p, TAGS);
  }

  /** The conditions of the left join with tags, said on rows. */
  lemma EmptyableMeans(t: TagType, value: Option<string>, op: CompareOp, en: Engine, mine: (Row, int) -> bool, sel: (Row, int) -> bool)
    requires forall row, i :: mine(row, i) == OwnTagRow(row, i, t)
    requires forall row, i :: sel(row, i) == EmptyableRow(row, i, t, value, op)
    ensures LeftJoinMeans(en, TAGS, And(Cmp(Equal, Col(TAGS, PhotoId), PHOTO_ID), TagName(t)), TagCondition(t, value, op, true),
                          mine, sel, EmptyAccepted(value, op))
  {
    var on := And(Cmp(Equal, Col(TAGS, PhotoId), PHOTO_ID), TagName(t));
    var where := TagCondition(t, value, op, true);
    forall p, row | p in en.db.photos && IsRowOf(en.db, TAGS, row)
      ensures mine(row, p.id) <==> EvalCond(on, Joined(p, TAGS, row), en) == True
      ensures sel(row, p.id) <==> mine(row, p.id) && EvalCond(where, Joined(p, TAGS, row), en) == True
    {
      OwnOnRow(t, p, row, en);
      EmptyableOnRow(t, value, op, p, row, en);
    }
    forall p | p in en.db.photos
      ensures EmptyAccepted(value, op) <==> EvalCond(where, PhotoEnv(p), en) == True
    {
      EmptyableAlone(t, value, op, p, en);
    }
  }

  lemma VisitTagWithEmpty(t: TagType, value: Option<string>, op: CompareOp, en: Engine, v: Value)
    ensures v in EvalQuery(VisitTag(t, value, op, true), en)
       <==> v.Int? && HasPhoto(en.db, v.i) && (if value.None? then HasTag(en.db, v.i, t) else TagOrEmptyCompares(en.db, v.i, t, op, value.value))
  {
    var on := And(Cmp(Equal, Col(TAGS, PhotoId), PHOTO_ID), TagName(t));
    var where := TagCondition(t, value, op, true);
    var mine := (row: Row, id: int) => OwnTagRow(row, id, t);
    var sel := (row: Row, id: int) => EmptyableRow(row, id, t, value, op);
    var alone := EmptyAccepted(value, op);
    EmptyableMeans(t, value, op, en, mine, sel);
    LeftJoinSelects(en, TAGS, on, where, mine, sel, alone, v);
    if v.Int? {
      EmptyableMeaning(en.db, v.i, t, value, op, mine, sel);
    }
  }

  lemma EmptyableMeaning(db: Tables, id: int, t: TagType, value: Option<string>, op: CompareOp, mine: (Row, int) -> bool, sel: (Row, int) -> bool)
    requires forall row, i :: mine(row, i) == OwnTagRow(row, i, t)
    requires forall row, i :: sel(row, i) == EmptyableRow(row, i, t, value, op)
    ensures SomeRow(db, TAGS, id, sel) || (EmptyAccepted(value, op) && !SomeRow(db, TAGS, id, mine))
       <==> (if value.None? then HasTag(db, id, t) else TagOrEmptyCompares(db, id, t, op, value.value))
  {
    SomeTagRow(db, id, mine);
    SomeTagRow(db, id, sel);
    assert HasTag(db, id, t) <==> SomeRow(db, TAGS, id, mine);
  }

  // Flags

  lemma {:induction false} ConjunctionTrue(conds: seq<Cond>, env: Env, en: Engine)
    ensures EvalCond(Conjunction(conds), env, en) == True <==> forall c :: c in conds ==> EvalCond(c, env, en) == True
  {
    if |conds| == 1 {
      assert conds[0] in conds;
    } else if conds != [] {
      var rest := Conjunction(conds[1..]);
      assert Conjunction(conds) == And(conds[0], rest);
      assert EvalCond(And(conds[0], rest), env, en) == And3(EvalCond(conds[0], env, en), EvalCond(rest, env, en));
      ConjunctionTrue(conds[1..], env, en);
      assert conds == [conds[0]] + conds[1..];
    }
  }

  ghost predicate SomeTrue(conds: seq<Cond>, env: Env, en: Engine) {
    exists c :: c in conds && EvalCond(c, env, en) == True
  }

  lemma SomeTrueCons(conds: seq<Cond>, env: Env, en: Engine)
    requires conds != []
    ensures SomeTrue(conds, env, en) <==> EvalCond(conds[0], env, en) == True || SomeTrue(conds[1..], env, en)
  {
    assert conds == [conds[0]] + conds[1..];
    assert conds[0] in conds;
    if c :| c in conds[1..] && EvalCond(c, env, en) == True {
      assert c in conds;
    }
    if c :| c in conds && EvalCond(c, env, en) == True {
      assert c == conds[0] || c in conds[1..];
    }
  }

  lemma {:induction false} DisjunctionTrue(conds: seq<Cond>, env: Env, en: Engine)
    requires conds != []
    ensures EvalCond(Disjunction(conds), env, en) == True <==> SomeTrue(conds, env, en)
  {
    SomeTrueCons(conds, env, en);
    if |conds| > 1 {
      var rest := Disjunction(conds[1..]);
      assert Disjunction(conds) == Or(conds[0], rest);
      assert EvalCond(Or(conds[0], rest), env, en) == Or3(EvalCond(conds[0], env, en), EvalCond(rest, env, en));
      DisjunctionTrue(conds[1..], env, en);
    }
  }

  lemma {:induction false} InFlagConds(flags: Flags, order: seq<Flag>, c: Cond)
    ensures c in FlagConds(flags, order) <==> exists f :: f in order && f in flags && c == FlagCond(f, flags[f])
  {
    if order != [] {
      InFlagConds(flags, order[1..], c);
      assert forall f :: f in order <==> f == order[0] || f in order[1..];
    }
  }

  lemma AllFlagsOrdered()
    ensures forall f: Flag :: f in FLAG_ORDER
  {
    forall f: Flag
      ensures f in FLAG_ORDER
    {
      match f
      case StagingArea => assert FLAG_ORDER[0] == f;
      case ExifLoaded => assert FLAG_ORDER[1] == f;
      case Sha256Loaded => assert FLAG_ORDER[2] == f;
      case ThumbnailLoaded => assert FLAG_ORDER[3] == f;
      case GeometryLoaded => assert FLAG_ORDER[4] == f;
    }
  }

  function FlagsCondition(flags: Flags, mode: FlagsMode): Cond {
    var conds := FlagConds(flags, FLAG_ORDER);
    if mode == AllFlags then Conjunction(conds) else Disjunction(conds)
  }

  lemma FlagOnRow(f: Flag, value: int, p: PhotoRow, row: Row, en: Engine)
    requires row.FlagsR?
    ensures EvalCond(FlagCond(f, value), Joined(p, FLAGS, row), en) == True <==> FlagColumn(row.flags, f) == value
  {
    JoinedColumns(p, FLAGS, row);
  }

  lemma FlagsOnRow(flags: Flags, mode: FlagsMode, p: PhotoRow, row: Row, en: Engine)
    requires flags != map[] && row.FlagsR?
    ensures EvalCond(FlagsCondition(flags, mode), Joined(p, FLAGS, row), en) == True <==> FlagsMatch(row.flags, flags, mode)
  {
    var conds, env := FlagConds(flags, FLAG_ORDER), Joined(p, FLAGS, row);
    AllFlagsOrdered();
    forall f | f in flags
      ensures FlagCond(f, flags[f]) in conds
      ensures EvalCond(FlagCond(f, flags[f]), env, en) == True <==> FlagColumn(row.flags, f) == flags[f]
    {
      InFlagConds(flags, FLAG_ORDER, FlagCond(f, flags[f]));
      FlagOnRow(f, flags[f], p, row, en);
    }
    forall c | c in conds
      ensures exists f :: f in flags && c == FlagCond(f, flags[f])
    {
      InFlagConds(flags, FLAG_ORDER, c);
    }
    ConjunctionTrue(conds, env, en);
    var some :| some in flags;
    DisjunctionTrue(conds, env, en);
  }

  ghost predicate FlagsRowMatches(row: Row, id: int, flags: Flags, mode: FlagsMode) {
    row.FlagsR? && row.flags.photoId == id && FlagsMatch(row.flags, flags, mode)
  }

  lemma VisitFlagsCorrect(flags: Flags, mode: FlagsMode, en: Engine, v: Value)
    requires flags != map[]
    ensures v in EvalQuery(VisitFlags(flags, mode), en)
       <==> v.Int? && HasPhoto(en.db, v.i) && exists r :: r in en.db.flags && r.photoId == v.i && FlagsMatch(r, flags, mode)
  {
    var on, where := Cmp(Equal, Col(FLAGS, PhotoId), PHOTO_ID), FlagsCondition(flags, mode);
    var sel := (row: Row, id: int) => FlagsRowMatches(row, id, flags, mode);
    forall p, row | p in en.db.photos && IsRowOf(en.db, FLAGS, row)
      ensures sel(row, p.id) <==> EvalCond(on, Joined(p, FLAGS, row), en) == True && EvalCond(where, Joined(p, FLAGS, row), en) == True
    {
      OnSamePhoto(p, FLAGS, row, en);
      FlagsOnRow(flags, mode, p, row, en);
    }
    JoinSelects(en, FLAGS, on, where, sel, v);
    if v.Int? {
      SomeFlagsRow(en.db, v.i, flags, mode, sel);
    }
  }

  lemma SomeFlagsRow(db: Tables, id: int, flags: Flags, mode: FlagsMode, sel: (Row, int) -> bool)
    requires forall row, i :: sel(row, i) == FlagsRowMatches(row, i, flags, mode)
    ensures SomeRow(db, FLAGS, id, sel) <==> exists r :: r in db.flags && r.photoId == id && FlagsMatch(r, flags, mode)
  {
    if row :| IsRowOf(db, FLAGS, row) && sel(row, id) {
      assert row.flags in db.flags && FlagsMatch(row.flags, flags, mode);
    }
    if r :| r in db.flags && r.photoId == id && FlagsMatch(r, flags, mode) {
      assert IsRowOf(db, FLAGS, FlagsR(r)) && sel(FlagsR(r), id);
    }
  }

  // Checksum, person, general flag

  lemma Sha256OnRow(sha: string, p: PhotoRow, row: Row, en: Engine)
    requires row.Sha256R?
    ensures EvalCond(Cmp(Equal, Col(SHA256SUMS, PhotoId), PHOTO_ID), Joined(p, SHA256SUMS, row), en) == True <==> row.sha.photoId == p.id
    ensures EvalCond(Cmp(Equal, Col(SHA256SUMS, Sha256), Lit(Text(sha))), Joined(p, SHA256SUMS, row), en) == True <==> row.sha.sha256 == sha
  {
    OnSamePhoto(p, SHA256SUMS, row, en);
    JoinedColumns(p, SHA256SUMS, row);
  }

  predicate Sha256RowIs(row: Row, id: int, sha: string) {
    row.Sha256R? && row.sha.photoId == id && row.sha.sha256 == sha
  }

  lemma SomeSha256Row(db: Tables, id: int, sha: string)
    ensures (exists row :: IsRowOf(db, SHA256SUMS, row) && Sha256RowIs(row, id, sha)) <==>
            exists r :: r in db.sha256sums && r.photoId == id && r.sha256 == sha
  {
    if row :| IsRowOf(db, SHA256SUMS, row) && Sha256RowIs(row, id, sha) {
      assert row.sha in db.sha256sums;
    }
    if r :| r in db.sha256sums && r.photoId == id && r.sha256 == sha {
      assert IsRowOf(db, SHA256SUMS, Sha256R(r)) && Sha256RowIs(Sha256R(r), id, sha);
    }
  }

  lemma VisitSha256Correct(sha: string, en: Engine, v: Value)
    ensures v in EvalQuery(Generate(WithSha256(sha)), en)
       <==> v.Int? && HasPhoto(en.db, v.i) && exists r :: r in en.db.sha256sums && r.photoId == v.i && r.sha256 == sha
  {
    var on, where := Cmp(Equal, Col(SHA256SUMS, PhotoId), PHOTO_ID), Cmp(Equal, Col(SHA256SUMS, Sha256), Lit(Text(sha)));
    var sel := (row: Row, id: int) => Sha256RowIs(row, id, sha);
    forall p, row | p in en.db.photos && IsRowOf(en.db, SHA256SUMS, row)
      ensures sel(row, p.id) <==> EvalCond(on, Joined(p, SHA256SUMS, row), en) == True && EvalCond(where, Joined(p, SHA256SUMS, row), en) == True
    {
      Sha256OnRow(sha, p, row, en);
    }
    JoinSelects(en, SHA256SUMS, on, where, sel, v);
    if v.Int? {
      SomeSha256Row(en.db, v.i, sha);
    }
  }

  lemma PersonOnRow(person: int, p: PhotoRow, row: Row, en: Engine)
    requires row.PeopleR?
    ensures EvalCond(Cmp(Equal, Col(PEOPLE, PhotoId), PHOTO_ID), Joined(p, PEOPLE, row), en) == True <==> row.people.photoId == p.id
    ensures EvalCond(Cmp(Equal, Col(PEOPLE, PersonId), Lit(Int(person))), Joined(p, PEOPLE, row), en) == True <==> row.people.personId == Some(person)
  {
    OnSamePhoto(p, PEOPLE, row, en);
    JoinedColumns(p, PEOPLE, row);
  }

  predicate PersonRowIs(row: Row, id: int, person: int) {
    row.PeopleR? && row.people.photoId == id && row.people.personId == Some(person)
  }

  lemma SomePersonRow(db: Tables, id: int, person: int)
    ensures (exists row :: IsRowOf(db, PEOPLE, row) && PersonRowIs(row, id, person)) <==>
            exists r :: r in db.people && r.photoId == id && r.personId == Some(person)
  {
    if row :| IsRowOf(db, PEOPLE, row) && PersonRowIs(row, id, person) {
      assert row.people in db.people;
    }
    if r :| r in db.people && r.photoId == id && r.personId == Some(person) {
      assert IsRowOf(db, PEOPLE, PeopleR(r)) && PersonRowIs(PeopleR(r), id, person);
    }
  }

  lemma VisitPersonCorrect(person: int, en: Engine, v: Value)
    ensures v in EvalQuery(Generate(WithPerson(person)), en)
       <==> v.Int? && HasPhoto(en.db, v.i) && exists r :: r in en.db.people && r.photoId == v.i && r.personId == Some(person)
  {
    var on, where := Cmp(Equal, Col(PEOPLE, PhotoId), PHOTO_ID), Cmp(Equal, Col(PEOPLE, PersonId), Lit(Int(person)));
    var sel := (row: Row, id: int) => PersonRowIs(row, id, person);
    forall p, row | p in en.db.photos && IsRowOf(en.db, PEOPLE, row)
      ensures sel(row, p.id) <==> EvalCond(on, Joined(p, PEOPLE, row), en) == True && EvalCond(where, Joined(p, PEOPLE, row), en) == True
    {
      PersonOnRow(person, p, row, en);
    }
    JoinSelects(en, PEOPLE, on, where, sel, v);
    if v.Int? {
      SomePersonRow(en.db, v.i, person);
    }
  }

  predicate OwnFlagRow(row: Row, id: int, name: string) {
    row.GeneralFlagR? && IsGeneralFlagOf(row.general, id, name)
  }

  predicate EqualFlagRow(row: Row, id: int, name: string, value: int) {
    OwnFlagRow(row, id, name) && row.general.value.GetOr(0) == value
  }

  function GeneralFlagOn(name: string): Cond {
    And(Cmp(Equal, Col(GENERAL_FLAGS, PhotoId), PHOTO_ID), Cmp(Equal, Col(GENERAL_FLAGS, Name), Lit(Text(name))))
  }

  function GeneralFlagWhere(value: int): Cond {
    Cmp(Equal, Coalesce(Col(GENERAL_FLAGS, ValueColumn), Int(0)), Lit(Int(value)))
  }

  lemma GeneralFlagOnRow(name: string, value: int, p: PhotoRow, row: Row, en: Engine)
    requires row.GeneralFlagR?
    ensures EvalCond(GeneralFlagOn(name), Joined(p, GENERAL_FLAGS, row), en) == True <==> OwnFlagRow(row, p.id, name)
    ensures EqualFlagRow(row, p.id, name, value)
       <==> OwnFlagRow(row, p.id, name) && EvalCond(GeneralFlagWhere(value), Joined(p, GENERAL_FLAGS, row), en) == True
    ensures EvalCond(GeneralFlagWhere(value), PhotoEnv(p), en) == True <==> value == 0
  {
    OnSamePhoto(p, GENERAL_FLAGS, row, en);
    JoinedColumns(p, GENERAL_FLAGS, row);
    AloneColumns(p, GENERAL_FLAGS);
    assert EvalExpr(Coalesce(Col(GENERAL_FLAGS, ValueColumn), Int(0)), Joined(p, GENERAL_FLAGS, row)) == Int(row.general.value.GetOr(0));
  }

  lemma VisitGeneralFlagCorrect(name: string, value: int, en: Engine, v: Value)
    ensures v in EvalQuery(VisitGeneralFlag(name, value), en)
       <==> v.Int? && HasPhoto(en.db, v.i) && GeneralFlagIs(en.db, v.i, name, value)
  {
    var on, where := GeneralFlagOn(name), GeneralFlagWhere(value);
    var mine := (row: Row, id: int) => OwnFlagRow(row, id, name);
    var sel := (row: Row, id: int) => EqualFlagRow(row, id, name, value);
    forall p, row | p in en.db.photos && IsRowOf(en.db, GENERAL_FLAGS, row)
      ensures mine(row, p.id) <==> EvalCond(on, Joined(p, GENERAL_FLAGS, row), en) == True
      ensures sel(row, p.id) <==> mine(row, p.id) && EvalCond(where, Joined(p, GENERAL_FLAGS, row), en) == True
    {
      GeneralFlagOnRow(name, value, p, row, en);
    }
    forall p | p in en.db.photos
      ensures value == 0 <==> EvalCond(where, PhotoEnv(p), en) == True
    {
      GeneralFlagOnRow(name, value, p, GeneralFlagR(GeneralFlagRow(0, "", None)), en);
    }
    LeftJoinSelects(en, GENERAL_FLAGS, on, where, mine, sel, value == 0, v);
    if v.Int? {
      GeneralFlagMeaning(en.db, v.i, name, value, mine, sel);
    }
  }

  lemma GeneralFlagMeaning(db: Tables, id: int, name: string, value: int, mine: (Row, int) -> bool, sel: (Row, int) -> bool)
    requires forall row, i :: mine(row, i) == OwnFlagRow(row, i, name)
    requires forall row, i :: sel(row, i) == EqualFlagRow(row, i, name, value)
    ensures SomeRow(db, GENERAL_FLAGS, id, sel) || (value == 0 && !SomeRow(db, GENERAL_FLAGS, id, mine)) <==> GeneralFlagIs(db, id, name, value)
  {
    forall r | r in db.generalFlags
      ensures IsRowOf(db, GENERAL_FLAGS, GeneralFlagR(r))
      ensures mine(GeneralFlagR(r), id) == IsGeneralFlagOf(r, id, name)
    {
    }
    if row :| IsRowOf(db, GENERAL_FLAGS, row) && sel(row, id) {
      assert row.general in db.generalFlags;
    }
    if row :| IsRowOf(db, GENERAL_FLAGS, row) && mine(row, id) {
      assert row.general in db.generalFlags;
    }
    if r :| r in db.generalFlags && IsGeneralFlagOf(r, id, name) && r.value.GetOr(0) == value {
      assert sel(GeneralFlagR(r), id);
    }
  }

  // Identity, path, role

  lemma VisitIdCorrect(id: int, en: Engine, v: Value)
    ensures v in EvalQuery(Generate(WithId(id)), en) <==> v.Int? && HasPhoto(en.db, v.i) && v.i == id
  {
    InPhotosQuery(en, Cmp(Equal, PHOTO_ID, Lit(Int(id))), v);
  }

  lemma VisitPathCorrect(path: string, en: Engine, v: Value)
    ensures v in EvalQuery(Generate(WithPath(path)), en)
       <==> v.Int? && HasPhoto(en.db, v.i) && exists p :: p in en.db.photos && p.id == v.i && p.path == path
  {
    var where := Cmp(Equal, Col(PHOTOS, Path), Lit(Text(path)));
    InPhotosQuery(en, where, v);
    forall p: PhotoRow
      ensures EvalCond(where, PhotoEnv(p), en) == True <==> p.path == path
    {
    }
  }

  /** SELECT column FROM table */
  lemma ColumnRow(en: Engine, r: Ref, c: Column, row: Row)
    requires IsRowOf(en.db, r, row)
    ensures var e := Bind(r, row, Nothing); e in EvalFrom(Base(r), en) && EvalExpr(Col(r, c), e) == Get(row, c)
  {
    InBase(en, r, Bind(r, row, Nothing));
  }

  lemma ColumnOfRow(en: Engine, r: Ref, c: Column, v: Value) returns (row: Row)
    requires v in EvalQuery(Select(Col(r, c), Base(r), Always), en)
    ensures IsRowOf(en.db, r, row) && v == Get(row, c)
  {
    InSelect(Select(Col(r, c), Base(r), Always), en, v);
    var e :| e in EvalFrom(Base(r), en) && v == EvalExpr(Col(r, c), e);
    InBase(en, r, e);
    row := e.row;
  }

  lemma InColumnQuery(en: Engine, r: Ref, c: Column, v: Value)
    ensures v in EvalQuery(Select(Col(r, c), Base(r), Always), en) <==> exists row :: IsRowOf(en.db, r, row) && v == Get(row, c)
  {
    InSelect(Select(Col(r, c), Base(r), Always), en, v);
    if v in EvalQuery(Select(Col(r, c), Base(r), Always), en) {
      var row := ColumnOfRow(en, r, c, v);
    } else if row :| IsRowOf(en.db, r, row) && v == Get(row, c) {
      ColumnRow(en, r, c, row);
    }
  }

  lemma RepresentativesQuery(en: Engine, v: Value)
    ensures v in EvalQuery(REPRESENTATIVES, en) <==> v.Int? && IsRepresentative(en.db, v.i)
  {
    InColumnQuery(en, GROUPS, RepresentativeId, v);
    if row :| IsRowOf(en.db, GROUPS, row) && v == Get(row, RepresentativeId) {
      assert row.group in en.db.groups;
    }
    if v.Int? && IsRepresentative(en.db, v.i) {
      var g :| g in en.db.groups && g.representativeId == v.i;
      assert IsRowOf(en.db, GROUPS, GroupR(g)) && v == Get(GroupR(g), RepresentativeId);
    }
  }

  lemma GroupMembersQuery(en: Engine, v: Value)
    ensures v in EvalQuery(GROUP_MEMBERS, en) <==> v.Int? && IsMember(en.db, v.i)
  {
    InColumnQuery(en, GROUPS_MEMBERS, PhotoId, v);
    if row :| IsRowOf(en.db, GROUPS_MEMBERS, row) && v == Get(row, PhotoId) {
      assert row.member in en.db.members;
    }
    if v.Int? && IsMember(en.db, v.i) {
      var m :| m in en.db.members && m.photoId == v.i;
      assert IsRowOf(en.db, GROUPS_MEMBERS, MemberR(m)) && v == Get(MemberR(m), PhotoId);
    }
  }

  /** photos.id NOT IN (rows): a plain complement, because the rows hold no NULL. */
  lemma ComplementOf(q: Query, en: Engine, v: Value)
    requires Null !in EvalQuery(q, en)
    ensures v in EvalQuery(AllPhotos(NotIn(PHOTO_ID, q)), en) <==> v.Int? && HasPhoto(en.db, v.i) && v !in EvalQuery(q, en)
  {
    InPhotosQuery(en, NotIn(PHOTO_ID, q), v);
    forall p: PhotoRow
      ensures EvalCond(NotIn(PHOTO_ID, q), PhotoEnv(p), en) == True <==> Int(p.id) !in EvalQuery(q, en)
    {
      assert EvalExpr(PHOTO_ID, PhotoEnv(p)) == Int(p.id);
    }
  }

  lemma VisitRoleCorrect(role: RoleFilter, en: Engine, v: Value)
    requires GroupKeysIntact(en.db)
    ensures v in EvalQuery(VisitRole(role), en) <==> v.Int? && HasPhoto(en.db, v.i) && HasRole(en.db, v.i, role)
  {
    RepresentativesQuery(en, v);
    GroupMembersQuery(en, v);
    if role == Regular {
      RepresentativesQuery(en, Null);
      GroupMembersQuery(en, Null);
      ComplementOf(Union(GROUP_MEMBERS, REPRESENTATIVES), en, v);
    }
  }

  // Search expressions

  lemma {:induction false} InTermConds(e: Expr, terms: seq<SearchTerm>, c: Cond)
    ensures c in TermConds(e, terms) <==> exists t :: t in terms && c == TermCond(e, t)
  {
    if terms != [] {
      InTermConds(e, terms[1..], c);
      assert forall t :: t in terms <==> t == terms[0] || t in terms[1..];
    }
  }

  lemma TermOnText(e: Expr, t: SearchTerm, text: Option<string>, env: Env, en: Engine)
    requires EvalExpr(e, env) == OptText(text)
    ensures EvalCond(TermCond(e, t), env, en) == True <==> text.Some? && TermMatches(t, text.value, en.like)
  {
  }

  /** The OR of the term conditions on a text expression. */
  lemma TermsOnText(e: Expr, terms: seq<SearchTerm>, text: Option<string>, env: Env, en: Engine)
    requires terms != [] && EvalExpr(e, env) == OptText(text)
    ensures EvalCond(Disjunction(TermConds(e, terms)), env, en) == True <==> SomeTermMatches(terms, text, en.like)
  {
    var conds := TermConds(e, terms);
    forall t | t in terms
      ensures TermCond(e, t) in conds
      ensures EvalCond(TermCond(e, t), env, en) == True <==> text.Some? && TermMatches(t, text.value, en.like)
    {
      InTermConds(e, terms, TermCond(e, t));
      TermOnText(e, t, text, env, en);
    }
    forall c | c in conds
      ensures exists t :: t in terms && c == TermCond(e, t)
    {
      InTermConds(e, terms, c);
    }
    DisjunctionTrue(conds, env, en);
  }

  function TagsQuery(terms: seq<SearchTerm>): Query {
    Select(PHOTO_ID, Join(Base(PHOTOS), Base(TAGS), Cmp(Equal, PHOTO_ID, Col(TAGS, PhotoId))),
           Disjunction(TermConds(Col(TAGS, ValueColumn), terms)))
  }

  ghost predicate TagTextRow(row: Row, id: int, terms: seq<SearchTerm>, like: (string, string) -> bool) {
    row.TagR? && row.tag.photoId == id && SomeTermMatches(terms, row.tag.value, like)
  }

  lemma TagsQueryCorrect(terms: seq<SearchTerm>, en: Engine, v: Value)
    requires terms != []
    ensures v in EvalQuery(TagsQuery(terms), en) <==> v.Int? && HasPhoto(en.db, v.i) && TagTextMatches(en, v.i, terms)
  {
    var on, where := Cmp(Equal, PHOTO_ID, Col(TAGS, PhotoId)), Disjunction(TermConds(Col(TAGS, ValueColumn), terms));
    var sel := (row: Row, id: int) => TagTextRow(row, id, terms, en.like);
    forall p, row | p in en.db.photos && IsRowOf(en.db, TAGS, row)
      ensures sel(row, p.id) <==> EvalCond(on, Joined(p, TAGS, row), en) == True && EvalCond(where, Joined(p, TAGS, row), en) == True
    {
      OnSamePhoto(p, TAGS, row, en);
      JoinedColumns(p, TAGS, row);
      TermsOnText(Col(TAGS, ValueColumn), terms, row.tag.value, Joined(p, TAGS, row), en);
    }
    JoinSelects(en, TAGS, on, where, sel, v);
    if v.Int? {
      SomeTagRow(en.db, v.i, sel);
      assert forall r :: sel(TagR(r), v.i) <==> r.photoId == v.i && SomeTermMatches(terms, r.value, en.like);
    }
  }

  function PersonEnv(p: PhotoRow, r: PeopleRow, n: PersonNameRow): Env {
    Bind(PHOTOS, PhotoR(p), Bind(PEOPLE, PeopleR(r), Bind(PEOPLE_NAMES, PersonNameR(n), Nothing)))
  }

  ghost predicate IsPersonEnv(e: Env, en: Engine) {
    && e.Bind? && e.row.PhotoR? && e.rest.Bind? && e.rest.row.PeopleR? && e.rest.rest.Bind? && e.rest.rest.row.PersonNameR?
    && e == PersonEnv(e.row.photo, e.rest.row.people, e.rest.rest.row.person)
    && e.row.photo in en.db.photos && e.rest.row.people in en.db.people && e.rest.rest.row.person in en.db.peopleNames
  }

  lemma InPeopleCross(en: Engine, e: Env)
    ensures e in EvalFrom(Cross(Base(PEOPLE), Base(PEOPLE_NAMES)), en)
       <==> e.Bind? && e.row.PeopleR? && e.row.people in en.db.people && e.name == PEOPLE
            && e.rest.Bind? && e.rest.row.PersonNameR? && e.rest.row.person in en.db.peopleNames
            && e.rest == Bind(PEOPLE_NAMES, e.rest.row, Nothing)
  {
    var people, names := EvalFrom(Base(PEOPLE), en), EvalFrom(Base(PEOPLE_NAMES), en);
    InPairs(people, names, e);
    if a, b :| a in people && b in names && e == Beside(a, b) {
      InBase(en, PEOPLE, a);
      InBase(en, PEOPLE_NAMES, b);
      assert Beside(a.rest, b) == b;
    }
    if e.Bind? && e.row.PeopleR? && e.row.people in en.db.people && e.name == PEOPLE
       && e.rest.Bind? && e.rest.row.PersonNameR? && e.rest.row.person in en.db.peopleNames
       && e.rest == Bind(PEOPLE_NAMES, e.rest.row, Nothing) {
      var a := Bind(PEOPLE, e.row, Nothing);
      InBase(en, PEOPLE, a);
      InBase(en, PEOPLE_NAMES, e.rest);
      assert Beside(a, e.rest) == e;
    }
  }

  lemma PersonPairShape(en: Engine, a: Env, b: Env)
    requires a in EvalFrom(Base(PHOTOS), en) && b in EvalFrom(Cross(Base(PEOPLE), Base(PEOPLE_NAMES)), en)
    ensures IsPersonEnv(Beside(a, b), en)
  {
    InBase(en, PHOTOS, a);
    InPeopleCross(en, b);
    assert Beside(a.rest, b) == b;
  }

  lemma PersonEnvIsPair(en: Engine, e: Env)
    requires IsPersonEnv(e, en)
    ensures e in Pairs(EvalFrom(Base(PHOTOS), en), EvalFrom(Cross(Base(PEOPLE), Base(PEOPLE_NAMES)), en))
  {
    var a := PhotoEnv(e.row.photo);
    InPhotos(en, a);
    InPeopleCross(en, e.rest);
    assert Beside(a.rest, e.rest) == e.rest;
    assert Beside(a, e.rest) == e;
    InPairs(EvalFrom(Base(PHOTOS), en), EvalFrom(Cross(Base(PEOPLE), Base(PEOPLE_NAMES)), en), e);
  }

  lemma InPeopleJoin(en: Engine, e: Env)
    ensures e in EvalFrom(Join(Base(PHOTOS), Cross(Base(PEOPLE), Base(PEOPLE_NAMES)), PEOPLE_ON), en)
       <==> IsPersonEnv(e, en) && EvalCond(PEOPLE_ON, e, en) == True
  {
    var photos, cross := EvalFrom(Base(PHOTOS), en), EvalFrom(Cross(Base(PEOPLE), Base(PEOPLE_NAMES)), en);
    var pairs := Pairs(photos, cross);
    assert e in EvalFrom(Join(Base(PHOTOS), Cross(Base(PEOPLE), Base(PEOPLE_NAMES)), PEOPLE_ON), en)
      <==> e in pairs && EvalCond(PEOPLE_ON, e, en) == True;
    assert e in pairs <==> IsPersonEnv(e, en) by {
      InPairs(photos, cross, e);
      if a, b :| a in photos && b in cross && e == Beside(a, b) {
        PersonPairShape(en, a, b);
      }
      if IsPersonEnv(e, en) {
        PersonEnvIsPair(en, e);
      }
    }
  }

  lemma PersonColumns(p: PhotoRow, r: PeopleRow, n: PersonNameRow, en: Engine)
    ensures EvalExpr(PHOTO_ID, PersonEnv(p, r, n)) == Int(p.id)
    ensures EvalExpr(Col(PEOPLE_NAMES, Name), PersonEnv(p, r, n)) == OptText(n.name)
    ensures EvalCond(PEOPLE_ON, PersonEnv(p, r, n), en) == True <==> r.photoId == p.id && r.personId == Some(n.id)
  {
    var e := PersonEnv(p, r, n);
    assert forall c :: Lookup(e, PHOTOS, c) == Get(PhotoR(p), c);
    forall c
      ensures Lookup(e, PEOPLE, c) == Get(PeopleR(r), c)
      ensures Lookup(e, PEOPLE_NAMES, c) == Get(PersonNameR(n), c)
    {
      assert Lookup(e.rest, PEOPLE, c) == Get(PeopleR(r), c);
      assert Lookup(e.rest.rest, PEOPLE_NAMES, c) == Get(PersonNameR(n), c);
      assert Lookup(e.rest, PEOPLE_NAMES, c) == Get(PersonNameR(n), c);
    }
    assert EvalExpr(Col(PEOPLE, PhotoId), e) == Int(r.photoId);
    assert EvalExpr(Col(PEOPLE, PersonId), e) == OptInt(r.personId);
    assert EvalExpr(Col(PEOPLE_NAMES, Id), e) == Int(n.id);
  }

  function PeopleQuery(terms: seq<SearchTerm>): Query {
    Select(PHOTO_ID, Join(Base(PHOTOS), Cross(Base(PEOPLE), Base(PEOPLE_NAMES)), PEOPLE_ON),
           Disjunction(TermConds(Col(PEOPLE_NAMES, Name), terms)))
  }

  lemma PeopleQueryCorrect(terms: seq<SearchTerm>, en: Engine, v: Value)
    requires terms != []
    ensures v in EvalQuery(PeopleQuery(terms), en) <==> v.Int? && HasPhoto(en.db, v.i) && PersonNameMatches(en, v.i, terms)
  {
    var q := PeopleQuery(terms);
    InSelect(q, en, v);
    if v in EvalQuery(q, en) {
      var e :| e in EvalFrom(q.from, en) && EvalCond(q.where, e, en) == True && v == EvalExpr(q.what, e);
      InPeopleJoin(en, e);
      var p, r, n := e.row.photo, e.rest.row.people, e.rest.rest.row.person;
      PersonColumns(p, r, n, en);
      TermsOnText(Col(PEOPLE_NAMES, Name), terms, n.name, e, en);
    }
    if v.Int? && HasPhoto(en.db, v.i) && PersonNameMatches(en, v.i, terms) {
      var p :| p in en.db.photos && p.id == v.i;
      var r, n :| r in en.db.people && n in en.db.peopleNames && r.photoId == v.i
                  && r.personId == Some(n.id) && SomeTermMatches(terms, n.name, en.like);
      var e := PersonEnv(p, r, n);
      PersonColumns(p, r, n, en);
      TermsOnText(Col(PEOPLE_NAMES, Name), terms, n.name, e, en);
      InPeopleJoin(en, e);
    }
  }

  /** photos.id IN (rows): exactly the stored ids among the rows. */
  lemma InEither(a: Query, b: Query, p: PhotoRow, en: Engine)
    ensures EvalCond(Or(In(PHOTO_ID, a), In(PHOTO_ID, b)), PhotoEnv(p), en) == True
       <==> Int(p.id) in EvalQuery(a, en) || Int(p.id) in EvalQuery(b, en)
  {
    assert EvalExpr(PHOTO_ID, PhotoEnv(p)) == Int(p.id);
  }

  lemma VisitExpressionCorrect(terms: seq<SearchTerm>, en: Engine, v: Value)
    requires terms != []
    ensures v in EvalQuery(VisitExpression(terms), en)
       <==> v.Int? && HasPhoto(en.db, v.i) && (TagTextMatches(en, v.i, terms) || PersonNameMatches(en, v.i, terms))
  {
    var inTags, inPeople := In(PHOTO_ID, TagsQuery(terms)), In(PHOTO_ID, PeopleQuery(terms));
    assert VisitExpression(terms) == AllPhotos(Or(inTags, inPeople));
    InPhotosQuery(en, Or(inTags, inPeople), v);
    forall p: PhotoRow
      ensures EvalCond(Or(inTags, inPeople), PhotoEnv(p), en) == True
         <==> Int(p.id) in EvalQuery(TagsQuery(terms), en) || Int(p.id) in EvalQuery(PeopleQuery(terms), en)
    {
      InEither(TagsQuery(terms), PeopleQuery(terms), p, en);
    }
    TagsQueryCorrect(terms, en, v);
    PeopleQueryCorrect(terms, en, v);
  }

  // Groups

  lemma {:induction false} InMemberConds(queries: seq<Query>, c: Cond)
    ensures c in MemberConds(queries) <==> exists q :: q in queries && c == In(PHOTO_ID, q)
  {
    if queries != [] {
      InMemberConds(queries[1..], c);
      assert forall q :: q in queries <==> q == queries[0] || q in queries[1..];
    }
  }

  lemma MembersOnPhoto(queries: seq<Query>, p: PhotoRow, en: Engine)
    ensures EvalCond(Conjunction(MemberConds(queries)), PhotoEnv(p), en) == True
       <==> forall q :: q in queries ==> Int(p.id) in EvalQuery(q, en)
  {
    var conds, env := MemberConds(queries), PhotoEnv(p);
    assert EvalExpr(PHOTO_ID, env) == Int(p.id);
    ConjunctionTrue(conds, env, en);
    forall q | q in queries
      ensures In(PHOTO_ID, q) in conds
      ensures EvalCond(In(PHOTO_ID, q), env, en) == True <==> Int(p.id) in EvalQuery(q, en)
    {
      InMemberConds(queries, In(PHOTO_ID, q));
    }
    forall c | c in conds
      ensures exists q :: q in queries && c == In(PHOTO_ID, q)
    {
      InMemberConds(queries, c);
    }
  }

  /** A group of queries over stored photos selects their intersection. */
  lemma VisitGroupCorrect(queries: seq<Query>, en: Engine, v: Value)
    requires |queries| == 1 && v in EvalQuery(queries[0], en) ==> v.Int? && HasPhoto(en.db, v.i)
    ensures v in EvalQuery(VisitGroup(queries), en)
       <==> v.Int? && HasPhoto(en.db, v.i) && forall q :: q in queries ==> v in EvalQuery(q, en)
  {
    if queries == [] {
      InPhotosQuery(en, Always, v);
    } else if |queries| == 1 {
      assert queries[0] in queries;
    } else {
      var where := Conjunction(MemberConds(queries));
      InPhotosQuery(en, where, v);
      forall p: PhotoRow
        ensures EvalCond(where, PhotoEnv(p), en) == True <==> forall q :: q in queries ==> Int(p.id) in EvalQuery(q, en)
      {
        MembersOnPhoto(queries, p, en);
      }
    }
  }

  // ---------------------------------------------------------------------------
  // The compiler is correct
  // ---------------------------------------------------------------------------

  /** Main result: the query of any well-formed filter yields exactly the stored photos the filter selects. */
  lemma {:induction false} GenerateCorrect(f: Filter, en: Engine, v: Value)
    requires WellFormed(f) && GroupKeysIntact(en.db)
    ensures v in EvalQuery(Generate(f), en) <==> v.Int? && HasPhoto(en.db, v.i) && Selects(f, en, v.i)
    decreases f
  {
    match f
    case EmptyFilter => InPhotosQuery(en, Always, v);
    case GroupFilter(fs) => GroupCorrect(fs, en, v);
    case NotMatching(g) =>
      GenerateCorrect(g, en, Null);
      GenerateCorrect(g, en, v);
      ComplementOf(Generate(g), en, v);
    case WithTag(t, value, op, includeEmpty) =>
      VisitTagCorrect(t, value, op, en, v);
      VisitTagWithEmpty(t, value, op, en, v);
    case WithFlags(flags, mode) => VisitFlagsCorrect(flags, mode, en, v);
    case WithSha256(sha) => VisitSha256Correct(sha, en, v);
    case WithId(id) => VisitIdCorrect(id, en, v);
    case MatchingExpression(terms) => VisitExpressionCorrect(terms, en, v);
    case WithPath(path) => VisitPathCorrect(path, en, v);
    case WithRole(role) => VisitRoleCorrect(role, en, v);
    case WithPerson(person) => VisitPersonCorrect(person, en, v);
    case WithGeneralFlag(name, value) => VisitGeneralFlagCorrect(name, value, en, v);
  }

  lemma {:induction false} GroupCorrect(fs: seq<Filter>, en: Engine, v: Value)
    requires (forall g :: g in fs ==> WellFormed(g)) && GroupKeysIntact(en.db)
    ensures v in EvalQuery(VisitGroup(GenerateAll(fs)), en)
       <==> v.Int? && HasPhoto(en.db, v.i) && forall g :: g in fs ==> Selects(g, en, v.i)
    decreases fs
  {
    var queries := GenerateAll(fs);
    forall i | 0 <= i < |fs|
      ensures v in EvalQuery(queries[i], en) <==> v.Int? && HasPhoto(en.db, v.i) && Selects(fs[i], en, v.i)
    {
      assert fs[i] in fs;
      GenerateCorrect(fs[i], en, v);
    }
    VisitGroupCorrect(queries, en, v);
    if v.Int? && HasPhoto(en.db, v.i) {
      if forall q :: q in queries ==> v in EvalQuery(q, en) {
        forall g | g in fs
          ensures Selects(g, en, v.i)
        {
          var i :| 0 <= i < |fs| && fs[i] == g;
          assert queries[i] in queries;
        }
      }
      if forall g :: g in fs ==> Selects(g, en, v.i) {
        forall q | q in queries
          ensures v in EvalQuery(q, en)
        {
          var i :| 0 <= i < |queries| && queries[i] == q;
          assert fs[i] in fs;
        }
      }
    }
  }
}
