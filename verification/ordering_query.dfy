/** The ordering statement of the SQL backend: when the server accepts it, and what it then returns. */
module OrderingQuery {
  import opened Common
  import opened Photos
  import opened Tables
  import opened Sql
  import opened Sorting
  import opened FilterCompiler
  import opened PhotoOrdering
  import FilterCorrectness
  import SqlBackend

  // ---------------------------------------------------------------------------
  // The statement
  // ---------------------------------------------------------------------------

  datatype OrderTerm = OrderTerm(column: Expr, ascending: bool)

  /** SELECT photos.id FROM .. WHERE .. ORDER BY .. */
  datatype OrderedQuery = OrderedQuery(from: From, where: Cond, orderBy: seq<OrderTerm>)

  function TermOf(k: Key): OrderTerm {
    match k
    case ByTag(t, asc) => OrderTerm(Col(TagAlias(t), ValueColumn), asc)
    case ById => OrderTerm(PHOTO_ID, true)
  }

  function Terms(keys: seq<Key>): (terms: seq<OrderTerm>)
    ensures |terms| == |keys|
    ensures forall i :: 0 <= i < |keys| ==> terms[i] == TermOf(keys[i])
  {
    seq(|keys|, i requires 0 <= i < |keys| => TermOf(keys[i]))
  }

  function Compiled(f: Filter, action: Action): OrderedQuery {
    OrderedQuery(JoinChain(TagsOf(SqlKeys(action))), In(PHOTO_ID, Generate(f)), Terms(SqlKeys(action)))
  }

  /** The joins and the list are collected in one context and put into one statement. */
  method CompileOnPhotos(f: Filter, action: Action) returns (q: OrderedQuery)
    ensures q == Compiled(f, action)
  {
    var context := new SortingContext();
    context.ProcessAction(action);
    assert context.joins == TagsOf(SqlKeys(action)) && context.sortOrder == SqlKeys(action);
    q := OrderedQuery(JoinChain(context.joins), In(PHOTO_ID, Generate(f)), Terms(context.sortOrder));
  }

  /** The names a FROM clause introduces. */
  function NamesOf(f: From): seq<Ref> {
    match f
    case Base(r) => [r]
    case Cross(a, b) => NamesOf(a) + NamesOf(b)
    case Join(a, b, _) => NamesOf(a) + NamesOf(b)
    case LeftJoin(a, b, _) => NamesOf(a) + NamesOf(b)
  }

  /** ORDER BY needs at least one term, and no name may be introduced twice. */
  ghost predicate Accepted(q: OrderedQuery) {
    q.orderBy != [] && Distinct(NamesOf(q.from))
  }

  lemma {:induction false} NamesOfChain(joins: seq<TagType>)
    ensures var names := NamesOf(JoinChain(joins));
            |names| == |joins| + 1 && names[0] == PHOTOS && forall i :: 0 <= i < |joins| ==> names[i + 1] == TagAlias(joins[i])
    decreases |joins|
  {
    if joins != [] {
      NamesOfChain(PhotoOrdering.Init(joins));
    }
  }

  lemma AcceptedExactly(f: Filter, action: Action)
    ensures Accepted(Compiled(f, action)) <==> SqlKeys(action) != [] && Distinct(TagsOf(SqlKeys(action)))
  {
    var joins := TagsOf(SqlKeys(action));
    var names := NamesOf(JoinChain(joins));
    NamesOfChain(joins);
    if Distinct(names) {
      forall i, j | 0 <= i < j < |joins|
        ensures joins[i] != joins[j]
      {
        assert names[i + 1] != names[j + 1];
      }
    }
    if Distinct(joins) {
      forall i, j | 0 <= i < j < |names|
        ensures names[i] != names[j]
      {
        assert names[j] == TagAlias(joins[j - 1]);
        assert i > 0 ==> names[i] == TagAlias(joins[i - 1]);
      }
    }
  }

  // ---------------------------------------------------------------------------
  // What it returns
  // ---------------------------------------------------------------------------

  /** NULL sorts before everything. */
  predicate SortsBefore(a: Value, b: Value) {
    (a.Null? && !b.Null?) || ValueLess(a, b)
  }

  predicate TermLess(term: OrderTerm, a: Env, b: Env) {
    var x, y := EvalExpr(term.column, a), EvalExpr(term.column, b);
    if term.ascending then SortsBefore(x, y) else SortsBefore(y, x)
  }

  predicate RowLess(terms: seq<OrderTerm>, a: Env, b: Env) {
    terms != [] && (TermLess(terms[0], a, b) || (!TermLess(terms[0], b, a) && RowLess(terms[1..], a, b)))
  }

  /** Rows in an order that the list allows; ties may come in any order. */
  ghost predicate Ordered(terms: seq<OrderTerm>, rows: seq<Env>) {
    forall i, j :: 0 <= i < j < |rows| ==> !RowLess(terms, rows[j], rows[i])
  }

  ghost predicate FetchedFrom(q: OrderedQuery, en: Engine, rows: seq<Env>, ids: seq<int>) {
    && multiset(rows) == multiset(Keep(EvalFrom(q.from, en), q.where, en))
    && Ordered(q.orderBy, rows)
    && |ids| == |rows| && forall i :: 0 <= i < |ids| ==> EvalExpr(PHOTO_ID, rows[i]) == Int(ids[i])
  }

  /** A rejected statement is not noticed: fetching then finds no rows. */
  ghost predicate Returns(q: OrderedQuery, en: Engine, ids: seq<int>) {
    if Accepted(q) then exists rows :: FetchedFrom(q, en, rows, ids) else ids == []
  }

  // ---------------------------------------------------------------------------
  // Columns of the joined rows are the tags of the records
  // ---------------------------------------------------------------------------

  lemma TypeOfCodeExactly(code: int, t: TagType)
    ensures SqlBackend.TypeOfCode(code) == Some(t) <==> code == TagCode(t)
  {
  }

  /** If all rows of a tag say the same, that is what is read. */
  lemma {:induction false} ReadsWhatRowsSay(rows: seq<TagRow>, t: TagType, value: Option<string>)
    requires forall x :: x in rows && x.name == TagCode(t) ==> x.value == value
    ensures TagIn(SqlBackend.ReadTags(rows), t) == if exists x :: x in rows && x.name == TagCode(t) then value else None
    decreases |rows|
  {
    if rows != [] {
      var n := |rows| - 1;
      ReadsWhatRowsSay(rows[..n], t, value);
      TypeOfCodeExactly(rows[n].name, t);
      assert forall x :: x in rows <==> x in rows[..n] || x == rows[n] by {
        assert rows == rows[..n] + [rows[n]];
      }
    }
  }

  lemma SameTagSameRow(tags: seq<TagRow>, x: TagRow, y: TagRow)
    requires OneRowPerTag(tags) && x in tags && y in tags && x.photoId == y.photoId && x.name == y.name
    ensures x == y
  {
  }

  /** Any row of the tag is the one that is found. */
  lemma FoundRow(tags: seq<TagRow>, id: int, t: TagType, r: TagRow)
    requires OneRowPerTag(tags) && r in tags && IsTagOf(r, id, t)
    ensures FindTag(tags, id, t) == Some(r)
  {
    SameTagSameRow(tags, r, FindTag(tags, id, t).value);
  }

  /** The row a join finds holds what is read as the tag of the photo. */
  lemma FoundTagIsRead(db: Tables, id: int, t: TagType)
    requires OneRowPerTag(db.tags)
    ensures TagIn(SqlBackend.GetPhoto(db, id).tags, t) == match FindTag(db.tags, id, t) case None => None case Some(r) => r.value
  {
    var rows, found := TagsOfPhoto(db.tags, id), FindTag(db.tags, id, t);
    var value := if found.Some? then found.value.value else None;
    forall x | x in rows && x.name == TagCode(t)
      ensures x.value == value
    {
      assert IsTagOf(x, id, t);
      SameTagSameRow(db.tags, x, found.value);
    }
    ReadsWhatRowsSay(rows, t, value);
  }

  /** What a term reads on the row of a photo. */
  lemma TermColumn(db: Tables, p: PhotoRow, joins: seq<TagType>, k: Key)
    requires OneRowPerTag(db.tags) && Distinct(joins) && (k.ByTag? ==> k.tag in joins)
    ensures EvalExpr(TermOf(k).column, ChainEnv(db.tags, p, joins))
         == match k case ByTag(t, _) => OptText(TagIn(SqlBackend.GetPhoto(db, p.id).tags, t)) case ById => Int(p.id)
  {
    match k
    case ByTag(t, _) =>
      ChainColumn(db.tags, p, joins, t);
      FoundTagIsRead(db, p.id, t);
    case ById => ChainBindings(db.tags, p, joins);
  }

  lemma TermMeansKey(db: Tables, p: PhotoRow, q: PhotoRow, joins: seq<TagType>, k: Key)
    requires OneRowPerTag(db.tags) && Distinct(joins) && (k.ByTag? ==> k.tag in joins)
    ensures TermLess(TermOf(k), ChainEnv(db.tags, p, joins), ChainEnv(db.tags, q, joins))
       <==> SqlKeyLess(k, SqlBackend.GetPhoto(db, p.id), SqlBackend.GetPhoto(db, q.id))
  {
    TermColumn(db, p, joins, k);
    TermColumn(db, q, joins, k);
  }

  /** Ordering the joined rows by their columns is ordering the photos' records by the keys. */
  lemma {:induction false} RowsMeanRecords(db: Tables, p: PhotoRow, q: PhotoRow, joins: seq<TagType>, keys: seq<Key>)
    requires OneRowPerTag(db.tags) && Distinct(joins) && forall t :: t in TagsOf(keys) ==> t in joins
    ensures RowLess(Terms(keys), ChainEnv(db.tags, p, joins), ChainEnv(db.tags, q, joins))
       <==> SqlLexLess(keys, SqlBackend.GetPhoto(db, p.id), SqlBackend.GetPhoto(db, q.id))
    decreases |keys|
  {
    if keys != [] {
      assert Terms(keys)[1..] == Terms(keys[1..]);
      TermMeansKey(db, p, q, joins, keys[0]);
      TermMeansKey(db, q, p, joins, keys[0]);
      RowsMeanRecords(db, p, q, joins, keys[1..]);
    }
  }

  // ---------------------------------------------------------------------------
  // Lists with the same elements
  // ---------------------------------------------------------------------------

  function Map<A, B>(f: A -> B, s: seq<A>): (r: seq<B>)
    ensures |r| == |s| && forall i :: 0 <= i < |s| ==> r[i] == f(s[i])
  {
    seq(|s|, i requires 0 <= i < |s| => f(s[i]))
  }

  lemma MapTakeOne<A, B>(f: A -> B, s: seq<A>, j: nat)
    requires j < |s|
    ensures multiset(Map(f, s)) == multiset(Map(f, Without(s, j))) + multiset{f(s[j])}
  {
    TakenOut(Map(f, s), j);
    assert Without(Map(f, s), j) == Map(f, Without(s, j));
  }

  lemma TailPermuted<A>(x: seq<A>, y: seq<A>)
    requires x != [] && y != [] && x[0] == y[0] && multiset(x) == multiset(y)
    ensures multiset(x[1..]) == multiset(y[1..])
  {
    HeadAndTail(x);
    HeadAndTail(y);
  }

  lemma {:induction false} MapPermuted<A, B>(f: A -> B, a: seq<A>, b: seq<A>)
    requires multiset(a) == multiset(b)
    ensures multiset(Map(f, a)) == multiset(Map(f, b))
    decreases |a|
  {
    if a == [] {
      assert |multiset(b)| == 0;
    } else {
      assert a[0] in multiset(b);
      var j :| 0 <= j < |b| && b[j] == a[0];
      TakenOut(a, 0);
      TakenOut(b, j);
      MapPermuted(f, Without(a, 0), Without(b, j));
      MapTakeOne(f, a, 0);
      MapTakeOne(f, b, j);
    }
  }

  // ---------------------------------------------------------------------------
  // The selected photos, each once, in order
  // ---------------------------------------------------------------------------

  function IdOfRow(row: PhotoRow): int { row.id }

  function IdOfEnv(e: Env): int {
    match Lookup(e, PHOTOS, Id)
    case Int(i) => i
    case _ => 0
  }

  /** The photos the filter's query yields, in table order. */
  function Selection(en: Engine, f: Filter): seq<PhotoRow> {
    SelectedRows(en.db.photos, EvalQuery(Generate(f), en))
  }

  lemma {:induction false} InSelectedRows(photos: seq<PhotoRow>, rows: seq<Value>, p: PhotoRow)
    ensures p in SelectedRows(photos, rows) <==> p in photos && Int(p.id) in rows
  {
    if photos != [] {
      InSelectedRows(photos[1..], rows, p);
    }
  }

  /** They are the stored photos the filter means. */
  lemma SelectionMeans(en: Engine, f: Filter, p: PhotoRow)
    requires WellFormed(f) && GroupKeysIntact(en.db)
    ensures p in Selection(en, f) <==> p in en.db.photos && Selects(f, en, p.id)
  {
    InSelectedRows(en.db.photos, EvalQuery(Generate(f), en), p);
    FilterCorrectness.GenerateCorrect(f, en, Int(p.id));
  }

  lemma {:induction false} SelectedUnique(photos: seq<PhotoRow>, rows: seq<Value>)
    requires UniquePhotos(photos)
    ensures UniquePhotos(SelectedRows(photos, rows))
  {
    if photos != [] {
      SelectedUnique(photos[1..], rows);
      var rest := SelectedRows(photos[1..], rows);
      forall i | 0 <= i < |rest|
        ensures rest[i].id != photos[0].id
      {
        InSelectedRows(photos[1..], rows, rest[i]);
        var j :| 0 <= j < |photos[1..]| && photos[1..][j] == rest[i];
        assert photos[j + 1] == rest[i];
      }
    }
  }

  /** The rows the statement has to order: one for each selected photo. */
  lemma RowsToOrder(en: Engine, f: Filter, action: Action)
    requires Orderable(action) && OneRowPerTag(en.db.tags)
    ensures Keep(EvalFrom(Compiled(f, action).from, en), Compiled(f, action).where, en)
         == ChainEnvs(en.db.tags, Selection(en, f), TagsOf(SqlKeys(action)))
  {
    var joins := TagsOf(SqlKeys(action));
    JoinsKeepPhotos(en, joins);
    KeepSelected(en, Generate(f), en.db.photos, joins);
  }

  lemma IdsOfChain(tags: seq<TagRow>, photos: seq<PhotoRow>, joins: seq<TagType>)
    ensures Map(IdOfEnv, ChainEnvs(tags, photos, joins)) == Map(IdOfRow, photos)
  {
    forall i | 0 <= i < |photos|
      ensures IdOfEnv(ChainEnv(tags, photos[i], joins)) == photos[i].id
    {
      ChainBindings(tags, photos[i], joins);
    }
  }

  /** Each selected photo once, in an order the keys allow. */
  ghost predicate InKeyOrder(db: Tables, keys: seq<Key>, ids: seq<int>) {
    forall i, j :: 0 <= i < j < |ids| ==> !SqlLexLess(keys, SqlBackend.GetPhoto(db, ids[j]), SqlBackend.GetPhoto(db, ids[i]))
  }

  ghost predicate OrderedSelection(en: Engine, f: Filter, action: Action, ids: seq<int>) {
    multiset(ids) == multiset(Map(IdOfRow, Selection(en, f))) && InKeyOrder(en.db, SqlKeys(action), ids)
  }

  lemma RowOfPhoto(tags: seq<TagRow>, photos: seq<PhotoRow>, joins: seq<TagType>, rows: seq<Env>, i: nat) returns (p: PhotoRow)
    requires i < |rows| && multiset(rows) == multiset(ChainEnvs(tags, photos, joins))
    ensures p in photos && rows[i] == ChainEnv(tags, p, joins) && EvalExpr(PHOTO_ID, rows[i]) == Int(p.id)
  {
    var envs := ChainEnvs(tags, photos, joins);
    assert rows[i] in multiset(rows);
    assert rows[i] in envs;
    var k :| 0 <= k < |envs| && envs[k] == rows[i];
    p := photos[k];
    ChainBindings(tags, p, joins);
  }

  lemma FetchedIsOrdered(en: Engine, f: Filter, action: Action, rows: seq<Env>, ids: seq<int>)
    requires OneRowPerTag(en.db.tags) && Orderable(action) && FetchedFrom(Compiled(f, action), en, rows, ids)
    ensures OrderedSelection(en, f, action, ids)
  {
    var tags, photos, keys := en.db.tags, Selection(en, f), SqlKeys(action);
    var joins := TagsOf(keys);
    RowsToOrder(en, f, action);
    MapPermuted(IdOfEnv, rows, ChainEnvs(tags, photos, joins));
    IdsOfChain(tags, photos, joins);
    assert Map(IdOfEnv, rows) == ids;
    forall i, j | 0 <= i < j < |ids|
      ensures !SqlLexLess(keys, SqlBackend.GetPhoto(en.db, ids[j]), SqlBackend.GetPhoto(en.db, ids[i]))
    {
      var p := RowOfPhoto(tags, photos, joins, rows, i);
      var q := RowOfPhoto(tags, photos, joins, rows, j);
      RowsMeanRecords(en.db, q, p, joins, keys);
    }
  }

  /** The joined row of a photo, found by its id. */
  function RowFor(db: Tables, joins: seq<TagType>, id: int): Env {
    ChainEnv(db.tags, PhotoRow(id, SqlBackend.ReadPath(db, id)), joins)
  }

  lemma {:induction false} ReadPathOf(photos: seq<PhotoRow>, p: PhotoRow)
    requires UniquePhotos(photos) && p in photos
    ensures FirstOf(photos, SqlBackend.PhotoIdOf, p.id) == Some(p)
  {
    if photos[0] != p {
      var i :| 0 <= i < |photos| && photos[i] == p;
      assert photos[1..][i - 1] == p;
      ReadPathOf(photos[1..], p);
    }
  }

  lemma RowsForSelection(en: Engine, f: Filter, joins: seq<TagType>)
    requires UniquePhotos(en.db.photos)
    ensures Map(id => RowFor(en.db, joins, id), Map(IdOfRow, Selection(en, f))) == ChainEnvs(en.db.tags, Selection(en, f), joins)
  {
    var photos := Selection(en, f);
    forall i | 0 <= i < |photos|
      ensures RowFor(en.db, joins, photos[i].id) == ChainEnv(en.db.tags, photos[i], joins)
    {
      InSelectedRows(en.db.photos, EvalQuery(Generate(f), en), photos[i]);
      ReadPathOf(en.db.photos, photos[i]);
    }
  }

  lemma OrderedIsFetched(en: Engine, f: Filter, action: Action, ids: seq<int>)
    requires OneRowPerTag(en.db.tags) && UniquePhotos(en.db.photos) && Orderable(action) && OrderedSelection(en, f, action, ids)
    ensures exists rows :: FetchedFrom(Compiled(f, action), en, rows, ids)
  {
    var keys := SqlKeys(action);
    var joins := TagsOf(keys);
    var rowFor := id => RowFor(en.db, joins, id);
    var rows := Map(rowFor, ids);
    RowsToOrder(en, f, action);
    MapPermuted(rowFor, ids, Map(IdOfRow, Selection(en, f)));
    RowsForSelection(en, f, joins);
    forall i, j | 0 <= i < j < |rows|
      ensures !RowLess(Terms(keys), rows[j], rows[i])
    {
      RowsMeanRecords(en.db, PhotoRow(ids[j], SqlBackend.ReadPath(en.db, ids[j])),
                      PhotoRow(ids[i], SqlBackend.ReadPath(en.db, ids[i])), joins, keys);
    }
    forall i | 0 <= i < |ids|
      ensures EvalExpr(PHOTO_ID, rows[i]) == Int(ids[i])
    {
      ChainBindings(en.db.tags, PhotoRow(ids[i], SqlBackend.ReadPath(en.db, ids[i])), joins);
    }
    assert FetchedFrom(Compiled(f, action), en, rows, ids);
  }

  /** Main result on the statement: with something to order by and no tag joined twice it returns each selected photo
      once, in any order the keys allow; otherwise it returns nothing. */
  lemma ReturnsExactly(en: Engine, f: Filter, action: Action, ids: seq<int>)
    requires OneRowPerTag(en.db.tags) && UniquePhotos(en.db.photos)
    ensures Returns(Compiled(f, action), en, ids) <==> if Orderable(action) then OrderedSelection(en, f, action, ids) else ids == []
  {
    AcceptedExactly(f, action);
    if Orderable(action) {
      if rows :| FetchedFrom(Compiled(f, action), en, rows, ids) {
        FetchedIsOrdered(en, f, action, rows, ids);
      }
      if OrderedSelection(en, f, action, ids) {
        OrderedIsFetched(en, f, action, ids);
      }
    }
  }

  // ---------------------------------------------------------------------------
  // Both backends
  // ---------------------------------------------------------------------------

  function IdOfData(d: Data): int { d.id.GetOr(-1) }

  /** The memory backend holds the selected photos, in some order, with the tags that are stored in the tables. */
  ghost predicate MemoryHolds(en: Engine, f: Filter, input: seq<Data>) {
    && multiset(Map(IdOfData, input)) == multiset(Map(IdOfRow, Selection(en, f)))
    && forall d :: d in input ==> d.id.Some? && d.tags == SqlBackend.GetPhoto(en.db, d.id.value).tags
  }

  ghost predicate AllAlike(input: seq<Data>) {
    forall a, b :: a in input && b in input ==> ComparesAlike(a, b)
  }

  lemma {:induction false} TagsAndIdDecide(keys: seq<Key>, a: Data, b: Data, x: Data, y: Data)
    requires a.id == x.id && a.tags == x.tags && b.id == y.id && b.tags == y.tags
    ensures SqlLexLess(keys, a, b) <==> SqlLexLess(keys, x, y)
  {
    if keys != [] {
      TagsAndIdDecide(keys[1..], a, b, x, y);
    }
  }

  /** What the stable sorts return is one of the results the statement may return. */
  lemma MemoryOrderSatisfiesSql(en: Engine, f: Filter, action: Action, input: seq<Data>, output: seq<Data>)
    requires MemoryHolds(en, f, input) && AllAlike(input) && SortedBy(Keys(action), input, output)
    ensures OrderedSelection(en, f, action, Map(IdOfData, output))
  {
    var ids := Map(IdOfData, output);
    MapPermuted(IdOfData, output, input);
    forall i, j | 0 <= i < j < |ids|
      ensures !SqlLexLess(SqlKeys(action), SqlBackend.GetPhoto(en.db, ids[j]), SqlBackend.GetPhoto(en.db, ids[i]))
    {
      var a, b := output[i], output[j];
      assert a in input && b in input && Before(Keys(action), input, a, b);
      if LexLess(Keys(action), a, b) {
        LexLessAsymmetric(Keys(action), a, b);
      }
      ActionsAgree(action, b, a);
      TagsAndIdDecide(SqlKeys(action), b, a, SqlBackend.GetPhoto(en.db, ids[j]), SqlBackend.GetPhoto(en.db, ids[i]));
    }
  }

  /** Main result on both backends: the list from memory is one the SQL backend may return exactly when the action gives
      something to order by and joins no tag twice, or there is nothing to return. */
  lemma BackendsAgreeExactly(en: Engine, f: Filter, action: Action, input: seq<Data>, output: seq<Data>)
    requires OneRowPerTag(en.db.tags) && UniquePhotos(en.db.photos)
    requires MemoryHolds(en, f, input) && AllAlike(input) && SortedBy(Keys(action), input, output)
    ensures Returns(Compiled(f, action), en, Map(IdOfData, output)) <==> Orderable(action) || input == []
  {
    ReturnsExactly(en, f, action, Map(IdOfData, output));
    MemoryOrderSatisfiesSql(en, f, action, input, output);
  }

  // Sorting by id leaves no choice

  lemma {:induction false} IdsDecide(keys: seq<Key>, a: Data, b: Data)
    requires ById in keys && a.id.GetOr(-1) != b.id.GetOr(-1)
    ensures SqlLexLess(keys, a, b) || SqlLexLess(keys, b, a)
  {
    if keys[0] != ById {
      IdsDecide(keys[1..], a, b);
    }
  }

  lemma SameFirst(db: Tables, keys: seq<Key>, x: seq<int>, y: seq<int>)
    requires x != [] && y != [] && ById in keys
    requires multiset(x) == multiset(y) && InKeyOrder(db, keys, x) && InKeyOrder(db, keys, y)
    ensures x[0] == y[0]
  {
    assert y[0] in multiset(y) && x[0] in multiset(x);
    var i :| 0 <= i < |x| && x[i] == y[0];
    var j :| 0 <= j < |y| && y[j] == x[0];
    if x[0] != y[0] {
      IdsDecide(keys, SqlBackend.GetPhoto(db, x[0]), SqlBackend.GetPhoto(db, y[0]));
    }
  }

  lemma InKeyOrderTail(db: Tables, keys: seq<Key>, x: seq<int>)
    requires x != [] && InKeyOrder(db, keys, x)
    ensures InKeyOrder(db, keys, x[1..])
  {
  }

  lemma {:induction false} OneOrder(db: Tables, keys: seq<Key>, x: seq<int>, y: seq<int>)
    requires ById in keys && multiset(x) == multiset(y) && InKeyOrder(db, keys, x) && InKeyOrder(db, keys, y)
    ensures x == y
    decreases |x|
  {
    assert |x| == |multiset(x)| == |multiset(y)| == |y|;
    if x != [] {
      SameFirst(db, keys, x, y);
      TailPermuted(x, y);
      InKeyOrderTail(db, keys, x);
      InKeyOrderTail(db, keys, y);
      OneOrder(db, keys, x[1..], y[1..]);
      assert x == [x[0]] + x[1..] && y == [y[0]] + y[1..];
    }
  }

  /** With a sort by id somewhere in the action, the SQL backend returns the very list that the sorts in memory give,
      unless it returns nothing because a tag is joined twice. */
  lemma SameListFromBoth(en: Engine, f: Filter, action: Action, input: seq<Data>, output: seq<Data>, ids: seq<int>)
    requires OneRowPerTag(en.db.tags) && UniquePhotos(en.db.photos) && ById in SqlKeys(action)
    requires MemoryHolds(en, f, input) && AllAlike(input) && SortedBy(Keys(action), input, output)
    requires Returns(Compiled(f, action), en, ids)
    ensures ids == Map(IdOfData, output) <==> Orderable(action) || input == []
  {
    ReturnsExactly(en, f, action, ids);
    MemoryOrderSatisfiesSql(en, f, action, input, output);
    if Orderable(action) {
      OneOrder(en.db, SqlKeys(action), ids, Map(IdOfData, output));
    }
  }
}
