/** Ordering photos in SQL: the joins and ORDER BY keys of an action, and their agreement with the sort in memory. */
module PhotoOrdering {
  import opened Common
  import opened Photos
  import opened Tables
  import opened Sql
  import opened Sorting
  import opened FilterCompiler

  // ---------------------------------------------------------------------------
  // Collecting joins and keys
  // ---------------------------------------------------------------------------

  /** Tags that have a join name; every tag type but the invalid one. */
  predicate Joinable(t: TagType) {
    t != InvalidTag
  }

  function SqlKeys(a: Action): seq<Key>
    decreases a, 1
  {
    match a
    case SortByTag(t, asc) => if Joinable(t) then [ByTag(t, asc)] else []
    case SortByTimestamp(asc) => [ByTag(Date, asc), ByTag(Time, asc)]
    case SortByID => [ById]
    case GroupAction(actions) => AllSqlKeys(actions)
  }

  function AllSqlKeys(actions: seq<Action>): seq<Key>
    decreases actions, 0
  {
    if actions == [] then [] else SqlKeys(actions[0]) + AllSqlKeys(actions[1..])
  }

  /** The tags an ORDER BY list reads, in order. */
  function TagsOf(keys: seq<Key>): seq<TagType> {
    if keys == [] then []
    else if keys[0].ByTag? then [keys[0].tag] + TagsOf(keys[1..])
    else TagsOf(keys[1..])
  }

  lemma {:induction false} TagsOfConcat(a: seq<Key>, b: seq<Key>)
    ensures TagsOf(a + b) == TagsOf(a) + TagsOf(b)
  {
    if a == [] {
      assert a + b == b;
    } else {
      TagsOfConcat(a[1..], b);
      assert (a + b)[0] == a[0] && (a + b)[1..] == a[1..] + b;
    }
  }

  lemma AllKeysFrom(actions: seq<Action>, i: nat, before: seq<Key>, joins: seq<TagType>)
    requires i < |actions|
    ensures before + AllSqlKeys(actions[i..]) == (before + SqlKeys(actions[i])) + AllSqlKeys(actions[i + 1..])
    ensures joins + TagsOf(AllSqlKeys(actions[i..])) == (joins + TagsOf(SqlKeys(actions[i]))) + TagsOf(AllSqlKeys(actions[i + 1..]))
  {
    assert actions[i..][1..] == actions[i + 1..];
    TagsOfConcat(SqlKeys(actions[i]), AllSqlKeys(actions[i + 1..]));
  }

  class SortingContext {
    var joins: seq<TagType>
    var sortOrder: seq<Key>

    constructor ()
      ensures joins == [] && sortOrder == []
    {
      joins, sortOrder := [], [];
    }

    method ProcessTag(tag: TagType, ascending: bool)
      modifies this
      ensures sortOrder == old(sortOrder) + SqlKeys(SortByTag(tag, ascending))
      ensures joins == old(joins) + TagsOf(SqlKeys(SortByTag(tag, ascending)))
    {
      if Joinable(tag) {
        joins := joins + [tag];
        sortOrder := sortOrder + [ByTag(tag, ascending)];
      }
    }

    method ProcessAction(action: Action)
      modifies this
      ensures sortOrder == old(sortOrder) + SqlKeys(action)
      ensures joins == old(joins) + TagsOf(SqlKeys(action))
      decreases action, 1
    {
      match action
      case SortByTag(t, asc) =>
        ProcessTag(t, asc);
      case SortByTimestamp(asc) =>
        ProcessTag(Date, asc);
        ProcessTag(Time, asc);
      case SortByID =>
        sortOrder := sortOrder + [ById];
      case GroupAction(actions) =>
        ProcessActions(actions);
    }

    method ProcessActions(actions: seq<Action>)
      modifies this
      ensures sortOrder == old(sortOrder) + AllSqlKeys(actions)
      ensures joins == old(joins) + TagsOf(AllSqlKeys(actions))
      decreases actions, 0
    {
      for i := 0 to |actions|
        invariant sortOrder + AllSqlKeys(actions[i..]) == old(sortOrder) + AllSqlKeys(actions)
        invariant joins + TagsOf(AllSqlKeys(actions[i..])) == old(joins) + TagsOf(AllSqlKeys(actions))
      {
        AllKeysFrom(actions, i, sortOrder, joins);
        ProcessAction(actions[i]);
      }
      assert actions[|actions|..] == [];
    }
  }

  // ---------------------------------------------------------------------------
  // The order of the list and the order in memory
  // ---------------------------------------------------------------------------

  /** NULL sorts before every text. */
  predicate NullsFirstLess(a: Option<string>, b: Option<string>) {
    match (a, b)
    case (None, Some(_)) => true
    case (Some(x), Some(y)) => StrLess(x, y)
    case _ => false
  }

  predicate SqlKeyLess(k: Key, a: Data, b: Data) {
    match k
    case ByTag(t, true) => NullsFirstLess(TagIn(a.tags, t), TagIn(b.tags, t))
    case ByTag(t, false) => NullsFirstLess(TagIn(b.tags, t), TagIn(a.tags, t))
    case ById => a.id.GetOr(-1) < b.id.GetOr(-1)
  }

  predicate SqlLexLess(keys: seq<Key>, a: Data, b: Data) {
    keys != [] && (SqlKeyLess(keys[0], a, b) || (!SqlKeyLess(keys[0], b, a) && SqlLexLess(keys[1..], a, b)))
  }

  /** No tag is empty for one and missing for the other, and the invalid tag, which the SQL list skips, is the same. */
  ghost predicate ComparesAlike(a: Data, b: Data) {
    && RawTag(a, InvalidTag) == RawTag(b, InvalidTag)
    && forall t: TagType :: Joinable(t) && RawTag(a, t) == RawTag(b, t) ==> TagIn(a.tags, t) == TagIn(b.tags, t)
  }

  /** Both orders say the same about a pair of photos. */
  predicate AgreeOn(action: Action, a: Data, b: Data) {
    LexLess(Keys(action), a, b) <==> SqlLexLess(SqlKeys(action), a, b)
  }

  lemma KeysAgree(k: Key, a: Data, b: Data)
    requires ComparesAlike(a, b) && (k.ByTag? ==> Joinable(k.tag))
    ensures KeyLess(k, a, b) <==> SqlKeyLess(k, a, b)
  {
    if k.ByTag? {
      StrLessIrreflexive(RawTag(a, k.tag));
      StrLessIrreflexive(RawTag(b, k.tag));
    }
  }

  /** On such photos the SQL list, which skips the invalid tag and reads NULLs, compares like the full list. */
  lemma {:induction false} ActionsAgree(action: Action, a: Data, b: Data)
    requires ComparesAlike(a, b)
    ensures AgreeOn(action, a, b)
    decreases action
  {
    match action
    case SortByTag(t, asc) =>
      assert Keys(action)[1..] == [];
      if t == InvalidTag {
        StrLessIrreflexive(RawTag(a, t));
      } else {
        KeysAgree(ByTag(t, asc), a, b);
        assert SqlKeys(action)[1..] == [];
      }
    case SortByTimestamp(asc) =>
      var keys := Keys(action);
      assert keys[1..] == [ByTag(Time, asc)] && keys[1..][1..] == [];
      KeysAgree(keys[0], a, b);
      KeysAgree(keys[0], b, a);
      KeysAgree(keys[1], a, b);
      assert SqlLexLess(keys[1..], a, b) <==> LexLess(keys[1..], a, b);
    case SortByID =>
      assert Keys(action)[1..] == [];
    case GroupAction(actions) => AllActionsAgree(actions, a, b);
  }

  lemma {:induction false} AllActionsAgree(actions: seq<Action>, a: Data, b: Data)
    requires ComparesAlike(a, b)
    ensures LexLess(AllKeys(actions), a, b) <==> SqlLexLess(AllSqlKeys(actions), a, b)
    decreases actions
  {
    if actions != [] {
      ActionsAgree(actions[0], a, b);
      ActionsAgree(actions[0], b, a);
      AllActionsAgree(actions[1..], a, b);
      LexLessConcat(Keys(actions[0]), AllKeys(actions[1..]), a, b);
      SqlLexLessConcat(SqlKeys(actions[0]), AllSqlKeys(actions[1..]), a, b);
    }
  }

  lemma {:induction false} SqlLexLessConcat(js: seq<Key>, ks: seq<Key>, a: Data, b: Data)
    ensures SqlLexLess(js + ks, a, b) <==> SqlLexLess(js, a, b) || (!SqlLexLess(js, b, a) && SqlLexLess(ks, a, b))
  {
    if js == [] {
      assert js + ks == ks;
    } else {
      assert (js + ks)[1..] == js[1..] + ks;
      SqlLexLessConcat(js[1..], ks, a, b);
    }
  }

  lemma {:induction false} LexLessAsymmetric(keys: seq<Key>, a: Data, b: Data)
    requires LexLess(keys, a, b)
    ensures !LexLess(keys, b, a)
  {
    if KeyLess(keys[0], a, b) {
      KeyLessAsymmetric(keys[0], a, b);
    } else {
      LexLessAsymmetric(keys[1..], a, b);
    }
  }

  /** What the statement needs of its list: something to order by, and no tag joined twice. */
  ghost predicate Orderable(action: Action) {
    SqlKeys(action) != [] && Distinct(TagsOf(SqlKeys(action)))
  }

  lemma OneKey(k: Key, a: Data, b: Data)
    ensures LexLess([k], a, b) <==> KeyLess(k, a, b)
    ensures SqlLexLess([k], a, b) <==> SqlKeyLess(k, a, b)
  {
    assert [k][1..] == [];
  }

  /** An action that tells two photos apart by their invalid tag in memory, and by their ids in SQL. */
  lemma InvalidTagDisagrees(a: Data, b: Data) returns (action: Action)
    requires RawTag(a, InvalidTag) != RawTag(b, InvalidTag)
    ensures Orderable(action) && !AgreeOn(action, a, b)
  {
    var x, y := RawTag(a, InvalidTag), RawTag(b, InvalidTag);
    StrLessTotal(x, y);
    var asc := if KeyLess(ById, a, b) then StrLess(y, x) else StrLess(x, y);
    var key := ByTag(InvalidTag, asc);
    var first := SortByTag(InvalidTag, asc);
    var actions := [first, SortByID];
    var rest := actions[1..];
    action := GroupAction(actions);
    assert rest == [SortByID] && rest[1..] == [];
    assert AllSqlKeys(rest) == [ById] && AllKeys(rest) == [ById];
    assert SqlKeys(first) == [] && Keys(first) == [key] && actions[0] == first;
    assert AllSqlKeys(actions) == [ById] && AllKeys(actions) == [key] + [ById];
    assert TagsOf(SqlKeys(action)) == [];
    OneKey(ById, a, b);
    OneKey(key, a, b);
    OneKey(key, b, a);
    LexLessConcat([key], [ById], a, b);
    if KeyLess(ById, a, b) {
      assert KeyLess(key, b, a);
      KeyLessAsymmetric(key, b, a);
    } else {
      assert KeyLess(key, a, b);
    }
  }

  /** An empty text and a missing tag tie in memory, but NULL sorts before every text. */
  lemma EmptyTagDisagrees(a: Data, b: Data, t: TagType) returns (action: Action)
    requires Joinable(t) && RawTag(a, t) == RawTag(b, t) && TagIn(a.tags, t) != TagIn(b.tags, t)
    ensures Orderable(action) && !AgreeOn(action, a, b)
  {
    var key := ByTag(t, TagIn(a.tags, t).None?);
    action := SortByTag(t, key.ascending);
    StrLessIrreflexive(RawTag(a, t));
    OneKey(key, a, b);
    assert Keys(action) == [key] && SqlKeys(action) == [key];
    assert !KeyLess(key, a, b) && SqlKeyLess(key, a, b);
    assert TagsOf([key]) == [t];
  }

  /** Every action the statement can express orders a pair of photos alike on both backends, exactly when they
      compare alike. */
  lemma ActionsAgreeExactly(a: Data, b: Data)
    ensures (forall action :: Orderable(action) ==> AgreeOn(action, a, b)) <==> ComparesAlike(a, b)
  {
    if ComparesAlike(a, b) {
      forall action | Orderable(action)
        ensures AgreeOn(action, a, b)
      {
        ActionsAgree(action, a, b);
      }
    } else if RawTag(a, InvalidTag) != RawTag(b, InvalidTag) {
      var action := InvalidTagDisagrees(a, b);
      assert !AgreeOn(action, a, b);
    } else {
      var t: TagType :| Joinable(t) && RawTag(a, t) == RawTag(b, t) && TagIn(a.tags, t) != TagIn(b.tags, t);
      var action := EmptyTagDisagrees(a, b, t);
      assert !AgreeOn(action, a, b);
    }
  }

  /** Storing asserts that no tag value is empty; then only the invalid tag matters. */
  lemma InvalidTagSortsInMemoryOnly(a: Data, b: Data)
    requires "" !in a.tags.Values && "" !in b.tags.Values
    ensures (forall action :: Orderable(action) ==> AgreeOn(action, a, b)) <==> RawTag(a, InvalidTag) == RawTag(b, InvalidTag)
  {
    ActionsAgreeExactly(a, b);
    forall t: TagType | RawTag(a, t) == RawTag(b, t)
      ensures TagIn(a.tags, t) == TagIn(b.tags, t)
    {
      assert t in a.tags ==> a.tags[t] in a.tags.Values;
      assert t in b.tags ==> b.tags[t] in b.tags.Values;
    }
  }

  // When the list is empty

  function Leaves(a: Action): seq<Action>
    decreases a, 1
  {
    match a
    case GroupAction(actions) => AllLeaves(actions)
    case _ => [a]
  }

  function AllLeaves(actions: seq<Action>): seq<Action>
    decreases actions, 0
  {
    if actions == [] then [] else Leaves(actions[0]) + AllLeaves(actions[1..])
  }

  predicate ByInvalidTag(a: Action) {
    a.SortByTag? && a.tag == InvalidTag
  }

  /** Nothing to order by: exactly when every single sort in the action, at any depth, is by the invalid tag. */
  lemma {:induction false} EmptyListExactly(action: Action)
    ensures SqlKeys(action) == [] <==> forall leaf :: leaf in Leaves(action) ==> ByInvalidTag(leaf)
    decreases action, 1
  {
    match action
    case GroupAction(actions) => EmptyListsExactly(actions);
    case _ =>
      assert Leaves(action) == [action];
      assert SqlKeys(action) == [] <==> ByInvalidTag(action);
  }

  lemma {:induction false} EmptyListsExactly(actions: seq<Action>)
    ensures AllSqlKeys(actions) == [] <==> forall leaf :: leaf in AllLeaves(actions) ==> ByInvalidTag(leaf)
    decreases actions, 0
  {
    if actions != [] {
      EmptyListExactly(actions[0]);
      EmptyListsExactly(actions[1..]);
    }
  }

  // ---------------------------------------------------------------------------
  // The joins neither lose nor multiply photos
  // ---------------------------------------------------------------------------

  function AliasOn(t: TagType): Cond {
    And(Cmp(Equal, PHOTO_ID, Col(TagAlias(t), PhotoId)), Cmp(Equal, Col(TagAlias(t), Name), Lit(Int(TagCode(t)))))
  }

  function Last<T>(s: seq<T>): T
    requires s != []
  {
    s[|s| - 1]
  }

  function Init<T>(s: seq<T>): seq<T>
    requires s != []
  {
    s[..|s| - 1]
  }

  /** photos LEFT JOIN tags t1 ON .. LEFT JOIN tags t2 ON .. */
  function JoinChain(joins: seq<TagType>): From
    decreases |joins|
  {
    if joins == [] then Base(PHOTOS)
    else LeftJoin(JoinChain(Init(joins)), Base(TagAlias(Last(joins))), AliasOn(Last(joins)))
  }

  function FindTag(tags: seq<TagRow>, id: int, t: TagType): (r: Option<TagRow>)
    ensures r.Some? ==> r.value in tags && IsTagOf(r.value, id, t)
    ensures r.None? ==> forall x :: x in tags ==> !IsTagOf(x, id, t)
  {
    if tags == [] then None
    else if IsTagOf(tags[0], id, t) then Some(tags[0])
    else FindTag(tags[1..], id, t)
  }

  /** The single joined row of a photo. */
  function ChainEnv(tags: seq<TagRow>, p: PhotoRow, joins: seq<TagType>): Env
    decreases |joins|
  {
    if joins == [] then Bind(PHOTOS, PhotoR(p), Nothing)
    else
      var before := ChainEnv(tags, p, Init(joins));
      match FindTag(tags, p.id, Last(joins))
      case None => before
      case Some(r) => Beside(before, Bind(TagAlias(Last(joins)), TagR(r), Nothing))
  }

  predicate Binds(env: Env, r: Ref) {
    env.Bind? && (env.name == r || Binds(env.rest, r))
  }

  lemma {:induction false} BindsBeside(a: Env, b: Env, r: Ref)
    ensures Binds(Beside(a, b), r) <==> Binds(a, r) || Binds(b, r)
  {
    if a.Bind? {
      BindsBeside(a.rest, b, r);
    }
  }

  lemma {:induction false} LookupBeside(a: Env, b: Env, r: Ref, c: Column)
    ensures Lookup(Beside(a, b), r, c) == if Binds(a, r) then Lookup(a, r, c) else Lookup(b, r, c)
  {
    if a.Bind? {
      LookupBeside(a.rest, b, r, c);
    }
  }

  lemma {:induction false} ChainBindings(tags: seq<TagRow>, p: PhotoRow, joins: seq<TagType>)
    ensures Binds(ChainEnv(tags, p, joins), PHOTOS)
    ensures Lookup(ChainEnv(tags, p, joins), PHOTOS, Id) == Int(p.id)
    ensures forall t :: t !in joins ==> !Binds(ChainEnv(tags, p, joins), TagAlias(t))
    decreases |joins|
  {
    if joins != [] {
      ChainBindings(tags, p, Init(joins));
      var before, found := ChainEnv(tags, p, Init(joins)), FindTag(tags, p.id, Last(joins));
      assert forall t :: t in joins <==> t in Init(joins) || t == Last(joins) by {
        assert joins == Init(joins) + [Last(joins)];
      }
      if found.Some? {
        var more := Bind(TagAlias(Last(joins)), TagR(found.value), Nothing);
        LookupBeside(before, more, PHOTOS, Id);
        BindsBeside(before, more, PHOTOS);
        forall t | t !in joins
          ensures !Binds(Beside(before, more), TagAlias(t))
        {
          BindsBeside(before, more, TagAlias(t));
          assert !Binds(Nothing, TagAlias(t));
        }
      }
    } else {
      assert forall t :: !Binds(Nothing, TagAlias(t));
    }
  }

  lemma {:induction false} NotBoundIsNull(env: Env, r: Ref, c: Column)
    requires !Binds(env, r)
    ensures Lookup(env, r, c) == Null
  {
    if env.Bind? {
      NotBoundIsNull(env.rest, r, c);
    }
  }

  lemma ReadsFound(before: Env, t: TagType, found: Option<TagRow>)
    requires !Binds(before, TagAlias(t))
    ensures var env := (match found case None => before case Some(r) => Beside(before, Bind(TagAlias(t), TagR(r), Nothing)));
            Lookup(env, TagAlias(t), ValueColumn) == (match found case None => Null case Some(r) => OptText(r.value))
  {
    NotBoundIsNull(before, TagAlias(t), ValueColumn);
    if found.Some? {
      LookupBeside(before, Bind(TagAlias(t), TagR(found.value), Nothing), TagAlias(t), ValueColumn);
    }
  }

  /** Another tag's alias beside it hides nothing. */
  lemma ReadsPast(before: Env, t: TagType, other: TagType, r: TagRow)
    requires t != other
    ensures Lookup(Beside(before, Bind(TagAlias(other), TagR(r), Nothing)), TagAlias(t), ValueColumn) == Lookup(before, TagAlias(t), ValueColumn)
  {
    LookupBeside(before, Bind(TagAlias(other), TagR(r), Nothing), TagAlias(t), ValueColumn);
    assert Lookup(Nothing, TagAlias(t), ValueColumn) == Null;
    if !Binds(before, TagAlias(t)) {
      NotBoundIsNull(before, TagAlias(t), ValueColumn);
    }
  }

  /** The column an ORDER BY key reads on that row: the photo's value of the tag, or NULL. */
  lemma {:induction false} ChainColumn(tags: seq<TagRow>, p: PhotoRow, joins: seq<TagType>, t: TagType)
    requires Distinct(joins) && t in joins
    ensures EvalExpr(Col(TagAlias(t), ValueColumn), ChainEnv(tags, p, joins))
         == (match FindTag(tags, p.id, t) case None => Null case Some(r) => OptText(r.value))
    decreases |joins|
  {
    var before, last := ChainEnv(tags, p, Init(joins)), Last(joins);
    ChainBindings(tags, p, Init(joins));
    assert joins == Init(joins) + [last];
    var found := FindTag(tags, p.id, last);
    if t == last {
      assert t !in Init(joins) by {
        assert forall i :: 0 <= i < |joins| - 1 ==> joins[i] != joins[|joins| - 1];
      }
      ReadsFound(before, t, found);
    } else {
      ChainColumn(tags, p, Init(joins), t);
      if found.Some? {
        ReadsPast(before, t, last, found.value);
      }
    }
  }

  lemma AliasOnRow(before: Env, id: int, t: TagType, r: TagRow, en: Engine)
    requires Binds(before, PHOTOS) && Lookup(before, PHOTOS, Id) == Int(id) && !Binds(before, TagAlias(t))
    ensures EvalCond(AliasOn(t), Beside(before, Bind(TagAlias(t), TagR(r), Nothing)), en) == True <==> IsTagOf(r, id, t)
  {
    var more := Bind(TagAlias(t), TagR(r), Nothing);
    var env := Beside(before, more);
    LookupBeside(before, more, PHOTOS, Id);
    LookupBeside(before, more, TagAlias(t), PhotoId);
    LookupBeside(before, more, TagAlias(t), Name);
    assert EvalExpr(PHOTO_ID, env) == Int(id);
    assert EvalExpr(Col(TagAlias(t), PhotoId), env) == Int(r.photoId);
    assert EvalExpr(Col(TagAlias(t), Name), env) == Int(r.name);
  }

  function AliasRows(tags: seq<TagRow>, t: TagType): (envs: seq<Env>)
    ensures |envs| == |tags|
    ensures forall i :: 0 <= i < |tags| ==> envs[i] == Bind(TagAlias(t), TagR(tags[i]), Nothing)
  {
    seq(|tags|, i requires 0 <= i < |tags| => Bind(TagAlias(t), TagR(tags[i]), Nothing))
  }

  /** Joining one photo with its tags of one type finds the row of that tag, or nothing. */
  lemma {:induction false} MatchesOfPhoto(before: Env, id: int, t: TagType, tags: seq<TagRow>, en: Engine)
    requires Binds(before, PHOTOS) && Lookup(before, PHOTOS, Id) == Int(id) && !Binds(before, TagAlias(t))
    requires OneRowPerTag(tags)
    ensures Keep(Extend(before, AliasRows(tags, t)), AliasOn(t), en)
         == (match FindTag(tags, id, t)
             case None => []
             case Some(r) => [Beside(before, Bind(TagAlias(t), TagR(r), Nothing))])
  {
    var all := Extend(before, AliasRows(tags, t));
    if tags != [] {
      MatchesOfPhoto(before, id, t, tags[1..], en);
      assert all[1..] == Extend(before, AliasRows(tags[1..], t));
      AliasOnRow(before, id, t, tags[0], en);
      if IsTagOf(tags[0], id, t) {
        assert FindTag(tags[1..], id, t).None? by {
          forall x | x in tags[1..]
            ensures !IsTagOf(x, id, t)
          {
            var i :| 0 <= i < |tags[1..]| && tags[1..][i] == x;
            assert tags[i + 1] == x;
          }
        }
      }
    }
  }

  function ChainEnvs(tags: seq<TagRow>, photos: seq<PhotoRow>, joins: seq<TagType>): (envs: seq<Env>)
    ensures |envs| == |photos|
    ensures forall i :: 0 <= i < |photos| ==> envs[i] == ChainEnv(tags, photos[i], joins)
  {
    seq(|photos|, i requires 0 <= i < |photos| => ChainEnv(tags, photos[i], joins))
  }

  lemma {:induction false} ExtendChain(tags: seq<TagRow>, photos: seq<PhotoRow>, joins: seq<TagType>, en: Engine)
    requires joins != [] && Last(joins) !in Init(joins) && OneRowPerTag(tags)
    ensures LeftRows(ChainEnvs(tags, photos, Init(joins)), AliasRows(tags, Last(joins)), AliasOn(Last(joins)), en)
         == ChainEnvs(tags, photos, joins)
  {
    var xs := ChainEnvs(tags, photos, Init(joins));
    if photos != [] {
      ExtendChain(tags, photos[1..], joins, en);
      assert xs[1..] == ChainEnvs(tags, photos[1..], Init(joins));
      ChainBindings(tags, photos[0], Init(joins));
      MatchesOfPhoto(xs[0], photos[0].id, Last(joins), tags, en);
      assert ChainEnvs(tags, photos, joins) == [ChainEnv(tags, photos[0], joins)] + ChainEnvs(tags, photos[1..], joins);
    }
  }

  /** Main result on the joins: every photo contributes exactly one row, in table order. */
  lemma {:induction false} JoinsKeepPhotos(en: Engine, joins: seq<TagType>)
    requires Distinct(joins) && OneRowPerTag(en.db.tags)
    ensures EvalFrom(JoinChain(joins), en) == ChainEnvs(en.db.tags, en.db.photos, joins)
    decreases |joins|
  {
    if joins == [] {
      assert EvalFrom(Base(PHOTOS), en) == ChainEnvs(en.db.tags, en.db.photos, []);
    } else {
      var t := Last(joins);
      JoinsKeepPhotos(en, Init(joins));
      assert t !in Init(joins) by {
        assert forall i :: 0 <= i < |joins| - 1 ==> joins[i] != joins[|joins| - 1];
      }
      assert EvalFrom(Base(TagAlias(t)), en) == AliasRows(en.db.tags, t);
      ExtendChain(en.db.tags, en.db.photos, joins, en);
    }
  }

  function SelectedRows(photos: seq<PhotoRow>, rows: seq<Value>): seq<PhotoRow> {
    if photos == [] then []
    else (if Int(photos[0].id) in rows then [photos[0]] else []) + SelectedRows(photos[1..], rows)
  }

  lemma {:induction false} KeepSelected(en: Engine, q: Query, photos: seq<PhotoRow>, joins: seq<TagType>)
    ensures Keep(ChainEnvs(en.db.tags, photos, joins), In(PHOTO_ID, q), en)
         == ChainEnvs(en.db.tags, SelectedRows(photos, EvalQuery(q, en)), joins)
  {
    if photos != [] {
      var tags, rows := en.db.tags, EvalQuery(q, en);
      var all := ChainEnvs(tags, photos, joins);
      KeepSelected(en, q, photos[1..], joins);
      assert all[1..] == ChainEnvs(tags, photos[1..], joins);
      assert EvalCond(In(PHOTO_ID, q), all[0], en) == True <==> Int(photos[0].id) in rows by {
        ChainBindings(tags, photos[0], joins);
        assert EvalExpr(PHOTO_ID, all[0]) == Int(photos[0].id);
      }
      ChainEnvsCons(tags, photos[0], SelectedRows(photos[1..], rows), joins);
    }
  }

  lemma ChainEnvsCons(tags: seq<TagRow>, p: PhotoRow, photos: seq<PhotoRow>, joins: seq<TagType>)
    ensures ChainEnvs(tags, [p] + photos, joins) == [ChainEnv(tags, p, joins)] + ChainEnvs(tags, photos, joins)
  {
  }
}
