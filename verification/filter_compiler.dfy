/** Photo filters, what they mean, and their compilation to SQL queries. */
module FilterCompiler {
  import opened Common
  import opened Photos
  import opened Tables
  import opened Sql

  datatype FlagsMode = AllFlags | AnyFlag

  datatype RoleFilter = Regular | GroupRepresentative | GroupMember

  datatype SearchTerm = SearchTerm(value: string, exact: bool)

  datatype Filter =
    | EmptyFilter
    | GroupFilter(filters: seq<Filter>)
    | WithTag(tag: TagType, value: Option<string>, mode: CompareOp, includeEmpty: bool)
    | WithFlags(flags: Flags, flagsMode: FlagsMode)
    | WithSha256(sha256: string)
    | NotMatching(filter: Filter)
    | WithId(id: int)
    | MatchingExpression(terms: seq<SearchTerm>)
    | WithPath(path: string)
    | WithRole(role: RoleFilter)
    | WithPerson(person: int)
    | WithGeneralFlag(name: string, general: int)

  /** What the generator demands: no empty flag set, checksum or expression anywhere. */
  predicate WellFormed(f: Filter) {
    match f
    case GroupFilter(fs) => forall g | g in fs :: WellFormed(g)
    case NotMatching(g) => WellFormed(g)
    case WithFlags(flags, _) => flags != map[]
    case WithSha256(sha) => sha != ""
    case MatchingExpression(terms) => terms != []
    case _ => true
  }

  // ---------------------------------------------------------------------------
  // What a filter means for one stored photo, said on the tables without any query
  // ---------------------------------------------------------------------------

  ghost predicate HasTag(db: Tables, id: int, t: TagType) {
    exists r :: r in db.tags && IsTagOf(r, id, t)
  }

  predicate IsTagOf(r: TagRow, id: int, t: TagType) {
    r.photoId == id && r.name == TagCode(t)
  }

  predicate TextCompares(op: CompareOp, stored: string, wanted: string) {
    match op
    case Equal => stored == wanted
    case Less => StrLess(stored, wanted)
    case LessOrEqual => stored == wanted || StrLess(stored, wanted)
    case Greater => StrLess(wanted, stored)
    case GreaterOrEqual => stored == wanted || StrLess(wanted, stored)
  }

  predicate NumberCompares(op: CompareOp, stored: int, wanted: int) {
    match op
    case Equal => stored == wanted
    case Less => stored < wanted
    case LessOrEqual => stored <= wanted
    case Greater => stored > wanted
    case GreaterOrEqual => stored >= wanted
  }

  /** How a stored tag value compares with the wanted one: ratings as numbers, the rest as text.
      A wanted rating that is no number is a text, and every number comes before it. */
  predicate TagCompares(t: TagType, op: CompareOp, stored: string, wanted: string) {
    if t != Rating then TextCompares(op, stored, wanted)
    else if SpellsInteger(wanted) then NumberCompares(op, CastToInteger(stored), CastToInteger(wanted))
    else op == Less || op == LessOrEqual
  }

  ghost predicate HasTagValue(db: Tables, id: int, t: TagType, op: CompareOp, wanted: string) {
    exists r :: r in db.tags && IsTagOf(r, id, t) && r.value.Some? && TagCompares(t, op, r.value.value, wanted)
  }

  /** A photo without the tag counts as having it with an empty text; texts are compared as texts. */
  ghost predicate TagOrEmptyCompares(db: Tables, id: int, t: TagType, op: CompareOp, wanted: string) {
    || (exists r :: r in db.tags && IsTagOf(r, id, t) && TextCompares(op, r.value.GetOr(""), wanted))
    || (!HasTag(db, id, t) && TextCompares(op, "", wanted))
  }

  ghost predicate FlagsMatch(row: FlagsRow, flags: Flags, mode: FlagsMode) {
    match mode
    case AllFlags => forall f :: f in flags ==> FlagColumn(row, f) == flags[f]
    case AnyFlag => exists f :: f in flags && FlagColumn(row, f) == flags[f]
  }

  predicate TermMatches(term: SearchTerm, text: string, like: (string, string) -> bool) {
    if term.exact then text == term.value else like(text, "%" + term.value + "%")
  }

  ghost predicate SomeTermMatches(terms: seq<SearchTerm>, text: Option<string>, like: (string, string) -> bool) {
    text.Some? && exists t :: t in terms && TermMatches(t, text.value, like)
  }

  ghost predicate TagTextMatches(en: Engine, id: int, terms: seq<SearchTerm>) {
    exists r :: r in en.db.tags && r.photoId == id && SomeTermMatches(terms, r.value, en.like)
  }

  ghost predicate PersonNameMatches(en: Engine, id: int, terms: seq<SearchTerm>) {
    exists r, n :: r in en.db.people && n in en.db.peopleNames && r.photoId == id
                   && r.personId == Some(n.id) && SomeTermMatches(terms, n.name, en.like)
  }

  ghost predicate IsRepresentative(db: Tables, id: int) {
    exists g :: g in db.groups && g.representativeId == id
  }

  ghost predicate IsMember(db: Tables, id: int) {
    exists m :: m in db.members && m.photoId == id
  }

  ghost predicate HasRole(db: Tables, id: int, role: RoleFilter) {
    match role
    case Regular => !IsRepresentative(db, id) && !IsMember(db, id)
    case GroupRepresentative => IsRepresentative(db, id)
    case GroupMember => IsMember(db, id)
  }

  predicate IsGeneralFlagOf(r: GeneralFlagRow, id: int, name: string) {
    r.photoId == id && r.name == name
  }

  /** A general flag that was never set, or is NULL, counts as 0. */
  ghost predicate GeneralFlagIs(db: Tables, id: int, name: string, value: int) {
    || (exists r :: r in db.generalFlags && IsGeneralFlagOf(r, id, name) && r.value.GetOr(0) == value)
    || ((forall r :: r in db.generalFlags ==> !IsGeneralFlagOf(r, id, name)) && value == 0)
  }

  ghost predicate Selects(f: Filter, en: Engine, id: int) {
    match f
    case EmptyFilter => true
    case GroupFilter(fs) => forall g | g in fs :: Selects(g, en, id)
    case NotMatching(g) => !Selects(g, en, id)
    case WithTag(t, None, _, _) => HasTag(en.db, id, t)
    case WithTag(t, Some(v), op, false) => HasTagValue(en.db, id, t, op, v)
    case WithTag(t, Some(v), op, true) => TagOrEmptyCompares(en.db, id, t, op, v)
    case WithFlags(flags, mode) => exists r :: r in en.db.flags && r.photoId == id && FlagsMatch(r, flags, mode)
    case WithSha256(sha) => exists r :: r in en.db.sha256sums && r.photoId == id && r.sha256 == sha
    case WithId(wanted) => id == wanted
    case MatchingExpression(terms) => TagTextMatches(en, id, terms) || PersonNameMatches(en, id, terms)
    case WithPath(path) => exists p :: p in en.db.photos && p.id == id && p.path == path
    case WithRole(role) => HasRole(en.db, id, role)
    case WithPerson(person) => exists r :: r in en.db.people && r.photoId == id && r.personId == Some(person)
    case WithGeneralFlag(name, value) => GeneralFlagIs(en.db, id, name, value)
  }

  // ---------------------------------------------------------------------------
  // The compiler
  // ---------------------------------------------------------------------------

  const PHOTO_ID := Col(PHOTOS, Id)

  /** JOIN (joined) ON (joined.photo_id = photos.id) */
  function JoinPhotos(r: Ref): From {
    Join(Base(PHOTOS), Base(r), Cmp(Equal, Col(r, PhotoId), PHOTO_ID))
  }

  function AllPhotos(where: Cond): Query {
    Select(PHOTO_ID, Base(PHOTOS), where)
  }

  function Conjunction(conds: seq<Cond>): Cond {
    if conds == [] then Always
    else if |conds| == 1 then conds[0]
    else And(conds[0], Conjunction(conds[1..]))
  }

  function Disjunction(conds: seq<Cond>): Cond {
    if conds == [] then Always
    else if |conds| == 1 then conds[0]
    else Or(conds[0], Disjunction(conds[1..]))
  }

  function MemberConds(queries: seq<Query>): seq<Cond> {
    if queries == [] then [] else [In(PHOTO_ID, queries[0])] + MemberConds(queries[1..])
  }

  function VisitGroup(queries: seq<Query>): Query {
    if queries == [] then AllPhotos(Always)
    else if |queries| == 1 then queries[0]
    else AllPhotos(Conjunction(MemberConds(queries)))
  }

  function TagName(t: TagType): Cond {
    Cmp(Equal, Col(TAGS, Name), Lit(Int(TagCode(t))))
  }

  function TagCondition(t: TagType, value: Option<string>, op: CompareOp, includeEmpty: bool): Cond {
    match value
    case None => TagName(t)
    case Some(v) =>
      if includeEmpty then Cmp(op, Coalesce(Col(TAGS, ValueColumn), Text("")), Lit(Text(v)))
      else if t == Rating then And(TagName(t), Cmp(op, CastInteger(Col(TAGS, ValueColumn)), Lit(NumericLiteral(v))))
      else And(TagName(t), Cmp(op, Col(TAGS, ValueColumn), Lit(Text(v))))
  }

  function VisitTag(t: TagType, value: Option<string>, op: CompareOp, includeEmpty: bool): Query {
    var condition := TagCondition(t, value, op, includeEmpty);
    if includeEmpty then
      var on := And(Cmp(Equal, Col(TAGS, PhotoId), PHOTO_ID), TagName(t));
      Select(PHOTO_ID, LeftJoin(Base(PHOTOS), Base(TAGS), on), condition)
    else Select(PHOTO_ID, JoinPhotos(TAGS), condition)
  }

  const FLAG_ORDER: seq<Flag> := [StagingArea, ExifLoaded, Sha256Loaded, ThumbnailLoaded, GeometryLoaded]

  function FlagCond(f: Flag, value: int): Cond {
    Cmp(Equal, Col(FLAGS, FlagValue(f)), Lit(Int(value)))
  }

  /** One condition for every flag of `order` that the filter names. */
  function FlagConds(flags: Flags, order: seq<Flag>): seq<Cond> {
    if order == [] then []
    else (if order[0] in flags then [FlagCond(order[0], flags[order[0]])] else []) + FlagConds(flags, order[1..])
  }

  function VisitFlags(flags: Flags, mode: FlagsMode): Query {
    var conds := FlagConds(flags, FLAG_ORDER);
    Select(PHOTO_ID, JoinPhotos(FLAGS), if mode == AllFlags then Conjunction(conds) else Disjunction(conds))
  }

  function TermCond(e: Expr, term: SearchTerm): Cond {
    if term.exact then Cmp(Equal, e, Lit(Text(term.value))) else Like(e, "%" + term.value + "%")
  }

  function TermConds(e: Expr, terms: seq<SearchTerm>): seq<Cond> {
    if terms == [] then [] else [TermCond(e, terms[0])] + TermConds(e, terms[1..])
  }

  const PEOPLE_ON := And(Cmp(Equal, PHOTO_ID, Col(PEOPLE, PhotoId)), Cmp(Equal, Col(PEOPLE, PersonId), Col(PEOPLE_NAMES, Id)))

  function ExpressionQuery(tagConds: seq<Cond>, peopleConds: seq<Cond>): Query {
    var tagsQuery := Select(PHOTO_ID, Join(Base(PHOTOS), Base(TAGS), Cmp(Equal, PHOTO_ID, Col(TAGS, PhotoId))),
                            Disjunction(tagConds));
    var peopleQuery := Select(PHOTO_ID, Join(Base(PHOTOS), Cross(Base(PEOPLE), Base(PEOPLE_NAMES)), PEOPLE_ON),
                              Disjunction(peopleConds));
    AllPhotos(Or(In(PHOTO_ID, tagsQuery), In(PHOTO_ID, peopleQuery)))
  }

  function VisitExpression(terms: seq<SearchTerm>): Query {
    ExpressionQuery(TermConds(Col(TAGS, ValueColumn), terms), TermConds(Col(PEOPLE_NAMES, Name), terms))
  }

  const REPRESENTATIVES := Select(Col(GROUPS, RepresentativeId), Base(GROUPS), Always)
  const GROUP_MEMBERS := Select(Col(GROUPS_MEMBERS, PhotoId), Base(GROUPS_MEMBERS), Always)

  function VisitRole(role: RoleFilter): Query {
    match role
    case Regular => AllPhotos(NotIn(PHOTO_ID, Union(GROUP_MEMBERS, REPRESENTATIVES)))
    case GroupRepresentative => REPRESENTATIVES
    case GroupMember => GROUP_MEMBERS
  }

  function VisitGeneralFlag(name: string, value: int): Query {
    var on := And(Cmp(Equal, Col(GENERAL_FLAGS, PhotoId), PHOTO_ID), Cmp(Equal, Col(GENERAL_FLAGS, Name), Lit(Text(name))));
    Select(PHOTO_ID, LeftJoin(Base(PHOTOS), Base(GENERAL_FLAGS), on),
           Cmp(Equal, Coalesce(Col(GENERAL_FLAGS, ValueColumn), Int(0)), Lit(Int(value))))
  }

  function Generate(f: Filter): Query
    decreases f, 1
  {
    match f
    case EmptyFilter => AllPhotos(Always)
    case GroupFilter(fs) => VisitGroup(GenerateAll(fs))
    case WithTag(t, v, op, includeEmpty) => VisitTag(t, v, op, includeEmpty)
    case WithFlags(flags, mode) => VisitFlags(flags, mode)
    case WithSha256(sha) => Select(PHOTO_ID, JoinPhotos(SHA256SUMS), Cmp(Equal, Col(SHA256SUMS, Sha256), Lit(Text(sha))))
    case NotMatching(g) => AllPhotos(NotIn(PHOTO_ID, Generate(g)))
    case WithId(id) => AllPhotos(Cmp(Equal, PHOTO_ID, Lit(Int(id))))
    case MatchingExpression(terms) => VisitExpression(terms)
    case WithPath(path) => AllPhotos(Cmp(Equal, Col(PHOTOS, Path), Lit(Text(path))))
    case WithRole(role) => VisitRole(role)
    case WithPerson(person) => Select(PHOTO_ID, JoinPhotos(PEOPLE), Cmp(Equal, Col(PEOPLE, PersonId), Lit(Int(person))))
    case WithGeneralFlag(name, value) => VisitGeneralFlag(name, value)
  }

  function GenerateAll(fs: seq<Filter>): (qs: seq<Query>)
    ensures |qs| == |fs|
    ensures forall i :: 0 <= i < |fs| ==> qs[i] == Generate(fs[i])
    decreases fs, 0
  {
    if fs == [] then [] else [Generate(fs[0])] + GenerateAll(fs[1..])
  }

  // ---------------------------------------------------------------------------
  // The generator as it runs: lists built up by loops
  // ---------------------------------------------------------------------------

  method GenerateQuery(f: Filter) returns (q: Query)
    ensures q == Generate(f)
    decreases f
  {
    match f
    case GroupFilter(fs) =>
      var queries: seq<Query> := [];
      for i := 0 to |fs|
        invariant queries == GenerateAll(fs)[..i]
      {
        var current := GenerateQuery(fs[i]);
        queries := queries + [current];
      }
      assert queries == GenerateAll(fs);
      q := VisitGroup(queries);
    case WithFlags(flags, mode) =>
      var conds := CollectFlagConds(flags);
      q := Select(PHOTO_ID, JoinPhotos(FLAGS), if mode == AllFlags then Conjunction(conds) else Disjunction(conds));
    case NotMatching(g) =>
      var inner := GenerateQuery(g);
      q := AllPhotos(NotIn(PHOTO_ID, inner));
    case MatchingExpression(terms) =>
      var tagConds, peopleConds := CollectTermConds(terms);
      q := ExpressionQuery(tagConds, peopleConds);
    case _ =>
      q := Generate(f);
  }

  method CollectFlagConds(flags: Flags) returns (conds: seq<Cond>)
    ensures conds == FlagConds(flags, FLAG_ORDER)
  {
    conds := [];
    var order := FLAG_ORDER;
    while order != []
      invariant conds + FlagConds(flags, order) == FlagConds(flags, FLAG_ORDER)
      decreases |order|
    {
      if order[0] in flags {
        conds := conds + [FlagCond(order[0], flags[order[0]])];
      }
      order := order[1..];
    }
  }

  method CollectTermConds(terms: seq<SearchTerm>) returns (tagConds: seq<Cond>, peopleConds: seq<Cond>)
    ensures tagConds == TermConds(Col(TAGS, ValueColumn), terms)
    ensures peopleConds == TermConds(Col(PEOPLE_NAMES, Name), terms)
  {
    tagConds, peopleConds := [], [];
    var rest := terms;
    while rest != []
      invariant tagConds + TermConds(Col(TAGS, ValueColumn), rest) == TermConds(Col(TAGS, ValueColumn), terms)
      invariant peopleConds + TermConds(Col(PEOPLE_NAMES, Name), rest) == TermConds(Col(PEOPLE_NAMES, Name), terms)
      decreases |rest|
    {
      tagConds := tagConds + [TermCond(Col(TAGS, ValueColumn), rest[0])];
      peopleConds := peopleConds + [TermCond(Col(PEOPLE_NAMES, Name), rest[0])];
      rest := rest[1..];
    }
  }
}
