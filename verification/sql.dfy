/**
 The fragment of SQL that the backend generates: a relational AST with an evaluator.
 Conditions are three-valued; joins, IN and COALESCE follow sections 7.5, 8.4 and 6.9
 of ISO/IEC 9075:1992.
 */
module Sql {
  import opened Common
  import opened Photos
  import opened Tables

  // ---------------------------------------------------------------------------
  // Values and truth
  // ---------------------------------------------------------------------------

  datatype Value = Null | Int(i: int) | Text(s: string)

  datatype Truth = True | False | Unknown

  datatype CompareOp = Equal | Less | LessOrEqual | Greater | GreaterOrEqual

  function ToTruth(b: bool): Truth {
    if b then True else False
  }

  /** Numbers sort before text, as the storage classes of SQLite do. */
  predicate ValueLess(a: Value, b: Value) {
    match (a, b)
    case (Int(x), Int(y)) => x < y
    case (Int(_), Text(_)) => true
    case (Text(x), Text(y)) => StrLess(x, y)
    case _ => false
  }

  predicate Holds(op: CompareOp, a: Value, b: Value) {
    match op
    case Equal => a == b
    case Less => ValueLess(a, b)
    case LessOrEqual => a == b || ValueLess(a, b)
    case Greater => ValueLess(b, a)
    case GreaterOrEqual => a == b || ValueLess(b, a)
  }

  function Compare(op: CompareOp, a: Value, b: Value): Truth {
    if a.Null? || b.Null? then Unknown else ToTruth(Holds(op, a, b))
  }

  function And3(a: Truth, b: Truth): Truth {
    if a == False || b == False then False
    else if a == True && b == True then True
    else Unknown
  }

  function Or3(a: Truth, b: Truth): Truth {
    if a == True || b == True then True
    else if a == False && b == False then False
    else Unknown
  }

  function Not3(a: Truth): Truth {
    match a
    case True => False
    case False => True
    case Unknown => Unknown
  }

  predicate IsDigit(c: char) {
    '0' <= c <= '9'
  }

  /** The number a leading run of digits spells, continuing from acc. */
  function DigitsPrefix(s: string, acc: int): int {
    if s == "" || !IsDigit(s[0]) then acc
    else DigitsPrefix(s[1..], 10 * acc + (s[0] as int - '0' as int))
  }

  /** CAST(text AS INTEGER): the integer the text starts with, or 0. */
  function CastToInteger(s: string): int {
    if s != "" && s[0] == ' ' then CastToInteger(s[1..])
    else if s != "" && s[0] == '-' then -DigitsPrefix(s[1..], 0)
    else if s != "" && s[0] == '+' then DigitsPrefix(s[1..], 0)
    else DigitsPrefix(s, 0)
  }

  predicate SpellsInteger(s: string) {
    var digits := if s != "" && s[0] == '-' then s[1..] else s;
    digits != "" && forall c :: c in digits ==> IsDigit(c)
  }

  /** A quoted literal compared with an integer expression is first read as a number. */
  function NumericLiteral(s: string): Value {
    if SpellsInteger(s) then Int(CastToInteger(s)) else Text(s)
  }

  function Cast(v: Value): Value {
    match v
    case Text(s) => Int(CastToInteger(s))
    case _ => v
  }

  // ---------------------------------------------------------------------------
  // Tables as seen by queries
  // ---------------------------------------------------------------------------

  /** A name in a FROM clause: a table, or the tags table under one of its join aliases. */
  datatype Ref =
    | PHOTOS | TAGS | FLAGS | SHA256SUMS | GENERAL_FLAGS
    | PEOPLE | PEOPLE_NAMES | GROUPS | GROUPS_MEMBERS
    | TagAlias(tag: TagType)

  datatype Column =
    | Id | Path | PhotoId | Name | ValueColumn | FlagValue(flag: Flag)
    | Sha256 | PersonId | RepresentativeId

  datatype Row =
    | PhotoR(photo: PhotoRow)
    | TagR(tag: TagRow)
    | FlagsR(flags: FlagsRow)
    | Sha256R(sha: Sha256Row)
    | GeneralFlagR(general: GeneralFlagRow)
    | PeopleR(people: PeopleRow)
    | PersonNameR(person: PersonNameRow)
    | GroupR(group: GroupRow)
    | MemberR(member: MemberRow)

  function OptText(o: Option<string>): Value {
    match o
    case None => Null
    case Some(s) => Text(s)
  }

  function OptInt(o: Option<int>): Value {
    match o
    case None => Null
    case Some(i) => Int(i)
  }

  function Get(row: Row, c: Column): Value {
    match (row, c)
    case (PhotoR(r), Id) => Int(r.id)
    case (PhotoR(r), Path) => Text(r.path)
    case (TagR(r), Id) => Int(r.id)
    case (TagR(r), PhotoId) => Int(r.photoId)
    case (TagR(r), Name) => Int(r.name)
    case (TagR(r), ValueColumn) => OptText(r.value)
    case (FlagsR(r), PhotoId) => Int(r.photoId)
    case (FlagsR(r), FlagValue(f)) => Int(FlagColumn(r, f))
    case (Sha256R(r), PhotoId) => Int(r.photoId)
    case (Sha256R(r), Sha256) => Text(r.sha256)
    case (GeneralFlagR(r), PhotoId) => Int(r.photoId)
    case (GeneralFlagR(r), Name) => Text(r.name)
    case (GeneralFlagR(r), ValueColumn) => OptInt(r.value)
    case (PeopleR(r), PhotoId) => Int(r.photoId)
    case (PeopleR(r), PersonId) => OptInt(r.personId)
    case (PersonNameR(r), Id) => Int(r.id)
    case (PersonNameR(r), Name) => OptText(r.name)
    case (GroupR(r), Id) => Int(r.id)
    case (GroupR(r), RepresentativeId) => Int(r.representativeId)
    case (MemberR(r), PhotoId) => Int(r.photoId)
    case _ => Null
  }

  function Wrap<R>(rows: seq<R>, wrap: R -> Row): (r: seq<Row>)
    ensures |r| == |rows|
    ensures forall i :: 0 <= i < |r| ==> r[i] == wrap(rows[i])
  {
    seq(|rows|, i requires 0 <= i < |rows| => wrap(rows[i]))
  }

  function RowsOf(db: Tables, r: Ref): seq<Row> {
    match r
    case PHOTOS => Wrap(db.photos, x => PhotoR(x))
    case TAGS => Wrap(db.tags, x => TagR(x))
    case TagAlias(_) => Wrap(db.tags, x => TagR(x))
    case FLAGS => Wrap(db.flags, x => FlagsR(x))
    case SHA256SUMS => Wrap(db.sha256sums, x => Sha256R(x))
    case GENERAL_FLAGS => Wrap(db.generalFlags, x => GeneralFlagR(x))
    case PEOPLE => Wrap(db.people, x => PeopleR(x))
    case PEOPLE_NAMES => Wrap(db.peopleNames, x => PersonNameR(x))
    case GROUPS => Wrap(db.groups, x => GroupR(x))
    case GROUPS_MEMBERS => Wrap(db.members, x => MemberR(x))
  }

  // ---------------------------------------------------------------------------
  // Queries
  // ---------------------------------------------------------------------------

  datatype Expr =
    | Col(r: Ref, c: Column)
    | Lit(v: Value)
    | Coalesce(e: Expr, otherwise: Value)
    | CastInteger(e: Expr)

  datatype Cond =
    | Cmp(op: CompareOp, a: Expr, b: Expr)
    | Like(e: Expr, pattern: string)
    | And(left: Cond, right: Cond)
    | Or(left: Cond, right: Cond)
    | In(e: Expr, q: Query)
    | NotIn(e: Expr, q: Query)
    | Always

  datatype From =
    | Base(r: Ref)
    | Cross(first: From, second: From)
    | Join(base: From, joined: From, on: Cond)
    | LeftJoin(base: From, joined: From, on: Cond)

  datatype Query =
    | Select(what: Expr, from: From, where: Cond)
    | Union(first: Query, second: Query)

  /** One row of a joined table: the row each name in the FROM clause contributes.
      A name that is absent reads as NULL in every column. */
  datatype Env = Nothing | Bind(name: Ref, row: Row, rest: Env)

  function Beside(a: Env, b: Env): Env {
    match a
    case Nothing => b
    case Bind(name, row, rest) => Bind(name, row, Beside(rest, b))
  }

  function Lookup(env: Env, r: Ref, c: Column): Value {
    match env
    case Nothing => Null
    case Bind(name, row, rest) => if name == r then Get(row, c) else Lookup(rest, r, c)
  }

  /** A database together with what LIKE means on it. */
  datatype Engine = Engine(db: Tables, like: (string, string) -> bool)

  function EvalExpr(e: Expr, env: Env): Value {
    match e
    case Col(r, c) => Lookup(env, r, c)
    case Lit(v) => v
    case Coalesce(x, otherwise) =>
      var v := EvalExpr(x, env);
      if v.Null? then otherwise else v
    case CastInteger(x) => Cast(EvalExpr(x, env))
  }

  /** x IN (rows): true on a match, else unknown if a NULL blocks the answer (section 8.4). */
  function Membership(v: Value, rows: seq<Value>): Truth {
    if v.Null? then (if rows == [] then False else Unknown)
    else if v in rows then True
    else if Null in rows then Unknown
    else False
  }

  function EvalCond(c: Cond, env: Env, en: Engine): Truth
    decreases c, 0
  {
    match c
    case Cmp(op, a, b) => Compare(op, EvalExpr(a, env), EvalExpr(b, env))
    case Like(e, pattern) =>
      var v := EvalExpr(e, env);
      if v.Text? then ToTruth(en.like(v.s, pattern)) else Unknown
    case And(l, r) => And3(EvalCond(l, env, en), EvalCond(r, env, en))
    case Or(l, r) => Or3(EvalCond(l, env, en), EvalCond(r, env, en))
    case In(e, q) => Membership(EvalExpr(e, env), EvalQuery(q, en))
    case NotIn(e, q) => Not3(Membership(EvalExpr(e, env), EvalQuery(q, en)))
    case Always => True
  }

  /** The rows on which the condition is true: neither false nor unknown. */
  function Keep(envs: seq<Env>, c: Cond, en: Engine): (kept: seq<Env>)
    ensures forall e :: e in kept <==> e in envs && EvalCond(c, e, en) == True
    decreases c, 1, |envs|
  {
    if envs == [] then []
    else
      var rest := Keep(envs[1..], c, en);
      if EvalCond(c, envs[0], en) == True then [envs[0]] + rest else rest
  }

  /** a combined with every one of bs. */
  function Extend(a: Env, bs: seq<Env>): (r: seq<Env>)
    ensures |r| == |bs|
    ensures forall i :: 0 <= i < |r| ==> r[i] == Beside(a, bs[i])
  {
    seq(|bs|, i requires 0 <= i < |bs| => Beside(a, bs[i]))
  }

  function Pairs(xs: seq<Env>, bs: seq<Env>): seq<Env> {
    if xs == [] then [] else Extend(xs[0], bs) + Pairs(xs[1..], bs)
  }

  /** Rows of the left operand that match nothing are kept, extended by NULLs (section 7.5). */
  function LeftRows(xs: seq<Env>, bs: seq<Env>, on: Cond, en: Engine): seq<Env>
    decreases on, 2, |xs|
  {
    if xs == [] then []
    else
      var matches := Keep(Extend(xs[0], bs), on, en);
      (if matches == [] then [xs[0]] else matches) + LeftRows(xs[1..], bs, on, en)
  }

  function BaseRows(rows: seq<Row>, r: Ref): (envs: seq<Env>)
    ensures |envs| == |rows|
    ensures forall i :: 0 <= i < |envs| ==> envs[i] == Bind(r, rows[i], Nothing)
  {
    seq(|rows|, i requires 0 <= i < |rows| => Bind(r, rows[i], Nothing))
  }

  function EvalFrom(f: From, en: Engine): seq<Env>
    decreases f, 3
  {
    match f
    case Base(r) => BaseRows(RowsOf(en.db, r), r)
    case Cross(a, b) => Pairs(EvalFrom(a, en), EvalFrom(b, en))
    case Join(a, b, on) => Keep(Pairs(EvalFrom(a, en), EvalFrom(b, en)), on, en)
    case LeftJoin(a, b, on) => LeftRows(EvalFrom(a, en), EvalFrom(b, en), on, en)
  }

  function Project(e: Expr, envs: seq<Env>): (r: seq<Value>)
    ensures |r| == |envs|
    ensures forall i :: 0 <= i < |r| ==> r[i] == EvalExpr(e, envs[i])
  {
    seq(|envs|, i requires 0 <= i < |envs| => EvalExpr(e, envs[i]))
  }

  function Deduplicate(s: seq<Value>): (r: seq<Value>)
    ensures forall v :: v in r <==> v in s
  {
    if s == [] then []
    else
      var rest := Deduplicate(s[1..]);
      if s[0] in rest then rest else [s[0]] + rest
  }

  function EvalQuery(q: Query, en: Engine): seq<Value>
    decreases q, 4
  {
    match q
    case Select(what, from, where) => Project(what, Keep(EvalFrom(from, en), where, en))
    case Union(a, b) => Deduplicate(EvalQuery(a, en) + EvalQuery(b, en))
  }
}
