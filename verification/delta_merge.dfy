/** Merging deltas of one photo before they are stored: the first value of a field wins. */
module DeltaMerge {
  import opened Common
  import opened Photos

  datatype Field = ChecksumField | TagsField | FlagsField | PathField | GeometryField | GroupField

  /** As the map of fields is ordered. */
  const FIELD_ORDER: seq<Field> := [ChecksumField, TagsField, FlagsField, PathField, GeometryField, GroupField]

  function Or<T>(mine: Option<T>, other: Option<T>): Option<T> {
    if mine.Some? then mine else other
  }

  /** Flags are merged one by one; each keeps the value it had. */
  function MergedFlags(mine: Option<Flags>, other: Option<Flags>): Option<Flags> {
    if mine.Some? && other.Some? then Some(other.value + mine.value) else Or(mine, other)
  }

  function Merge(mine: Delta, other: Delta): Delta {
    Delta(other.id,
          Or(mine.checksum, other.checksum),
          Or(mine.tags, other.tags),
          MergedFlags(mine.flags, other.flags),
          Or(mine.path, other.path),
          Or(mine.geometry, other.geometry),
          Or(mine.group, other.group))
  }

  /** One field of the other delta is inserted where this one has none. */
  function InsertField(mine: Delta, other: Delta, f: Field): Delta {
    match f
    case ChecksumField => mine.(checksum := Or(mine.checksum, other.checksum))
    case TagsField => mine.(tags := Or(mine.tags, other.tags))
    case FlagsField => mine.(flags := MergedFlags(mine.flags, other.flags))
    case PathField => mine.(path := Or(mine.path, other.path))
    case GeometryField => mine.(geometry := Or(mine.geometry, other.geometry))
    case GroupField => mine.(group := Or(mine.group, other.group))
  }

  function InsertFields(mine: Delta, other: Delta, order: seq<Field>): Delta
    decreases |order|
  {
    if order == [] then mine else InsertFields(InsertField(mine, other, order[0]), other, order[1..])
  }

  /** The fields of the other delta, in their order. */
  method MergeInto(mine: Delta, other: Delta) returns (r: Delta)
    requires mine.id.None? || mine.id == other.id
    ensures r == InsertFields(mine.(id := other.id), other, FIELD_ORDER)
  {
    r := mine.(id := other.id);
    var rest := FIELD_ORDER;
    while rest != []
      invariant InsertFields(r, other, rest) == InsertFields(mine.(id := other.id), other, FIELD_ORDER)
      decreases |rest|
    {
      r := InsertField(r, other, rest[0]);
      rest := rest[1..];
    }
  }

  lemma InsertOne(mine: Delta, other: Delta, f: Field, rest: seq<Field>)
    ensures InsertFields(mine, other, [f] + rest) == InsertFields(InsertField(mine, other, f), other, rest)
  {
    assert ([f] + rest)[1..] == rest;
  }

  /** The loop over the fields does what the merge of whole deltas says. */
  lemma InsertFieldsMerge(mine: Delta, other: Delta)
    requires mine.id == other.id
    ensures InsertFields(mine, other, FIELD_ORDER) == Merge(mine, other)
  {
    var d1 := mine.(checksum := Or(mine.checksum, other.checksum));
    var d2 := d1.(tags := Or(mine.tags, other.tags));
    var d3 := d2.(flags := MergedFlags(mine.flags, other.flags));
    var d4 := d3.(path := Or(mine.path, other.path));
    var d5 := d4.(geometry := Or(mine.geometry, other.geometry));
    InsertOne(mine, other, ChecksumField, [TagsField] + ([FlagsField] + ([PathField] + ([GeometryField] + ([GroupField] + [])))));
    InsertOne(d1, other, TagsField, [FlagsField] + ([PathField] + ([GeometryField] + ([GroupField] + []))));
    InsertOne(d2, other, FlagsField, [PathField] + ([GeometryField] + ([GroupField] + [])));
    InsertOne(d3, other, PathField, [GeometryField] + ([GroupField] + []));
    InsertOne(d4, other, GeometryField, [GroupField] + []);
    InsertOne(d5, other, GroupField, []);
    assert FIELD_ORDER
        == [ChecksumField] + ([TagsField] + ([FlagsField] + ([PathField] + ([GeometryField] + ([GroupField] + [])))));
  }

  // ---------------------------------------------------------------------------
  // Merging against applying one after the other
  // ---------------------------------------------------------------------------

  predicate Agree<T(==)>(a: Option<T>, b: Option<T>) {
    a.Some? && b.Some? ==> a.value == b.value
  }

  /** Every flag the first sets is set to the same value by the second. */
  predicate FlagsContained(a: Option<Flags>, b: Option<Flags>) {
    a.Some? && b.Some? ==> forall f | f in a.value :: f in b.value && b.value[f] == a.value[f]
  }

  predicate Compatible(a: Delta, b: Delta) {
    && Agree(a.checksum, b.checksum) && Agree(a.tags, b.tags) && Agree(a.path, b.path)
    && Agree(a.geometry, b.geometry) && Agree(a.group, b.group) && FlagsContained(a.flags, b.flags)
  }

  lemma FlagsSame(a: Flags, b: Flags)
    ensures b + a == b <==> forall f :: f in a ==> f in b && b[f] == a[f]
  {
    if b + a == b {
      forall f | f in a
        ensures f in b && b[f] == a[f]
      {
        assert f in b + a && (b + a)[f] == a[f];
      }
    }
  }

  /** Applying the merge is applying one after the other exactly when the second delta repeats every value
      the first one sets and it also sets. */
  lemma MergeAppliesBothExactly(data: Data, a: Delta, b: Delta)
    ensures Apply(data, Merge(a, b)) == Apply(Apply(data, a), b) <==> Compatible(a, b)
  {
    if a.flags.Some? && b.flags.Some? {
      FlagsSame(a.flags.value, b.flags.value);
    }
  }

  // ---------------------------------------------------------------------------
  // The updater's cache of touched photos
  // ---------------------------------------------------------------------------

  /** All deltas of one photo, merged in the order they came. */
  function Cached(deltas: seq<Delta>): Delta {
    if deltas == [] then EmptyDelta(None)
    else Merge(Cached(deltas[..|deltas| - 1]), deltas[|deltas| - 1])
  }

  function FirstSome<T>(s: seq<Option<T>>): Option<T> {
    if s == [] then None else Or(s[0], FirstSome(s[1..]))
  }

  function LastSome<T>(s: seq<Option<T>>): Option<T> {
    if s == [] then None else Or(s[|s| - 1], LastSome(s[..|s| - 1]))
  }

  function Project<T>(deltas: seq<Delta>, f: Delta -> Option<T>): (r: seq<Option<T>>)
    ensures |r| == |deltas| && forall i :: 0 <= i < |r| ==> r[i] == f(deltas[i])
  {
    seq(|deltas|, i requires 0 <= i < |deltas| => f(deltas[i]))
  }

  lemma {:induction false} FirstSomeSnoc<T>(s: seq<Option<T>>, last: Option<T>)
    ensures FirstSome(s + [last]) == Or(FirstSome(s), last)
  {
    if s == [] {
      assert (s + [last])[1..] == [];
    } else {
      assert (s + [last])[1..] == s[1..] + [last];
      FirstSomeSnoc(s[1..], last);
    }
  }

  /** Caching: the first value of each plain field. */
  lemma {:induction false} CacheKeepsFirst(deltas: seq<Delta>)
    ensures Cached(deltas).tags == FirstSome(Project(deltas, (d: Delta) => d.tags))
    ensures Cached(deltas).geometry == FirstSome(Project(deltas, (d: Delta) => d.geometry))
  {
    if deltas != [] {
      var n := |deltas| - 1;
      var before := deltas[..n];
      CacheKeepsFirst(before);
      FirstSomeSnoc(Project(before, (d: Delta) => d.tags), deltas[n].tags);
      FirstSomeSnoc(Project(before, (d: Delta) => d.geometry), deltas[n].geometry);
      assert Project(deltas, (d: Delta) => d.tags) == Project(before, (d: Delta) => d.tags) + [deltas[n].tags];
      assert Project(deltas, (d: Delta) => d.geometry) == Project(before, (d: Delta) => d.geometry) + [deltas[n].geometry];
    }
  }

  ghost predicate AllFor(deltas: seq<Delta>, id: int) {
    forall i :: 0 <= i < |deltas| ==> deltas[i].id == Some(id)
  }

  /** Applying in order: the last value of each field. */
  lemma {:induction false} AppliedKeepsLast(id: int, data: Data, deltas: seq<Delta>)
    requires AllFor(deltas, id)
    ensures var r := ApplyMine(id, data, deltas);
            && r.tags == LastSome(Project(deltas, (d: Delta) => d.tags)).GetOr(data.tags)
            && r.geometry == LastSome(Project(deltas, (d: Delta) => d.geometry)).GetOr(data.geometry)
            && r.flags == LastSome(Project(deltas, (d: Delta) => d.flags)).GetOr(data.flags)
    decreases |deltas|
  {
    if deltas != [] {
      var n := |deltas| - 1;
      var before := deltas[..n];
      assert deltas == before + [deltas[n]];
      AppliedKeepsLast(id, data, before);
      ApplyMineSnoc(id, data, before, deltas[n]);
      assert Project(deltas, (d: Delta) => d.tags)[..n] == Project(before, (d: Delta) => d.tags);
      assert Project(deltas, (d: Delta) => d.geometry)[..n] == Project(before, (d: Delta) => d.geometry);
      assert Project(deltas, (d: Delta) => d.flags)[..n] == Project(before, (d: Delta) => d.flags);
    }
  }

  /** Flushing the cache stores, for a field, what applying the deltas in order would, exactly when the
      first and the last value given for the field are the same. */
  lemma TagsFlushedExactly(id: int, data: Data, deltas: seq<Delta>)
    requires AllFor(deltas, id)
    ensures var tags := Project(deltas, (d: Delta) => d.tags);
            Apply(data, Cached(deltas)).tags == ApplyMine(id, data, deltas).tags <==>
            FirstSome(tags).GetOr(data.tags) == LastSome(tags).GetOr(data.tags)
  {
    AppliedKeepsLast(id, data, deltas);
    CacheKeepsFirst(deltas);
  }

  lemma GeometryFlushedExactly(id: int, data: Data, deltas: seq<Delta>)
    requires AllFor(deltas, id)
    ensures var geometry := Project(deltas, (d: Delta) => d.geometry);
            Apply(data, Cached(deltas)).geometry == ApplyMine(id, data, deltas).geometry <==>
            FirstSome(geometry).GetOr(data.geometry) == LastSome(geometry).GetOr(data.geometry)
  {
    AppliedKeepsLast(id, data, deltas);
    CacheKeepsFirst(deltas);
  }

  /** The value a delta gives for one flag. */
  function FlagIn(flags: Option<Flags>, f: Flag): Option<int> {
    if flags.Some? then FlagAt(flags.value, f) else None
  }

  function Given(deltas: seq<Delta>, f: Flag): seq<Option<int>> {
    Project(deltas, (d: Delta) => FlagIn(d.flags, f))
  }

  /** Caching: the first value of each flag, over all deltas. */
  lemma {:induction false} CacheKeepsFirstFlag(deltas: seq<Delta>, f: Flag)
    ensures FlagIn(Cached(deltas).flags, f) == FirstSome(Given(deltas, f))
    ensures Cached(deltas).flags.Some? <==> LastSome(Project(deltas, (d: Delta) => d.flags)).Some?
  {
    if deltas != [] {
      var n := |deltas| - 1;
      var before := deltas[..n];
      CacheKeepsFirstFlag(before, f);
      FirstSomeSnoc(Given(before, f), FlagIn(deltas[n].flags, f));
      assert Given(deltas, f) == Given(before, f) + [FlagIn(deltas[n].flags, f)];
      assert Project(deltas, (d: Delta) => d.flags)[..n] == Project(before, (d: Delta) => d.flags);
    }
  }

  lemma FlagByFlag(a: Flags, b: Flags)
    ensures a == b <==> forall f: Flag :: FlagIn(Some(a), f) == FlagIn(Some(b), f)
  {
    if forall f: Flag :: FlagIn(Some(a), f) == FlagIn(Some(b), f) {
      forall f: Flag
        ensures (f in a <==> f in b) && (f in a && f in b ==> a[f] == b[f])
      {
        assert FlagIn(Some(a), f) == FlagIn(Some(b), f);
      }
      assert a.Keys == b.Keys;
    }
  }

  /** The flags flushed are those that applying the deltas in order would leave, exactly when the last delta with flags
      gives every flag that any of them gave, and with its first value. */
  lemma FlagsFlushedExactly(id: int, data: Data, deltas: seq<Delta>)
    requires AllFor(deltas, id)
    ensures var last := LastSome(Project(deltas, (d: Delta) => d.flags));
            Apply(data, Cached(deltas)).flags == ApplyMine(id, data, deltas).flags <==>
            (last.Some? ==> forall f: Flag :: FirstSome(Given(deltas, f)) == FlagIn(last, f))
  {
    var last := LastSome(Project(deltas, (d: Delta) => d.flags));
    AppliedKeepsLast(id, data, deltas);
    CacheKeepsFirstFlag(deltas, GeometryLoaded);
    if last.Some? {
      var cached := Cached(deltas).flags.value;
      FlagByFlag(cached, last.value);
      forall f: Flag
        ensures FlagIn(Some(cached), f) == FirstSome(Given(deltas, f))
      {
        CacheKeepsFirstFlag(deltas, f);
      }
    }
  }

  // ---------------------------------------------------------------------------
  // The two updates of a new photo
  // ---------------------------------------------------------------------------

  /** What reading the geometry of a photo sends. */
  function GeometryUpdate(photo: Data, size: Size): Delta {
    EmptyDelta(photo.id).(geometry := Some(size), flags := Some(map[GeometryLoaded := 1]))
  }

  /** What collecting tags sends: tags found are added to those the photo had, and all its flags go along. */
  function TagsUpdate(photo: Data, found: Tags): Delta {
    EmptyDelta(photo.id).(tags := Some(found + photo.tags), flags := Some(photo.flags[ExifLoaded := 1]))
  }

  /** Tags the photo had stay as they were, tags found are added, and of the flags only the one for EXIF data changes. */
  lemma TagsUpdateAdds(photo: Data, found: Tags, t: TagType, f: Flag)
    ensures var d := Apply(photo, TagsUpdate(photo, found));
            && TagIn(d.tags, t) == (if t in photo.tags then TagIn(photo.tags, t) else TagIn(found, t))
            && FlagAt(d.flags, f) == (if f == ExifLoaded then Some(1) else FlagAt(photo.flags, f))
  {
  }

  /** The geometry flag survives exactly when the geometry came first, or the photo already had the flag. */
  lemma GeometryFlagKeptExactly(photo: Data, size: Size, found: Tags)
    requires GeometryLoaded in photo.flags
    ensures var g, t := GeometryUpdate(photo, size), TagsUpdate(photo, found);
            && FlagOf(Apply(photo, Merge(g, t)).flags, GeometryLoaded) == 1
            && FlagOf(Apply(photo, Merge(g, t)).flags, ExifLoaded) == 1
            && FlagOf(Apply(photo, Merge(t, g)).flags, ExifLoaded) == 1
            && (FlagOf(Apply(photo, Merge(t, g)).flags, GeometryLoaded) == 1 <==> photo.flags[GeometryLoaded] == 1)
            && Apply(photo, Merge(t, g)).geometry == size == Apply(photo, Merge(g, t)).geometry
            && Apply(photo, Merge(t, g)).tags == Apply(photo, Merge(g, t)).tags == found + photo.tags
  {
  }
}
