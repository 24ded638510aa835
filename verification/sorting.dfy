/** Sort actions: their key list, and the repeated stable sorts that carry them out in memory. */
module Sorting {
  import opened Common
  import opened Photos

  datatype Action =
    | SortByTag(tag: TagType, ascending: bool)
    | SortByTimestamp(ascending: bool)
    | SortByID
    | GroupAction(actions: seq<Action>)

  datatype Key = ByTag(tag: TagType, ascending: bool) | ById

  /** The keys of an action, most significant first; a timestamp is a date and then a time. */
  function Keys(a: Action): seq<Key>
    decreases a, 1
  {
    match a
    case SortByTag(t, asc) => [ByTag(t, asc)]
    case SortByTimestamp(asc) => [ByTag(Date, asc), ByTag(Time, asc)]
    case SortByID => [ById]
    case GroupAction(actions) => AllKeys(actions)
  }

  function AllKeys(actions: seq<Action>): seq<Key>
    decreases actions, 0
  {
    if actions == [] then [] else Keys(actions[0]) + AllKeys(actions[1..])
  }

  // ---------------------------------------------------------------------------
  // Comparing photos
  // ---------------------------------------------------------------------------

  /** A missing tag compares as an empty value. */
  function RawTag(d: Data, t: TagType): string {
    if t in d.tags then d.tags[t] else ""
  }

  predicate KeyLess(k: Key, a: Data, b: Data) {
    match k
    case ByTag(t, true) => StrLess(RawTag(a, t), RawTag(b, t))
    case ByTag(t, false) => StrLess(RawTag(b, t), RawTag(a, t))
    case ById => a.id.GetOr(-1) < b.id.GetOr(-1)
  }

  /** The three-way comparison by tag that the sort uses. */
  function TristateCompare(a: Data, b: Data, t: TagType, ascending: bool): (r: int)
    ensures r < 0 <==> KeyLess(ByTag(t, ascending), a, b)
    ensures r > 0 <==> KeyLess(ByTag(t, ascending), b, a)
    ensures r == 0 <==> RawTag(a, t) == RawTag(b, t)
  {
    var x, y := RawTag(a, t), RawTag(b, t);
    var less := if ascending then StrLess(x, y) else StrLess(y, x);
    var greater := if ascending then StrLess(y, x) else StrLess(x, y);
    StrLessTotal(x, y);
    StrLessIrreflexive(x);
    if StrLess(x, y) && StrLess(y, x) then
      StrLessTransitive(x, y, x);
      0
    else (if less then -1 else 0) + (if greater then 1 else 0)
  }

  /** Lexicographic comparison by a list of keys. */
  predicate LexLess(keys: seq<Key>, a: Data, b: Data) {
    keys != [] && (KeyLess(keys[0], a, b) || (!KeyLess(keys[0], b, a) && LexLess(keys[1..], a, b)))
  }

  lemma {:induction false} LexLessConcat(js: seq<Key>, ks: seq<Key>, a: Data, b: Data)
    ensures LexLess(js + ks, a, b) <==> LexLess(js, a, b) || (!LexLess(js, b, a) && LexLess(ks, a, b))
  {
    if js == [] {
      assert js + ks == ks;
    } else {
      assert (js + ks)[1..] == js[1..] + ks;
      LexLessConcat(js[1..], ks, a, b);
    }
  }

  // ---------------------------------------------------------------------------
  // What actions mean
  // ---------------------------------------------------------------------------

  /** By a tag: the smaller text first, or the greater one; a photo without the tag before all that have a text. */
  lemma TagOrderMeans(t: TagType, a: Data, b: Data)
    ensures LexLess(Keys(SortByTag(t, true)), a, b) <==> StrLess(TagIn(a.tags, t).GetOr(""), TagIn(b.tags, t).GetOr(""))
    ensures LexLess(Keys(SortByTag(t, false)), a, b) <==> LexLess(Keys(SortByTag(t, true)), b, a)
    ensures t !in a.tags && t in b.tags && b.tags[t] != "" ==> LexLess(Keys(SortByTag(t, true)), a, b)
  {
    assert Keys(SortByTag(t, true)) == [ByTag(t, true)] && Keys(SortByTag(t, false)) == [ByTag(t, false)];
    assert [ByTag(t, true)][1..] == [] && [ByTag(t, false)][1..] == [];
  }

  /** By timestamp: the earlier date first and on one date the earlier time, or all of it the other way round. */
  lemma TimestampMeans(a: Data, b: Data)
    ensures LexLess(Keys(SortByTimestamp(true)), a, b) <==>
            || StrLess(RawTag(a, Date), RawTag(b, Date))
            || (RawTag(a, Date) == RawTag(b, Date) && StrLess(RawTag(a, Time), RawTag(b, Time)))
    ensures LexLess(Keys(SortByTimestamp(false)), a, b) <==> LexLess(Keys(SortByTimestamp(true)), b, a)
  {
    OneDateOneTime(true, a, b);
    OneDateOneTime(true, b, a);
    OneDateOneTime(false, a, b);
    StrLessOneWay(RawTag(a, Date), RawTag(b, Date));
  }

  lemma OneDateOneTime(asc: bool, a: Data, b: Data)
    ensures LexLess(Keys(SortByTimestamp(asc)), a, b) <==>
            KeyLess(ByTag(Date, asc), a, b) || (!KeyLess(ByTag(Date, asc), b, a) && KeyLess(ByTag(Time, asc), a, b))
  {
    var keys := Keys(SortByTimestamp(asc));
    var rest := keys[1..];
    assert rest == [ByTag(Time, asc)] && rest[1..] == [];
    assert LexLess(rest, a, b) <==> KeyLess(ByTag(Time, asc), a, b);
  }

  lemma StrLessOneWay(x: string, y: string)
    ensures (StrLess(x, y) && x != y && !StrLess(y, x)) || (x == y && !StrLess(x, y)) || (StrLess(y, x) && x != y && !StrLess(x, y))
  {
    StrLessTotal(x, y);
    StrLessIrreflexive(x);
    if StrLess(x, y) && StrLess(y, x) {
      StrLessTransitive(x, y, x);
    }
  }

  /** By several actions: the first one decides, and the others only where it ties. */
  lemma FirstActionDecides(first: Action, rest: seq<Action>, a: Data, b: Data)
    ensures LexLess(Keys(GroupAction([first] + rest)), a, b) <==>
            LexLess(Keys(first), a, b) || (!LexLess(Keys(first), b, a) && LexLess(Keys(GroupAction(rest)), a, b))
  {
    var actions := [first] + rest;
    assert actions[0] == first && actions[1..] == rest;
    LexLessConcat(Keys(first), AllKeys(rest), a, b);
  }

  lemma KeyLessIrreflexive(k: Key, a: Data)
    ensures !KeyLess(k, a, a)
  {
    if k.ByTag? {
      StrLessIrreflexive(RawTag(a, k.tag));
    }
  }

  lemma StrNotLessTransitive(x: string, y: string, z: string)
    requires !StrLess(x, y) && !StrLess(y, z)
    ensures !StrLess(x, z)
  {
    StrLessTotal(x, y);
    StrLessTotal(y, z);
    if StrLess(x, z) {
      if y == x || y == z {
      } else {
        StrLessTransitive(z, y, x);
        StrLessTransitive(z, x, z);
        StrLessIrreflexive(z);
      }
    }
  }

  lemma KeyNotLessTransitive(k: Key, a: Data, b: Data, c: Data)
    requires !KeyLess(k, a, b) && !KeyLess(k, b, c)
    ensures !KeyLess(k, a, c)
  {
    if k.ByTag? {
      var x, y, z := RawTag(a, k.tag), RawTag(b, k.tag), RawTag(c, k.tag);
      if k.ascending {
        StrNotLessTransitive(x, y, z);
      } else {
        StrNotLessTransitive(z, y, x);
      }
    }
  }

  // ---------------------------------------------------------------------------
  // What sorting has to achieve
  // ---------------------------------------------------------------------------

  function Index(s: seq<Data>, x: Data): (i: nat)
    requires x in s
    ensures i < |s| && s[i] == x
  {
    if s[0] == x then 0 else 1 + Index(s[1..], x)
  }

  /** a comes before b: smaller by the keys, or tied and earlier in the input. */
  ghost predicate Before(keys: seq<Key>, input: seq<Data>, a: Data, b: Data)
    requires a in input && b in input
  {
    LexLess(keys, a, b) || (!LexLess(keys, b, a) && Index(input, a) < Index(input, b))
  }

  ghost predicate SamePhotos(input: seq<Data>, output: seq<Data>) {
    && |output| == |input|
    && multiset(output) == multiset(input)
    && forall x :: x in output <==> x in input
  }

  /** output is input rearranged by the keys, with ties left in input order. */
  ghost predicate SortedBy(keys: seq<Key>, input: seq<Data>, output: seq<Data>) {
    && SamePhotos(input, output)
    && forall i, j :: 0 <= i < j < |output| ==> Before(keys, input, output[i], output[j])
  }

  lemma IndexOf(s: seq<Data>, i: nat)
    requires i < |s| && Distinct(s)
    ensures Index(s, s[i]) == i
  {
  }

  /** Sorting by later keys first and by earlier keys afterwards sorts by all of them. */
  lemma SortsCompose(js: seq<Key>, ks: seq<Key>, input: seq<Data>, middle: seq<Data>, output: seq<Data>)
    requires Distinct(middle)
    requires SortedBy(ks, input, middle) && SortedBy(js, middle, output)
    ensures SortedBy(js + ks, input, output)
  {
    forall i, j | 0 <= i < j < |output|
      ensures Before(js + ks, input, output[i], output[j])
    {
      var a, b := output[i], output[j];
      assert Before(js, middle, a, b);
      LexLessConcat(js, ks, a, b);
      LexLessConcat(js, ks, b, a);
      if !LexLess(js, a, b) {
        assert middle[Index(middle, a)] == a && middle[Index(middle, b)] == b;
      }
    }
  }

  lemma SortedByNothing(input: seq<Data>)
    requires Distinct(input)
    ensures SortedBy([], input, input)
  {
    forall i, j | 0 <= i < j < |input|
      ensures Before([], input, input[i], input[j])
    {
      IndexOf(input, i);
      IndexOf(input, j);
    }
  }

  lemma {:induction false} LexLessIrreflexive(keys: seq<Key>, a: Data)
    ensures !LexLess(keys, a, a)
  {
    if keys != [] {
      KeyLessIrreflexive(keys[0], a);
      LexLessIrreflexive(keys[1..], a);
    }
  }

  lemma SortedIsDistinct(keys: seq<Key>, input: seq<Data>, output: seq<Data>)
    requires SortedBy(keys, input, output)
    ensures Distinct(output)
  {
    forall i, j | 0 <= i < j < |output|
      ensures output[i] != output[j]
    {
      assert Before(keys, input, output[i], output[j]);
      LexLessIrreflexive(keys, output[i]);
    }
  }

  // ---------------------------------------------------------------------------
  // A stable sort by one key
  // ---------------------------------------------------------------------------

  function Insert(k: Key, x: Data, s: seq<Data>): seq<Data> {
    if s == [] || !KeyLess(k, s[0], x) then [x] + s else [s[0]] + Insert(k, x, s[1..])
  }

  function StableSort(k: Key, s: seq<Data>): seq<Data> {
    if s == [] then [] else Insert(k, s[0], StableSort(k, s[1..]))
  }

  lemma {:induction false} InsertSame(k: Key, x: Data, s: seq<Data>)
    ensures SamePhotos([x] + s, Insert(k, x, s))
  {
    if s != [] && KeyLess(k, s[0], x) {
      InsertSame(k, x, s[1..]);
      assert s == [s[0]] + s[1..];
      assert multiset([x] + s) == multiset([x]) + multiset([s[0]]) + multiset(s[1..]);
      assert multiset(Insert(k, x, s)) == multiset([s[0]]) + multiset(Insert(k, x, s[1..]));
    }
  }

  ghost predicate Ascending(k: Key, s: seq<Data>) {
    forall i, j :: 0 <= i < j < |s| ==> !KeyLess(k, s[j], s[i])
  }

  /** x goes in front of the elements that are not smaller, all others keep their order. */
  lemma {:induction false} InsertPlace(k: Key, x: Data, s: seq<Data>) returns (p: nat)
    requires Ascending(k, s)
    ensures p <= |s| && Insert(k, x, s) == s[..p] + [x] + s[p..]
    ensures forall i :: 0 <= i < p ==> KeyLess(k, s[i], x)
    ensures forall i :: p <= i < |s| ==> !KeyLess(k, s[i], x)
  {
    if s == [] || !KeyLess(k, s[0], x) {
      p := 0;
      forall i | 0 <= i < |s|
        ensures !KeyLess(k, s[i], x)
      {
        if i > 0 {
          KeyNotLessTransitive(k, s[i], s[0], x);
        }
      }
    } else {
      var q := InsertPlace(k, x, s[1..]);
      p := q + 1;
      assert s[..p] == [s[0]] + s[1..][..q] && s[p..] == s[1..][q..];
    }
  }

  lemma {:induction false} StableSortAscending(k: Key, s: seq<Data>)
    ensures Ascending(k, StableSort(k, s)) && SamePhotos(s, StableSort(k, s))
  {
    if s != [] {
      var rest := StableSort(k, s[1..]);
      StableSortAscending(k, s[1..]);
      InsertSame(k, s[0], rest);
      assert s == [s[0]] + s[1..];
      var p := InsertPlace(k, s[0], rest);
      forall i, j | 0 <= i < j < |s|
        ensures !KeyLess(k, StableSort(k, s)[j], StableSort(k, s)[i])
      {
        AscendingAfterInsert(k, s[0], rest, p, i, j);
      }
    }
  }

  lemma AscendingAfterInsert(k: Key, x: Data, rest: seq<Data>, p: nat, i: nat, j: nat)
    requires Ascending(k, rest) && p <= |rest| && i < j <= |rest|
    requires forall m :: 0 <= m < p ==> KeyLess(k, rest[m], x)
    requires forall m :: p <= m < |rest| ==> !KeyLess(k, rest[m], x)
    ensures var out := rest[..p] + [x] + rest[p..]; !KeyLess(k, out[j], out[i])
  {
    if j == p {
      KeyLessAsymmetric(k, rest[i], x);
    }
  }

  lemma KeyLessAsymmetric(k: Key, a: Data, b: Data)
    requires KeyLess(k, a, b)
    ensures !KeyLess(k, b, a)
  {
    if k.ByTag? && KeyLess(k, b, a) {
      var x, y := RawTag(a, k.tag), RawTag(b, k.tag);
      StrLessIrreflexive(x);
      if k.ascending {
        StrLessTransitive(x, y, x);
      } else {
        StrLessTransitive(x, y, x);
      }
    }
  }

  /** Sorting by one key, keeping ties in place, is what the specification asks for one key. */
  lemma {:induction false} StableSortCorrect(k: Key, s: seq<Data>)
    requires Distinct(s)
    ensures SortedBy([k], s, StableSort(k, s))
  {
    StableSortAscending(k, s);
    if s != [] {
      var rest := StableSort(k, s[1..]);
      StableSortCorrect(k, s[1..]);
      StableSortAscending(k, s[1..]);
      var p := InsertPlace(k, s[0], rest);
      var out := StableSort(k, s);
      forall i, j | 0 <= i < j < |out|
        ensures Before([k], s, out[i], out[j])
      {
        BeforeAfterInsert(k, s, rest, p, i, j);
      }
    }
  }

  lemma BeforeAfterInsert(k: Key, s: seq<Data>, rest: seq<Data>, p: nat, i: nat, j: nat)
    requires Distinct(s) && s != [] && SortedBy([k], s[1..], rest)
    requires p <= |rest| && i < j <= |rest|
    requires forall m :: 0 <= m < p ==> KeyLess(k, rest[m], s[0])
    requires forall m :: p <= m < |rest| ==> !KeyLess(k, rest[m], s[0])
    ensures var out := rest[..p] + [s[0]] + rest[p..];
            out[i] in s && out[j] in s && Before([k], s, out[i], out[j])
  {
    var out := rest[..p] + [s[0]] + rest[p..];
    if i != p && j != p {
      var a, b := if i < p then i else i - 1, if j < p then j else j - 1;
      assert out[i] == rest[a] && out[j] == rest[b];
      assert Before([k], s[1..], rest[a], rest[b]);
      IndexInTail(s, rest[a]);
      IndexInTail(s, rest[b]);
    } else if i == p {
      assert out[j] == rest[j - 1] && rest[j - 1] in s[1..];
      IndexInTail(s, rest[j - 1]);
      assert !KeyLess(k, out[j], out[i]);
    } else {
      assert out[i] == rest[i] && rest[i] in s[1..];
      IndexInTail(s, rest[i]);
      assert KeyLess(k, out[i], out[j]);
    }
  }

  lemma IndexInTail(s: seq<Data>, x: Data)
    requires Distinct(s) && s != [] && x in s[1..]
    ensures x in s && Index(s, x) == 1 + Index(s[1..], x) && Index(s, s[0]) == 0
  {
  }

  // ---------------------------------------------------------------------------
  // The memory backend's sort
  // ---------------------------------------------------------------------------

  method SortInPlace(photos: array<Data>, k: Key)
    modifies photos
    ensures photos[..] == StableSort(k, old(photos[..]))
  {
    ghost var was := photos[..];
    StableSortAscending(k, was);
    var sorted := StableSort(k, photos[..]);
    forall i | 0 <= i < photos.Length {
      photos[i] := sorted[i];
    }
  }

  /** The photos come from a set keyed by id. */
  ghost predicate DistinctIds(s: seq<Data>) {
    Distinct(s) && forall x, y :: x in s && y in s && x.id == y.id ==> x == y
  }

  /** Runs an action as stable sorts, the least significant one first.
      Sorting by id needs no stability, as no two photos share one. */
  method OnPhotos(photos: array<Data>, action: Action)
    requires DistinctIds(photos[..])
    modifies photos
    ensures SortedBy(Keys(action), old(photos[..]), photos[..])
    decreases action
  {
    ghost var input := photos[..];
    match action
    case SortByTag(t, asc) =>
      SortInPlace(photos, ByTag(t, asc));
      StableSortCorrect(ByTag(t, asc), input);
    case SortByTimestamp(asc) =>
      SortInPlace(photos, ByTag(Time, asc));
      StableSortCorrect(ByTag(Time, asc), input);
      ghost var middle := photos[..];
      SortedIsDistinct([ByTag(Time, asc)], input, middle);
      SortInPlace(photos, ByTag(Date, asc));
      StableSortCorrect(ByTag(Date, asc), middle);
      SortsCompose([ByTag(Date, asc)], [ByTag(Time, asc)], input, middle, photos[..]);
      assert [ByTag(Date, asc)] + [ByTag(Time, asc)] == Keys(action);
    case SortByID =>
      SortInPlace(photos, ById);
      StableSortCorrect(ById, input);
    case GroupAction(actions) =>
      var i := |actions|;
      SortedByNothing(input);
      while i > 0
        invariant 0 <= i <= |actions|
        invariant SortedBy(AllKeys(actions[i..]), input, photos[..])
      {
        i := i - 1;
        ghost var middle := photos[..];
        SortedIsDistinct(AllKeys(actions[i + 1..]), input, middle);
        OnPhotos(photos, actions[i]);
        SortsCompose(Keys(actions[i]), AllKeys(actions[i + 1..]), input, middle, photos[..]);
        assert actions[i..][1..] == actions[i + 1..];
      }
      assert actions[0..] == actions;
  }
}
