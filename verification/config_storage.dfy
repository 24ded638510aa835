/** Configuration keys such as a::b::c, written into nested objects and read back. */
module ConfigStorage {
  import opened Common

  datatype Json<V> = Scalar(value: V) | Object(fields: map<string, Json<V>>)

  // ---------------------------------------------------------------------------
  // Splitting keys and joining names
  // ---------------------------------------------------------------------------

  predicate StartsWithSeparator(s: string) {
    |s| >= 2 && s[0] == ':' && s[1] == ':'
  }

  /** The text before the first separator; all of it when there is none. */
  function FirstSegment(s: string): (r: string)
    ensures |r| <= |s| && r == s[..|r|]
    ensures |r| < |s| ==> StartsWithSeparator(s[|r|..])
  {
    if s == "" || StartsWithSeparator(s) then "" else [s[0]] + FirstSegment(s[1..])
  }

  function SplitKey(s: string): (segments: seq<string>)
    ensures segments != []
    decreases |s|
  {
    var first := FirstSegment(s);
    if |first| == |s| then [s] else [first] + SplitKey(s[|first| + 2..])
  }

  function Join(segments: seq<string>): string
    requires segments != []
  {
    if |segments| == 1 then segments[0] else segments[0] + "::" + Join(segments[1..])
  }

  lemma AroundSeparator(s: string, n: nat)
    requires n <= |s| && StartsWithSeparator(s[n..])
    ensures s == s[..n] + "::" + s[n + 2..]
  {
    assert s[n..n + 2] == "::";
    assert s == s[..n] + s[n..n + 2] + s[n + 2..];
  }

  lemma {:induction false} JoinSplit(s: string)
    ensures Join(SplitKey(s)) == s
    decreases |s|
  {
    var first := FirstSegment(s);
    if |first| < |s| {
      var rest := s[|first| + 2..];
      JoinSplit(rest);
      assert SplitKey(s) == [first] + SplitKey(rest);
      assert Join(SplitKey(s)) == first + "::" + rest;
      AroundSeparator(s, |first|);
    }
  }

  /** The name an entry gets below a namespace. */
  function Under(namespace: string, name: string): string {
    if namespace == "" then name else namespace + "::" + name
  }

  /** The name a nested entry is read under. */
  function Named(namespace: string, path: seq<string>): string
    decreases |path|
  {
    if path == [] then namespace else Named(Under(namespace, path[0]), path[1..])
  }

  lemma {:induction false} NamedJoins(namespace: string, path: seq<string>)
    requires namespace != "" && path != []
    ensures Named(namespace, path) == namespace + "::" + Join(path)
    decreases |path|
  {
    if |path| > 1 {
      NamedJoins(Under(namespace, path[0]), path[1..]);
      assert namespace + "::" + path[0] + "::" + Join(path[1..]) == namespace + "::" + (path[0] + "::" + Join(path[1..]));
    } else {
      assert path[1..] == [];
    }
  }

  lemma NamedFromRoot(path: seq<string>)
    requires path != [] && (|path| == 1 || path[0] != "")
    ensures Named("", path) == Join(path)
  {
    if |path| > 1 {
      NamedJoins(path[0], path[1..]);
    } else {
      assert path[1..] == [];
    }
  }

  /** A segment holds no separator and, unless it is the last, does not end with half of one. */
  predicate CleanSegment(s: string, last: bool) {
    !StartsWithSeparator(if last then s else s + ":") && (s != "" ==> CleanSegment(s[1..], last))
  }

  predicate Clean(segments: seq<string>) {
    if segments == [] then true
    else CleanSegment(segments[0], |segments| == 1) && Clean(segments[1..])
  }

  lemma {:induction false} FirstSegmentClean(s: string)
    ensures CleanSegment(FirstSegment(s), |FirstSegment(s)| == |s|)
  {
    var first := FirstSegment(s);
    if s != "" && !StartsWithSeparator(s) {
      FirstSegmentClean(s[1..]);
      assert first[1..] == FirstSegment(s[1..]);
      if |first| < |s| {
        assert s[..|first| + 1] == first + [s[|first|]];
        assert s[|first|] == ':';
        assert (first + ":")[0] == s[0] && (first + ":")[1] == s[1];
      }
    }
  }

  lemma {:induction false} SplitClean(s: string)
    ensures Clean(SplitKey(s))
    decreases |s|
  {
    var first := FirstSegment(s);
    FirstSegmentClean(s);
    if |first| < |s| {
      var rest := s[|first| + 2..];
      SplitClean(rest);
      assert SplitKey(s)[0] == first && SplitKey(s)[1..] == SplitKey(rest);
    } else {
      assert first == s && SplitKey(s) == [s];
    }
  }

  lemma {:induction false} FirstSegmentFound(segment: string, rest: string)
    requires CleanSegment(segment, false)
    ensures FirstSegment(segment + "::" + rest) == segment
  {
    var s := segment + "::" + rest;
    if segment != "" {
      assert s[1..] == segment[1..] + "::" + rest;
      assert s[0] == (segment + ":")[0] && s[1] == (segment + ":")[1];
      FirstSegmentFound(segment[1..], rest);
      assert segment == [segment[0]] + segment[1..];
    }
  }

  lemma {:induction false} WholeSegment(s: string)
    requires CleanSegment(s, true)
    ensures FirstSegment(s) == s
  {
    if s != "" {
      WholeSegment(s[1..]);
      assert s == [s[0]] + s[1..];
    }
  }

  lemma SplitAfter(segment: string, rest: string)
    requires FirstSegment(segment + "::" + rest) == segment
    ensures SplitKey(segment + "::" + rest) == [segment] + SplitKey(rest)
  {
    var s := segment + "::" + rest;
    assert s[|segment| + 2..] == rest;
  }

  /** Splitting is the one way to take a key apart into such segments. */
  lemma {:induction false} SplitUnique(segments: seq<string>)
    requires segments != [] && Clean(segments)
    ensures SplitKey(Join(segments)) == segments
    decreases |segments|
  {
    if |segments| == 1 {
      WholeSegment(segments[0]);
    } else {
      SplitUnique(segments[1..]);
      FirstSegmentFound(segments[0], Join(segments[1..]));
      SplitAfter(segments[0], Join(segments[1..]));
    }
  }

  /** A name that is read never starts with a separator. */
  lemma {:induction false} NameStartsPlainly(segments: seq<string>)
    requires segments != [] && Clean(segments)
    ensures !StartsWithSeparator(Named("", segments))
    decreases |segments|
  {
    if |segments| == 1 {
      NamedFromRoot(segments);
    } else if segments[0] == "" {
      NameStartsPlainly(segments[1..]);
    } else {
      NamedFromRoot(segments);
      var first := segments[0];
      assert Named("", segments) == first + "::" + Join(segments[1..]);
      assert !StartsWithSeparator(first + ":");
      assert (first + ":")[0] == Named("", segments)[0] && (first + ":")[1] == Named("", segments)[1];
    }
  }

  lemma SeparatorMeansEmptyFirst(key: string)
    ensures StartsWithSeparator(key) <==> |SplitKey(key)| > 1 && SplitKey(key)[0] == ""
  {
  }

  /** A key is read under its own name exactly when it does not start with a separator. */
  lemma NameRoundTrip(key: string)
    ensures Named("", SplitKey(key)) == key <==> !StartsWithSeparator(key)
  {
    SeparatorMeansEmptyFirst(key);
    if StartsWithSeparator(key) {
      SplitClean(key);
      NameStartsPlainly(SplitKey(key));
    } else {
      NamedFromRoot(SplitKey(key));
      JoinSplit(key);
    }
  }

  // ---------------------------------------------------------------------------
  // Writing
  // ---------------------------------------------------------------------------

  /** The value found at the end of a path. */
  function At<V>(fields: map<string, Json<V>>, path: seq<string>): Option<V>
    requires path != []
    decreases |path|
  {
    if path[0] !in fields then None
    else match fields[path[0]]
      case Scalar(v) => if |path| == 1 then Some(v) else None
      case Object(sub) => if |path| == 1 then None else At(sub, path[1..])
  }

  function SubObject<V>(fields: map<string, Json<V>>, name: string): map<string, Json<V>> {
    if name in fields && fields[name].Object? then fields[name].fields else map[]
  }

  function WriteTo<V>(fields: map<string, Json<V>>, path: seq<string>, value: V): map<string, Json<V>>
    requires path != []
    decreases |path|
  {
    if |path| == 1 then fields[path[0] := Scalar(value)]
    else fields[path[0] := Object(WriteTo(SubObject(fields, path[0]), path[1..], value))]
  }

  predicate Related(p: seq<string>, q: seq<string>) {
    p <= q || q <= p
  }

  lemma RelatedHeads(p: seq<string>, q: seq<string>)
    requires p != [] && q != [] && p[0] == q[0]
    ensures Related(p, q) <==> |p| == 1 || |q| == 1 || Related(p[1..], q[1..])
  {
    assert p == [p[0]] + p[1..] && q == [q[0]] + q[1..];
  }

  lemma {:induction false} WrittenIsFound<V>(fields: map<string, Json<V>>, path: seq<string>, value: V)
    requires path != []
    ensures At(WriteTo(fields, path, value), path) == Some(value)
    decreases |path|
  {
    if |path| > 1 {
      WrittenIsFound(SubObject(fields, path[0]), path[1..], value);
    }
  }

  lemma {:induction false} OthersAreFound<V>(fields: map<string, Json<V>>, path: seq<string>, value: V, other: seq<string>)
    requires path != [] && other != [] && !Related(path, other)
    ensures At(WriteTo(fields, path, value), other) == At(fields, other)
    decreases |path|
  {
    if path[0] == other[0] {
      RelatedHeads(path, other);
      OthersAreFound(SubObject(fields, path[0]), path[1..], value, other[1..]);
    }
  }

  /** Nothing is found below or above a path that was written. */
  lemma {:induction false} RelatedAreHidden<V>(fields: map<string, Json<V>>, path: seq<string>, value: V, other: seq<string>)
    requires path != [] && other != [] && Related(path, other) && path != other
    ensures At(WriteTo(fields, path, value), other) == None
    decreases |path|
  {
    assert path[0] == other[0];
    if |path| > 1 && |other| > 1 {
      RelatedHeads(path, other);
      assert path == [path[0]] + path[1..] && other == [other[0]] + other[1..];
      RelatedAreHidden(SubObject(fields, path[0]), path[1..], value, other[1..]);
    }
  }

  /** A write changes only the entry named by the first segment. */
  lemma WriteIsLocal<V>(fields: map<string, Json<V>>, path: seq<string>, v: V)
    requires path != []
    ensures path[0] in WriteTo(fields, path, v) && WriteTo(fields, path, v) == fields[path[0] := WriteTo(fields, path, v)[path[0]]]
    ensures forall name :: name != path[0] ==> SubObject(WriteTo(fields, path, v), name) == SubObject(fields, name)
  {
  }

  /** What it makes of that entry depends on the object below it alone. */
  lemma WriteDependsOn<V>(fields: map<string, Json<V>>, others: map<string, Json<V>>, path: seq<string>, v: V)
    requires path != [] && SubObject(fields, path[0]) == SubObject(others, path[0])
    ensures path[0] in WriteTo(fields, path, v) && path[0] in WriteTo(others, path, v)
    ensures WriteTo(fields, path, v)[path[0]] == WriteTo(others, path, v)[path[0]]
  {
  }

  lemma HeadsCommute<V>(fields: map<string, Json<V>>, p: seq<string>, v: V, q: seq<string>, w: V)
    requires p != [] && q != [] && p[0] != q[0]
    ensures WriteTo(WriteTo(fields, p, v), q, w) == WriteTo(WriteTo(fields, q, w), p, v)
  {
    var a, b := WriteTo(fields, p, v), WriteTo(fields, q, w);
    WriteIsLocal(fields, p, v);
    WriteIsLocal(fields, q, w);
    WriteIsLocal(a, q, w);
    WriteIsLocal(b, p, v);
    WriteDependsOn(fields, a, q, w);
    WriteDependsOn(fields, b, p, v);
  }

  /** Writes at unrelated paths commute. */
  lemma {:induction false} WritesCommute<V>(fields: map<string, Json<V>>, p: seq<string>, v: V, q: seq<string>, w: V)
    requires p != [] && q != [] && !Related(p, q)
    ensures WriteTo(WriteTo(fields, p, v), q, w) == WriteTo(WriteTo(fields, q, w), p, v)
    decreases |p|
  {
    if p[0] == q[0] {
      RelatedHeads(p, q);
      WritesCommute(SubObject(fields, p[0]), p[1..], v, q[1..], w);
    } else {
      HeadsCommute(fields, p, v, q, w);
    }
  }

  // ---------------------------------------------------------------------------
  // A whole configuration
  // ---------------------------------------------------------------------------

  /** What writing asserts: no key's segments are a proper prefix of another's. */
  ghost predicate PrefixFree<V>(config: map<string, V>) {
    forall a, b :: a in config && b in config && a != b ==> !Related(SplitKey(a), SplitKey(b))
  }

  function WriteAll<V>(fields: map<string, Json<V>>, config: map<string, V>, keys: seq<string>): map<string, Json<V>>
    requires forall k :: k in keys ==> k in config
    decreases |keys|
  {
    if keys == [] then fields else WriteAll(WriteTo(fields, SplitKey(keys[0]), config[keys[0]]), config, keys[1..])
  }

  lemma {:induction false} WriteAllSnoc<V>(fields: map<string, Json<V>>, config: map<string, V>, keys: seq<string>, last: string)
    requires last in config && forall k :: k in keys ==> k in config
    ensures forall k :: k in keys + [last] ==> k in config
    ensures WriteAll(fields, config, keys + [last]) == WriteTo(WriteAll(fields, config, keys), SplitKey(last), config[last])
    decreases |keys|
  {
    if keys == [] {
      assert (keys + [last])[1..] == [];
    } else {
      assert (keys + [last])[1..] == keys[1..] + [last];
      WriteAllSnoc(WriteTo(fields, SplitKey(keys[0]), config[keys[0]]), config, keys[1..], last);
    }
  }

  lemma SkipLater(keys: seq<string>, i: nat)
    requires 0 < i < |keys|
    ensures var rest, tail := Without(keys, i), keys[1..];
            tail[i - 1] == keys[i] && rest[0] == keys[0] && rest[1..] == tail[..i - 1] + tail[i..]
  {
  }

  /** Any key can be written first. */
  lemma {:induction false} WriteFirst<V>(fields: map<string, Json<V>>, config: map<string, V>, keys: seq<string>, i: nat)
    requires PrefixFree(config) && Distinct(keys) && i < |keys| && forall k :: k in keys ==> k in config
    ensures forall k :: k in Without(keys, i) ==> k in config
    ensures WriteAll(fields, config, keys)
         == WriteAll(WriteTo(fields, SplitKey(keys[i]), config[keys[i]]), config, Without(keys, i))
    decreases |keys|
  {
    var rest := Without(keys, i);
    if i == 0 {
      assert rest == keys[1..];
    } else {
      var head, tail := keys[0], keys[1..];
      SkipLater(keys, i);
      WriteFirst(WriteTo(fields, SplitKey(head), config[head]), config, tail, i - 1);
      WritesCommute(fields, SplitKey(head), config[head], SplitKey(keys[i]), config[keys[i]]);
    }
  }

  lemma StillDistinct(s: seq<string>, i: nat)
    requires i < |s| && Distinct(s)
    ensures Distinct(Without(s, i))
  {
  }

  /** The object built does not depend on the order in which the keys are written. */
  lemma {:induction false} OrderDoesNotMatter<V>(fields: map<string, Json<V>>, config: map<string, V>, a: seq<string>, b: seq<string>)
    requires PrefixFree(config) && Distinct(a) && Distinct(b) && multiset(a) == multiset(b)
    requires (forall k :: k in a ==> k in config) && forall k :: k in b ==> k in config
    ensures WriteAll(fields, config, a) == WriteAll(fields, config, b)
    decreases |a|
  {
    if a == [] {
      assert |multiset(b)| == 0;
    } else {
      assert a[0] in multiset(b);
      var i :| 0 <= i < |b| && b[i] == a[0];
      WriteFirst(fields, config, b, i);
      var rest := Without(b, i);
      HeadAndTail(a);
      TakenOut(b, i);
      StillDistinct(b, i);
      OrderDoesNotMatter(WriteTo(fields, SplitKey(a[0]), config[a[0]]), config, a[1..], rest);
    }
  }

  /** The scalars of the object are exactly the values of these keys, each at its own path. */
  ghost predicate Stores<V(!new)>(fields: map<string, Json<V>>, config: map<string, V>, keys: set<string>)
    requires keys <= config.Keys
  {
    && (forall k :: k in keys ==> At(fields, SplitKey(k)) == Some(config[k]))
    && (forall path :: path != [] && At(fields, path).Some? ==> exists k :: k in keys && SplitKey(k) == path)
  }

  lemma StoresOneMore<V(!new)>(fields: map<string, Json<V>>, config: map<string, V>, keys: set<string>, key: string)
    requires PrefixFree(config) && keys <= config.Keys && key in config && key !in keys && Stores(fields, config, keys)
    ensures Stores(WriteTo(fields, SplitKey(key), config[key]), config, keys + {key})
  {
    var path, next := SplitKey(key), WriteTo(fields, SplitKey(key), config[key]);
    WrittenIsFound(fields, path, config[key]);
    forall k | k in keys
      ensures At(next, SplitKey(k)) == Some(config[k])
    {
      OthersAreFound(fields, path, config[key], SplitKey(k));
    }
    forall other | other != [] && At(next, other).Some?
      ensures exists k :: k in keys + {key} && SplitKey(k) == other
    {
      if other == path {
        assert key in keys + {key};
      } else {
        if Related(path, other) {
          RelatedAreHidden(fields, path, config[key], other);
        }
        OthersAreFound(fields, path, config[key], other);
        var k :| k in keys && SplitKey(k) == other;
        assert k in keys + {key};
      }
    }
  }

  /** These keys, in some order. */
  ghost predicate Enumerates<V>(order: seq<string>, keys: set<string>, config: map<string, V>) {
    Distinct(order) && multiset(order) == multiset(keys) && forall k :: k in order ==> k in config
  }

  lemma EnumeratesOneMore<V>(order: seq<string>, keys: set<string>, config: map<string, V>, key: string)
    requires Enumerates(order, keys, config) && key !in keys && key in config
    ensures Enumerates(order + [key], keys + {key}, config)
  {
    assert multiset(keys + {key}) == multiset(keys) + multiset{key};
    assert key !in multiset(order);
  }

  /** One round: the key is written, whatever was written before. */
  lemma SavesOneMore<V(!new)>(fields: map<string, Json<V>>, config: map<string, V>, order: seq<string>, keys: set<string>, key: string)
    requires PrefixFree(config) && keys <= config.Keys && key in config && key !in keys
    requires Enumerates(order, keys, config) && Stores(fields, config, keys) && fields == WriteAll(map[], config, order)
    ensures var next := WriteTo(fields, SplitKey(key), config[key]);
            && Enumerates(order + [key], keys + {key}, config)
            && Stores(next, config, keys + {key}) && next == WriteAll(map[], config, order + [key])
  {
    EnumeratesOneMore(order, keys, config, key);
    StoresOneMore(fields, config, keys, key);
    WriteAllSnoc(map[], config, order, key);
  }

  /** The loop over the configuration; its order is not known. */
  method Save<V(!new)>(config: map<string, V>) returns (fields: map<string, Json<V>>, ghost order: seq<string>)
    requires PrefixFree(config)
    ensures Stores(fields, config, config.Keys)
    ensures Enumerates(order, config.Keys, config) && fields == WriteAll(map[], config, order)
  {
    fields, order := map[], [];
    var done: set<string> := {};
    while done != config.Keys
      invariant done <= config.Keys
      invariant Enumerates(order, done, config) && Stores(fields, config, done) && fields == WriteAll(map[], config, order)
      decreases |config.Keys - done|
    {
      var key :| key in config.Keys - done;
      SavesOneMore(fields, config, order, done, key);
      fields := WriteTo(fields, SplitKey(key), config[key]);
      assert config.Keys - (done + {key}) < config.Keys - done;
      done := done + {key};
      order := order + [key];
    }
  }

  // ---------------------------------------------------------------------------
  // Reading
  // ---------------------------------------------------------------------------

  /** Each scalar is read under its name, and everything read is a scalar under its name. */
  ghost predicate ReadsAll<V(!new)>(fields: map<string, Json<V>>, names: set<string>, namespace: string, content: map<string, V>) {
    && (forall path :: path != [] && path[0] in names && At(fields, path).Some? ==> Named(namespace, path) in content)
    && (forall name :: name in content ==> IsRead(fields, namespace, name, content[name]))
  }

  ghost predicate IsRead<V(!new)>(fields: map<string, Json<V>>, namespace: string, name: string, value: V) {
    exists path :: path != [] && At(fields, path) == Some(value) && Named(namespace, path) == name
  }

  lemma ReadBelow<V(!new)>(fields: map<string, Json<V>>, entry: string, namespace: string, name: string, value: V)
    requires entry in fields && fields[entry].Object?
    requires IsRead(fields[entry].fields, Under(namespace, entry), name, value)
    ensures IsRead(fields, namespace, name, value)
  {
    var path :| path != [] && At(fields[entry].fields, path) == Some(value) && Named(Under(namespace, entry), path) == name;
    var longer := [entry] + path;
    assert longer[1..] == path;
    assert At(fields, longer) == Some(value) && Named(namespace, longer) == name;
  }

  lemma ReadHere<V(!new)>(fields: map<string, Json<V>>, entry: string, namespace: string)
    requires entry in fields && fields[entry].Scalar?
    ensures IsRead(fields, namespace, Under(namespace, entry), fields[entry].value)
  {
    assert [entry][1..] == [];
    assert At(fields, [entry]) == Some(fields[entry].value) && Named(namespace, [entry]) == Under(namespace, entry);
  }

  /** Entries already present are kept, as inserting into a map does. */
  method ReadNode<V(!new)>(obj: Json<V>, namespace: string) returns (content: map<string, V>)
    requires obj.Object?
    ensures ReadsAll(obj.fields, obj.fields.Keys, namespace, content)
    decreases obj
  {
    content := map[];
    var todo := obj.fields.Keys;
    while todo != {}
      invariant todo <= obj.fields.Keys
      invariant ReadsAll(obj.fields, obj.fields.Keys - todo, namespace, content)
      decreases |todo|
    {
      var name :| name in todo;
      var below := Under(namespace, name);
      var was := content;
      match obj.fields[name] {
        case Object(_) =>
          var sub := ReadNode(obj.fields[name], below);
          content := sub + content;
          MergedReads(obj.fields, obj.fields.Keys - todo, name, namespace, was, sub);
        case Scalar(value) =>
          if below !in content {
            content := content[below := value];
          }
          ScalarReads(obj.fields, obj.fields.Keys - todo, name, namespace, was);
      }
      todo := todo - {name};
      assert obj.fields.Keys - todo == (obj.fields.Keys - (todo + {name})) + {name};
    }
    assert obj.fields.Keys - todo == obj.fields.Keys;
  }

  lemma MergedReads<V(!new)>(fields: map<string, Json<V>>, names: set<string>, entry: string, namespace: string,
                             was: map<string, V>, sub: map<string, V>)
    requires entry in fields && fields[entry].Object? && ReadsAll(fields, names, namespace, was)
    requires ReadsAll(fields[entry].fields, fields[entry].fields.Keys, Under(namespace, entry), sub)
    ensures ReadsAll(fields, names + {entry}, namespace, sub + was)
  {
    forall path | path != [] && path[0] in names + {entry} && At(fields, path).Some?
      ensures Named(namespace, path) in sub + was
    {
      if path[0] == entry {
        assert At(fields[entry].fields, path[1..]).Some? && path[1..] != [] && path[1..][0] in fields[entry].fields;
      }
    }
    forall name | name in sub + was
      ensures IsRead(fields, namespace, name, (sub + was)[name])
    {
      if name !in was {
        ReadBelow(fields, entry, namespace, name, sub[name]);
      }
    }
  }

  lemma ScalarReads<V(!new)>(fields: map<string, Json<V>>, names: set<string>, entry: string, namespace: string, was: map<string, V>)
    requires entry in fields && fields[entry].Scalar? && ReadsAll(fields, names, namespace, was)
    ensures var below := Under(namespace, entry);
            ReadsAll(fields, names + {entry}, namespace, if below in was then was else was[below := fields[entry].value])
  {
    var below := Under(namespace, entry);
    var now := if below in was then was else was[below := fields[entry].value];
    ReadHere(fields, entry, namespace);
    forall path | path != [] && path[0] in names + {entry} && At(fields, path).Some?
      ensures Named(namespace, path) in now
    {
      if path[0] == entry {
        assert path[1..] == [];
      }
    }
  }

  // ---------------------------------------------------------------------------
  // Both
  // ---------------------------------------------------------------------------

  lemma NamesOfStored<V(!new)>(fields: map<string, Json<V>>, config: map<string, V>, content: map<string, V>, name: string) returns (k: string)
    requires Stores(fields, config, config.Keys) && ReadsAll(fields, fields.Keys, "", content) && name in content
    ensures k in config && Named("", SplitKey(k)) == name && config[k] == content[name]
  {
    assert IsRead(fields, "", name, content[name]);
    var path :| path != [] && At(fields, path) == Some(content[name]) && Named("", path) == name;
    k :| k in config.Keys && SplitKey(k) == path;
  }

  lemma StoredIsRead<V(!new)>(fields: map<string, Json<V>>, config: map<string, V>, content: map<string, V>, k: string)
    requires Stores(fields, config, config.Keys) && ReadsAll(fields, fields.Keys, "", content) && k in config
    ensures Named("", SplitKey(k)) in content
  {
    assert At(fields, SplitKey(k)) == Some(config[k]);
    assert SplitKey(k)[0] in fields.Keys;
  }

  lemma NoNameStartsWithSeparator<V(!new)>(fields: map<string, Json<V>>, config: map<string, V>, content: map<string, V>, name: string)
    requires Stores(fields, config, config.Keys) && ReadsAll(fields, fields.Keys, "", content) && name in content
    ensures !StartsWithSeparator(name)
  {
    var k := NamesOfStored(fields, config, content, name);
    SplitClean(k);
    NameStartsPlainly(SplitKey(k));
  }

  lemma NameIsKey<V(!new)>(fields: map<string, Json<V>>, config: map<string, V>, content: map<string, V>, name: string)
    requires Stores(fields, config, config.Keys) && ReadsAll(fields, fields.Keys, "", content) && name in content
    requires forall k :: k in config ==> !StartsWithSeparator(k)
    ensures name in config && content[name] == config[name]
  {
    var k := NamesOfStored(fields, config, content, name);
    NameRoundTrip(k);
  }

  lemma KeyIsName<V(!new)>(fields: map<string, Json<V>>, config: map<string, V>, content: map<string, V>, k: string)
    requires Stores(fields, config, config.Keys) && ReadsAll(fields, fields.Keys, "", content) && k in config
    requires !StartsWithSeparator(k)
    ensures k in content
  {
    NameRoundTrip(k);
    StoredIsRead(fields, config, content, k);
  }

  lemma NamesAreKeys<V(!new)>(fields: map<string, Json<V>>, config: map<string, V>, content: map<string, V>)
    requires Stores(fields, config, config.Keys) && ReadsAll(fields, fields.Keys, "", content)
    requires forall k :: k in config ==> !StartsWithSeparator(k)
    ensures forall name :: name in content ==> name in config && content[name] == config[name]
  {
    forall name | name in content
      ensures name in config && content[name] == config[name]
    {
      NameIsKey(fields, config, content, name);
    }
  }

  lemma KeysAreNames<V(!new)>(fields: map<string, Json<V>>, config: map<string, V>, content: map<string, V>)
    requires Stores(fields, config, config.Keys) && ReadsAll(fields, fields.Keys, "", content)
    requires forall k :: k in config ==> !StartsWithSeparator(k)
    ensures forall k :: k in config ==> k in content
  {
    forall k | k in config
      ensures k in content
    {
      KeyIsName(fields, config, content, k);
    }
  }

  lemma SameEntriesSameMap<V>(a: map<string, V>, b: map<string, V>)
    requires forall k :: k in a ==> k in b && a[k] == b[k]
    requires forall k :: k in b ==> k in a
    ensures a == b
  {
  }

  lemma ReadBackExactly<V(!new)>(fields: map<string, Json<V>>, config: map<string, V>, content: map<string, V>)
    requires Stores(fields, config, config.Keys) && ReadsAll(fields, fields.Keys, "", content)
    ensures content == config <==> forall k :: k in config ==> !StartsWithSeparator(k)
  {
    if k :| k in config && StartsWithSeparator(k) {
      if k in content {
        NoNameStartsWithSeparator(fields, config, content, k);
      }
    } else {
      NamesAreKeys(fields, config, content);
      KeysAreNames(fields, config, content);
      SameEntriesSameMap(content, config);
    }
  }

  /** Saving and loading gives the same configuration exactly when no key starts with a separator. */
  method SaveAndLoad<V(!new)>(config: map<string, V>) returns (loaded: map<string, V>)
    requires PrefixFree(config)
    ensures loaded == config <==> forall k :: k in config ==> !StartsWithSeparator(k)
  {
    var fields, _ := Save(config);
    loaded := ReadNode(Object(fields), "");
    ReadBackExactly(fields, config, loaded);
  }
}
