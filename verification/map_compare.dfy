/** Comparing two ordered maps: what was removed, changed and added. */
module MapCompare {

  /** A map as it is iterated: entries in ascending key order. */
  ghost predicate Ordered<V(!new)>(s: seq<(int, V)>) {
    forall i, j :: 0 <= i < j < |s| ==> s[i].0 < s[j].0
  }

  ghost predicate HasKey<V(!new)>(s: seq<(int, V)>, k: int) {
    exists i :: 0 <= i < |s| && s[i].0 == k
  }

  function ToMap<V(!new)>(s: seq<(int, V)>): map<int, V> {
    if s == [] then map[] else ToMap(s[1..])[s[0].0 := s[0].1]
  }

  lemma {:induction false} ToMapEntries<V(!new)>(s: seq<(int, V)>)
    requires Ordered(s)
    ensures forall k :: k in ToMap(s) <==> HasKey(s, k)
    ensures forall i :: 0 <= i < |s| ==> s[i].0 in ToMap(s) && ToMap(s)[s[i].0] == s[i].1
  {
    if s != [] {
      var rest := s[1..];
      ToMapEntries(rest);
      forall k | k in ToMap(s)
        ensures HasKey(s, k)
      {
        if k != s[0].0 {
          assert k in ToMap(rest);
          assert HasKey(rest, k);
          var i :| 0 <= i < |rest| && rest[i].0 == k;
          assert s[i + 1].0 == k;
        }
      }
      forall i | 0 <= i < |s|
        ensures s[i].0 in ToMap(s) && ToMap(s)[s[i].0] == s[i].1
      {
        if i > 0 {
          assert s[1..][i - 1] == s[i];
        }
      }
    }
  }

  // ---------------------------------------------------------------------------
  // What the three outputs are
  // ---------------------------------------------------------------------------

  /** Entries of l whose key is not in r. */
  ghost predicate OnlyIn<V(!new)>(l: seq<(int, V)>, r: seq<(int, V)>, out: seq<(int, V)>) {
    Ordered(out) && forall x :: x in out <==> x in l && !HasKey(r, x.0)
  }

  /** Keys in both with different values, each with its old and its new value. */
  ghost predicate Differs<V(!new)>(l: seq<(int, V)>, r: seq<(int, V)>, out: seq<(int, V, V)>) {
    && (forall i, j :: 0 <= i < j < |out| ==> out[i].0 < out[j].0)
    && forall c :: c in out <==> (c.0, c.1) in l && (c.0, c.2) in r && c.1 != c.2
  }

  // ---------------------------------------------------------------------------
  // The outputs as functions of the two maps
  // ---------------------------------------------------------------------------

  function MissingFrom<V>(s: seq<(int, V)>, m: map<int, V>): seq<(int, V)> {
    if s == [] then []
    else
      var last := s[|s| - 1];
      MissingFrom(s[..|s| - 1], m) + (if last.0 in m then [] else [last])
  }

  function PresentIn<V>(s: seq<(int, V)>, m: map<int, V>): seq<(int, V)> {
    if s == [] then []
    else
      var last := s[|s| - 1];
      PresentIn(s[..|s| - 1], m) + (if last.0 in m then [last] else [])
  }

  function ChangesTo<V(==)>(s: seq<(int, V)>, m: map<int, V>): seq<(int, V, V)> {
    if s == [] then []
    else
      var last := s[|s| - 1];
      ChangesTo(s[..|s| - 1], m)
      + (if last.0 in m && m[last.0] != last.1 then [(last.0, last.1, m[last.0])] else [])
  }

  lemma {:induction false} MissingIsOnlyIn<V(!new)>(l: seq<(int, V)>, r: seq<(int, V)>)
    requires Ordered(l) && Ordered(r)
    ensures OnlyIn(l, r, MissingFrom(l, ToMap(r)))
  {
    ToMapEntries(r);
    if l != [] {
      var init, last := l[..|l| - 1], l[|l| - 1];
      assert l == init + [last];
      MissingIsOnlyIn(init, r);
      var out := MissingFrom(init, ToMap(r));
      forall a | 0 <= a < |out|
        ensures out[a].0 < last.0
      {
        assert out[a] in init;
      }
    }
  }

  lemma {:induction false} ChangesAreDiffers<V(!new)>(l: seq<(int, V)>, r: seq<(int, V)>)
    requires Ordered(l) && Ordered(r)
    ensures Differs(l, r, ChangesTo(l, ToMap(r)))
  {
    ToMapEntries(r);
    if l != [] {
      var init, last := l[..|l| - 1], l[|l| - 1];
      assert l == init + [last];
      ChangesAreDiffers(init, r);
      var out, m := ChangesTo(init, ToMap(r)), ToMap(r);
      forall a | 0 <= a < |out|
        ensures out[a].0 < last.0
      {
        assert out[a] in out;
        assert (out[a].0, out[a].1) in init;
      }
      forall v: V
        ensures (last.0, v) in r <==> last.0 in m && m[last.0] == v
      {
        if last.0 in m {
          var j :| 0 <= j < |r| && r[j].0 == last.0;
          assert r[j] == (last.0, r[j].1);
        }
      }
    }
  }

  // ---------------------------------------------------------------------------
  // The algorithm: set operations on sorted ranges
  // ---------------------------------------------------------------------------

  lemma NotBetween<V(!new)>(r: seq<(int, V)>, j: int, k: int)
    requires Ordered(r) && 0 <= j <= |r|
    requires j > 0 ==> r[j - 1].0 < k
    requires j < |r| ==> k < r[j].0
    ensures k !in ToMap(r)
  {
    ToMapEntries(r);
  }

  method SetDifference<V(!new)>(l: seq<(int, V)>, r: seq<(int, V)>) returns (out: seq<(int, V)>)
    requires Ordered(l) && Ordered(r)
    ensures out == MissingFrom(l, ToMap(r))
  {
    ToMapEntries(r);
    out := [];
    var i, j := 0, 0;
    while i < |l|
      invariant 0 <= i <= |l| && 0 <= j <= |r|
      invariant out == MissingFrom(l[..i], ToMap(r))
      invariant i < |l| && j > 0 ==> r[j - 1].0 < l[i].0
      decreases |l| - i + |r| - j
    {
      assert l[..i + 1][..i] == l[..i];
      if j == |r| || l[i].0 < r[j].0 {
        NotBetween(r, j, l[i].0);
        out := out + [l[i]];
        i := i + 1;
      } else if r[j].0 < l[i].0 {
        j := j + 1;
      } else {
        i := i + 1;
        j := j + 1;
      }
    }
    assert l[..i] == l;
  }

  method SetIntersection<V(!new)>(l: seq<(int, V)>, r: seq<(int, V)>) returns (out: seq<(int, V)>)
    requires Ordered(l) && Ordered(r)
    ensures out == PresentIn(l, ToMap(r))
  {
    ToMapEntries(r);
    out := [];
    var i, j := 0, 0;
    while i < |l| && j < |r|
      invariant 0 <= i <= |l| && 0 <= j <= |r|
      invariant out == PresentIn(l[..i], ToMap(r))
      invariant i < |l| && j > 0 ==> r[j - 1].0 < l[i].0
      decreases |l| - i + |r| - j
    {
      assert l[..i + 1][..i] == l[..i];
      if l[i].0 < r[j].0 {
        NotBetween(r, j, l[i].0);
        i := i + 1;
      } else if r[j].0 < l[i].0 {
        j := j + 1;
      } else {
        out := out + [l[i]];
        i := i + 1;
        j := j + 1;
      }
    }
    NothingPresentAfter(l, r, i);
  }

  /** Once r is exhausted, larger keys of l are not in it. */
  lemma {:induction false} NothingPresentAfter<V(!new)>(l: seq<(int, V)>, r: seq<(int, V)>, i: int)
    requires Ordered(l) && Ordered(r) && 0 <= i <= |l|
    requires i < |l| ==> forall j :: 0 <= j < |r| ==> r[j].0 < l[i].0
    ensures PresentIn(l, ToMap(r)) == PresentIn(l[..i], ToMap(r))
  {
    if i < |l| {
      var init := l[..|l| - 1];
      NothingPresentAfter(init, r, i);
      assert init[..i] == l[..i];
      NotBetween(r, |r|, l[|l| - 1].0);
    } else {
      assert l[..i] == l;
    }
  }

  /** rhs.find(key), for a key known to be there. */
  method Find<V(!new)>(s: seq<(int, V)>, k: int) returns (v: V)
    requires Ordered(s) && k in ToMap(s)
    ensures v == ToMap(s)[k]
  {
    ToMapEntries(s);
    var i := 0;
    while s[i].0 != k
      invariant 0 <= i < |s|
      invariant forall j :: 0 <= j < i ==> s[j].0 != k
    {
      i := i + 1;
    }
    v := s[i].1;
  }

  method Compare<V(==,!new)>(l: seq<(int, V)>, r: seq<(int, V)>)
    returns (removed: seq<(int, V)>, changed: seq<(int, V, V)>, added: seq<(int, V)>)
    requires Ordered(l) && Ordered(r)
    ensures removed == MissingFrom(l, ToMap(r)) && added == MissingFrom(r, ToMap(l)) && changed == ChangesTo(l, ToMap(r))
  {
    removed := SetDifference(l, r);
    added := SetDifference(r, l);
    var both := SetIntersection(l, r);
    ChangesOfPresent(l, ToMap(r));
    changed := [];
    for i := 0 to |both|
      invariant changed == ChangesTo(both[..i], ToMap(r))
    {
      assert both[..i + 1][..i] == both[..i];
      PresentKeys(l, ToMap(r), i);
      var now := Find(r, both[i].0);
      if both[i].1 != now {
        changed := changed + [(both[i].0, both[i].1, now)];
      }
    }
    assert both[..|both|] == both;
  }

  lemma {:induction false} PresentKeys<V(!new)>(l: seq<(int, V)>, m: map<int, V>, i: int)
    requires 0 <= i < |PresentIn(l, m)|
    ensures PresentIn(l, m)[i].0 in m
  {
    var init := PresentIn(l[..|l| - 1], m);
    if i < |init| {
      PresentKeys(l[..|l| - 1], m, i);
    }
  }

  lemma {:induction false} ChangesOfPresent<V(!new)>(l: seq<(int, V)>, m: map<int, V>)
    ensures ChangesTo(PresentIn(l, m), m) == ChangesTo(l, m)
  {
    if l != [] {
      var init := l[..|l| - 1];
      ChangesOfPresent(init, m);
      var kept := PresentIn(init, m);
      if l[|l| - 1].0 in m {
        assert (kept + [l[|l| - 1]])[..|kept|] == kept;
      } else {
        assert PresentIn(l, m) == kept;
      }
    }
  }

  // ---------------------------------------------------------------------------
  // The three outputs patch the old map into the new one
  // ---------------------------------------------------------------------------

  function WithRemoved<V>(m: map<int, V>, removed: seq<(int, V)>): map<int, V>
    decreases |removed|
  {
    if removed == [] then m else WithRemoved(m - {removed[0].0}, removed[1..])
  }

  function WithChanged<V>(m: map<int, V>, changed: seq<(int, V, V)>): map<int, V>
    decreases |changed|
  {
    if changed == [] then m else WithChanged(m[changed[0].0 := changed[0].2], changed[1..])
  }

  function WithAdded<V>(m: map<int, V>, added: seq<(int, V)>): map<int, V>
    decreases |added|
  {
    if added == [] then m else WithAdded(m[added[0].0 := added[0].1], added[1..])
  }

  function Patch<V>(m: map<int, V>, removed: seq<(int, V)>, changed: seq<(int, V, V)>, added: seq<(int, V)>): map<int, V> {
    WithAdded(WithChanged(WithRemoved(m, removed), changed), added)
  }

  lemma HasKeyCons<V(!new)>(s: seq<(int, V)>, k: int)
    requires s != []
    ensures HasKey(s, k) <==> k == s[0].0 || HasKey(s[1..], k)
  {
    if HasKey(s[1..], k) {
      var i :| 0 <= i < |s[1..]| && s[1..][i].0 == k;
      assert s[i + 1].0 == k;
    }
    if i :| 0 <= i < |s| && s[i].0 == k {
      if i > 0 {
        assert s[1..][i - 1].0 == k;
      }
    }
  }

  ghost predicate ChangesKey<V(!new)>(changed: seq<(int, V, V)>, k: int) {
    exists i :: 0 <= i < |changed| && changed[i].0 == k
  }

  ghost predicate SameAt<V(!new)>(m: map<int, V>, n: map<int, V>, k: int) {
    (k in m <==> k in n) && (k in m ==> m[k] == n[k])
  }

  lemma {:induction false} WithRemovedKey<V(!new)>(m: map<int, V>, removed: seq<(int, V)>, k: int)
    ensures HasKey(removed, k) ==> k !in WithRemoved(m, removed)
    ensures !HasKey(removed, k) ==> SameAt(WithRemoved(m, removed), m, k)
    decreases |removed|
  {
    if removed != [] {
      WithRemovedKey(m - {removed[0].0}, removed[1..], k);
      HasKeyCons(removed, k);
      if k == removed[0].0 && !HasKey(removed[1..], k) {
        assert k !in m - {removed[0].0};
      }
    }
  }

  lemma {:induction false} WithChangedOther<V(!new)>(m: map<int, V>, changed: seq<(int, V, V)>, k: int)
    requires !ChangesKey(changed, k)
    ensures SameAt(WithChanged(m, changed), m, k)
    decreases |changed|
  {
    if changed != [] {
      assert changed[0].0 != k;
      forall i | 0 <= i < |changed[1..]|
        ensures changed[1..][i].0 != k
      {
        assert changed[1..][i] == changed[i + 1];
      }
      WithChangedOther(m[changed[0].0 := changed[0].2], changed[1..], k);
    }
  }

  lemma {:induction false} WithChangedAt<V(!new)>(m: map<int, V>, changed: seq<(int, V, V)>, i: int)
    requires forall a, b :: 0 <= a < b < |changed| ==> changed[a].0 < changed[b].0
    requires 0 <= i < |changed|
    ensures changed[i].0 in WithChanged(m, changed) && WithChanged(m, changed)[changed[i].0] == changed[i].2
    decreases |changed|
  {
    var m', tail := m[changed[0].0 := changed[0].2], changed[1..];
    if i == 0 {
      assert !ChangesKey(tail, changed[0].0) by {
        assert forall a :: 0 <= a < |tail| ==> tail[a] == changed[a + 1];
      }
      WithChangedOther(m', tail, changed[0].0);
    } else {
      WithChangedAt(m', tail, i - 1);
    }
  }

  lemma {:induction false} WithAddedOther<V(!new)>(m: map<int, V>, added: seq<(int, V)>, k: int)
    requires !HasKey(added, k)
    ensures SameAt(WithAdded(m, added), m, k)
    decreases |added|
  {
    if added != [] {
      HasKeyCons(added, k);
      WithAddedOther(m[added[0].0 := added[0].1], added[1..], k);
    }
  }

  lemma {:induction false} WithAddedAt<V(!new)>(m: map<int, V>, added: seq<(int, V)>, i: int)
    requires Ordered(added) && 0 <= i < |added|
    ensures added[i].0 in WithAdded(m, added) && WithAdded(m, added)[added[i].0] == added[i].1
    decreases |added|
  {
    var m', tail := m[added[0].0 := added[0].1], added[1..];
    if i == 0 {
      assert !HasKey(tail, added[0].0) by {
        assert forall a :: 0 <= a < |tail| ==> tail[a] == added[a + 1];
      }
      WithAddedOther(m', tail, added[0].0);
    } else {
      WithAddedAt(m', tail, i - 1);
    }
  }

  /** Where a key of the compared maps turns up in the outputs. */
  lemma KeyInOutputs<V(!new)>(l: seq<(int, V)>, r: seq<(int, V)>,
                              removed: seq<(int, V)>, changed: seq<(int, V, V)>, added: seq<(int, V)>, k: int)
    requires Ordered(l) && Ordered(r)
    requires OnlyIn(l, r, removed) && OnlyIn(r, l, added) && Differs(l, r, changed)
    ensures HasKey(removed, k) <==> HasKey(l, k) && !HasKey(r, k)
    ensures HasKey(added, k) <==> HasKey(r, k) && !HasKey(l, k)
    ensures ChangesKey(changed, k) ==> HasKey(l, k) && HasKey(r, k)
  {
    KeyOfOnlyIn(l, r, removed, k);
    KeyOfOnlyIn(r, l, added, k);
    if c :| 0 <= c < |changed| && changed[c].0 == k {
      assert changed[c] in changed;
      assert (k, changed[c].1) in l && (k, changed[c].2) in r;
    }
  }

  lemma KeyOfOnlyIn<V(!new)>(l: seq<(int, V)>, r: seq<(int, V)>, out: seq<(int, V)>, k: int)
    requires OnlyIn(l, r, out)
    ensures HasKey(out, k) <==> HasKey(l, k) && !HasKey(r, k)
  {
    if a :| 0 <= a < |out| && out[a].0 == k {
      assert out[a] in out;
    }
    if HasKey(l, k) && !HasKey(r, k) {
      var a :| 0 <= a < |l| && l[a].0 == k;
      assert l[a] in out;
    }
  }

  /** Main result: replaying the three outputs turns the old map into the new one. */
  lemma PatchRestores<V(!new)>(l: seq<(int, V)>, r: seq<(int, V)>)
    requires Ordered(l) && Ordered(r)
    ensures Patch(ToMap(l), MissingFrom(l, ToMap(r)), ChangesTo(l, ToMap(r)), MissingFrom(r, ToMap(l))) == ToMap(r)
  {
    MissingIsOnlyIn(l, r);
    MissingIsOnlyIn(r, l);
    ChangesAreDiffers(l, r);
    OutputsPatch(l, r, MissingFrom(l, ToMap(r)), ChangesTo(l, ToMap(r)), MissingFrom(r, ToMap(l)));
  }

  lemma OutputsPatch<V(!new)>(l: seq<(int, V)>, r: seq<(int, V)>,
                              removed: seq<(int, V)>, changed: seq<(int, V, V)>, added: seq<(int, V)>)
    requires Ordered(l) && Ordered(r)
    requires OnlyIn(l, r, removed) && OnlyIn(r, l, added) && Differs(l, r, changed)
    ensures Patch(ToMap(l), removed, changed, added) == ToMap(r)
  {
    var m := Patch(ToMap(l), removed, changed, added);
    forall k
      ensures (k in m <==> k in ToMap(r)) && (k in m ==> m[k] == ToMap(r)[k])
    {
      PatchAt(l, r, removed, changed, added, k);
    }
  }

  lemma PatchAt<V(!new)>(l: seq<(int, V)>, r: seq<(int, V)>,
                         removed: seq<(int, V)>, changed: seq<(int, V, V)>, added: seq<(int, V)>, k: int)
    requires Ordered(l) && Ordered(r)
    requires OnlyIn(l, r, removed) && OnlyIn(r, l, added) && Differs(l, r, changed)
    ensures SameAt(Patch(ToMap(l), removed, changed, added), ToMap(r), k)
  {
    var m1 := WithRemoved(ToMap(l), removed);
    var m2 := WithChanged(m1, changed);
    ToMapEntries(l);
    ToMapEntries(r);
    KeyInOutputs(l, r, removed, changed, added, k);
    WithRemovedKey(ToMap(l), removed, k);
    if HasKey(added, k) {
      var a :| 0 <= a < |added| && added[a].0 == k;
      WithAddedAt(m2, added, a);
      assert added[a] in added;
      var j :| 0 <= j < |r| && r[j] == added[a];
    } else {
      WithAddedOther(m2, added, k);
      if ChangesKey(changed, k) {
        var c :| 0 <= c < |changed| && changed[c].0 == k;
        WithChangedAt(m1, changed, c);
        assert changed[c] in changed;
        var j :| 0 <= j < |r| && r[j] == (k, changed[c].2);
      } else {
        WithChangedOther(m1, changed, k);
        if HasKey(l, k) && HasKey(r, k) {
          UnchangedKey(l, r, changed, k);
        }
      }
    }
  }

  lemma UnchangedKey<V(!new)>(l: seq<(int, V)>, r: seq<(int, V)>, changed: seq<(int, V, V)>, k: int)
    requires Ordered(l) && Ordered(r) && Differs(l, r, changed)
    requires HasKey(l, k) && HasKey(r, k) && !ChangesKey(changed, k)
    ensures SameAt(ToMap(l), ToMap(r), k)
  {
    ToMapEntries(l);
    ToMapEntries(r);
    var i :| 0 <= i < |l| && l[i].0 == k;
    var j :| 0 <= j < |r| && r[j].0 == k;
    assert l[i] == (k, l[i].1) && r[j] == (k, r[j].1);
    assert (k, l[i].1, r[j].1) in changed <==> l[i].1 != r[j].1;
  }

  // ---------------------------------------------------------------------------
  // And they take the new map back to the old one
  // ---------------------------------------------------------------------------

  function Unadded<V>(m: map<int, V>, added: seq<(int, V)>): map<int, V>
    decreases |added|
  {
    if added == [] then m else Unadded(m, added[1..]) - {added[0].0}
  }

  function Unchanged<V>(m: map<int, V>, changed: seq<(int, V, V)>): map<int, V>
    decreases |changed|
  {
    if changed == [] then m else Unchanged(m, changed[1..])[changed[0].0 := changed[0].1]
  }

  function Unremoved<V>(m: map<int, V>, removed: seq<(int, V)>): map<int, V>
    decreases |removed|
  {
    if removed == [] then m else Unremoved(m, removed[1..])[removed[0].0 := removed[0].1]
  }

  function Unpatch<V>(m: map<int, V>, removed: seq<(int, V)>, changed: seq<(int, V, V)>, added: seq<(int, V)>): map<int, V> {
    Unremoved(Unchanged(Unadded(m, added), changed), removed)
  }

  lemma {:induction false} UnaddedKey<V(!new)>(m: map<int, V>, added: seq<(int, V)>, k: int)
    ensures HasKey(added, k) ==> k !in Unadded(m, added)
    ensures !HasKey(added, k) ==> SameAt(Unadded(m, added), m, k)
    decreases |added|
  {
    if added != [] {
      UnaddedKey(m, added[1..], k);
      HasKeyCons(added, k);
    }
  }

  lemma {:induction false} UnchangedOther<V(!new)>(m: map<int, V>, changed: seq<(int, V, V)>, k: int)
    requires !ChangesKey(changed, k)
    ensures SameAt(Unchanged(m, changed), m, k)
    decreases |changed|
  {
    if changed != [] {
      assert changed[0].0 != k;
      forall i | 0 <= i < |changed[1..]|
        ensures changed[1..][i].0 != k
      {
        assert changed[1..][i] == changed[i + 1];
      }
      UnchangedOther(m, changed[1..], k);
    }
  }

  lemma {:induction false} UnchangedAt<V(!new)>(m: map<int, V>, changed: seq<(int, V, V)>, i: int)
    requires forall a, b :: 0 <= a < b < |changed| ==> changed[a].0 < changed[b].0
    requires 0 <= i < |changed|
    ensures changed[i].0 in Unchanged(m, changed) && Unchanged(m, changed)[changed[i].0] == changed[i].1
    decreases |changed|
  {
    if i > 0 {
      UnchangedAt(m, changed[1..], i - 1);
    }
  }

  lemma {:induction false} UnremovedOther<V(!new)>(m: map<int, V>, removed: seq<(int, V)>, k: int)
    requires !HasKey(removed, k)
    ensures SameAt(Unremoved(m, removed), m, k)
    decreases |removed|
  {
    if removed != [] {
      HasKeyCons(removed, k);
      UnremovedOther(m, removed[1..], k);
    }
  }

  lemma {:induction false} UnremovedAt<V(!new)>(m: map<int, V>, removed: seq<(int, V)>, i: int)
    requires Ordered(removed) && 0 <= i < |removed|
    ensures removed[i].0 in Unremoved(m, removed) && Unremoved(m, removed)[removed[i].0] == removed[i].1
    decreases |removed|
  {
    if i > 0 {
      UnremovedAt(m, removed[1..], i - 1);
    }
  }

  lemma UnpatchAt<V(!new)>(l: seq<(int, V)>, r: seq<(int, V)>,
                           removed: seq<(int, V)>, changed: seq<(int, V, V)>, added: seq<(int, V)>, k: int)
    requires Ordered(l) && Ordered(r)
    requires OnlyIn(l, r, removed) && OnlyIn(r, l, added) && Differs(l, r, changed)
    ensures SameAt(Unpatch(ToMap(r), removed, changed, added), ToMap(l), k)
  {
    var m1 := Unadded(ToMap(r), added);
    var m2 := Unchanged(m1, changed);
    ToMapEntries(l);
    ToMapEntries(r);
    KeyInOutputs(l, r, removed, changed, added, k);
    UnaddedKey(ToMap(r), added, k);
    if HasKey(removed, k) {
      var a :| 0 <= a < |removed| && removed[a].0 == k;
      UnremovedAt(m2, removed, a);
      assert removed[a] in removed;
      var j :| 0 <= j < |l| && l[j] == removed[a];
    } else {
      UnremovedOther(m2, removed, k);
      if ChangesKey(changed, k) {
        var c :| 0 <= c < |changed| && changed[c].0 == k;
        UnchangedAt(m1, changed, c);
        assert changed[c] in changed;
        var j :| 0 <= j < |l| && l[j] == (k, changed[c].1);
      } else {
        UnchangedOther(m1, changed, k);
        if HasKey(l, k) && HasKey(r, k) {
          UnchangedKey(l, r, changed, k);
        }
      }
    }
  }

  lemma OutputsUnpatch<V(!new)>(l: seq<(int, V)>, r: seq<(int, V)>,
                                removed: seq<(int, V)>, changed: seq<(int, V, V)>, added: seq<(int, V)>)
    requires Ordered(l) && Ordered(r)
    requires OnlyIn(l, r, removed) && OnlyIn(r, l, added) && Differs(l, r, changed)
    ensures Unpatch(ToMap(r), removed, changed, added) == ToMap(l)
  {
    var m := Unpatch(ToMap(r), removed, changed, added);
    forall k
      ensures (k in m <==> k in ToMap(l)) && (k in m ==> m[k] == ToMap(l)[k])
    {
      UnpatchAt(l, r, removed, changed, added, k);
    }
  }

  /** Undoing the three outputs, the last one first, turns the new map into the old one. */
  lemma UnpatchRestores<V(!new)>(l: seq<(int, V)>, r: seq<(int, V)>)
    requires Ordered(l) && Ordered(r)
    ensures Unpatch(ToMap(r), MissingFrom(l, ToMap(r)), ChangesTo(l, ToMap(r)), MissingFrom(r, ToMap(l))) == ToMap(l)
  {
    MissingIsOnlyIn(l, r);
    MissingIsOnlyIn(r, l);
    ChangesAreDiffers(l, r);
    OutputsUnpatch(l, r, MissingFrom(l, ToMap(r)), ChangesTo(l, ToMap(r)), MissingFrom(r, ToMap(l)));
  }
}
