/** Item models: comparing indexes by their hierarchies, and listing all items between two of them. */
module ModelIndex {
  import opened Common

  // ---------------------------------------------------------------------------
  // The comparator
  // ---------------------------------------------------------------------------

  /** What an index is compared by at its own level. */
  datatype Key = Key(row: int, column: int, internalId: int, model: int)

  datatype Index = Top(key: Key) | Below(parent: Index, key: Key)

  /** From the outermost ancestor to the item itself. */
  function Hierarchy(item: Index): (h: seq<Key>)
    ensures h != []
  {
    match item
    case Top(key) => [key]
    case Below(parent, key) => Hierarchy(parent) + [key]
  }

  predicate KeyLess(l: Key, r: Key) {
    if l.row != r.row then l.row < r.row
    else if l.column != r.column then l.column < r.column
    else if l.internalId != r.internalId then l.internalId < r.internalId
    else l.model < r.model
  }

  /** The first level at which two hierarchies differ decides. */
  predicate Before(a: seq<Key>, b: seq<Key>) {
    a != [] && b != [] && (KeyLess(a[0], b[0]) || (a[0] == b[0] && Before(a[1..], b[1..])))
  }

  method HierarchyOf(item: Index) returns (h: seq<Key>)
    ensures h == Hierarchy(item)
  {
    h := [];
    if item.Below? {
      h := HierarchyOf(item.parent);
    }
    h := h + [item.key];
  }

  lemma {:induction false} BeforeFrom(a: seq<Key>, b: seq<Key>, i: nat)
    requires i <= |a| && i <= |b| && a[..i] == b[..i]
    ensures Before(a, b) == Before(a[i..], b[i..])
  {
    if i > 0 {
      assert a[0] == a[..i][0] == b[..i][0] == b[0];
      assert a[1..][..i - 1] == a[..i][1..] == b[..i][1..] == b[1..][..i - 1];
      BeforeFrom(a[1..], b[1..], i - 1);
      assert a[1..][i - 1..] == a[i..] && b[1..][i - 1..] == b[i..];
    }
  }

  method Compare(lhs: Index, rhs: Index) returns (result: bool)
    ensures result == Before(Hierarchy(lhs), Hierarchy(rhs))
  {
    var l := HierarchyOf(lhs);
    var r := HierarchyOf(rhs);
    var s := if |l| < |r| then |l| else |r|;
    result := false;
    var i := 0;
    while i < s
      invariant 0 <= i <= s && l[..i] == r[..i] && !result
    {
      BeforeFrom(l, r, i);
      if KeyLess(l[i], r[i]) {
        result := true;
        break;
      }
      if KeyLess(r[i], l[i]) {
        break;
      }
      assert l[..i + 1] == l[..i] + [l[i]] && r[..i + 1] == r[..i] + [r[i]];
      i := i + 1;
    }
    if i == s {
      BeforeFrom(l, r, s);
    }
  }

  /** An ancestor, or the item itself. */
  predicate IsAncestorOrSelf(a: Index, b: Index) {
    a == b || (b.Below? && IsAncestorOrSelf(a, b.parent))
  }

  lemma {:induction false} HierarchyInjective(a: Index, b: Index)
    requires Hierarchy(a) == Hierarchy(b)
    ensures a == b
  {
    var h := Hierarchy(a);
    assert h[|h| - 1] == a.key == b.key;
    if a.Below? && b.Below? {
      assert Hierarchy(a.parent) == h[..|h| - 1] == Hierarchy(b.parent);
      HierarchyInjective(a.parent, b.parent);
    }
  }

  lemma {:induction false} AncestorsArePrefixes(a: Index, b: Index)
    ensures Hierarchy(a) <= Hierarchy(b) <==> IsAncestorOrSelf(a, b)
    decreases b
  {
    var x, y := Hierarchy(a), Hierarchy(b);
    if x == y {
      HierarchyInjective(a, b);
    } else if b.Below? {
      AncestorsArePrefixes(a, b.parent);
      if x <= y {
        assert x == y[..|x|];
        assert |x| < |y|;
        assert x == Hierarchy(b.parent)[..|x|];
      }
    }
  }

  lemma {:induction false} PrefixesAreIncomparable(a: seq<Key>, b: seq<Key>)
    ensures !Before(a, b) && !Before(b, a) <==> a <= b || b <= a
    decreases |a|
  {
    if a != [] && b != [] && a[0] == b[0] {
      PrefixesAreIncomparable(a[1..], b[1..]);
      assert a == [a[0]] + a[1..] && b == [b[0]] + b[1..];
      assert a <= b <==> a[1..] <= b[1..];
      assert b <= a <==> b[1..] <= a[1..];
    }
  }

  /** The comparator orders neither before the other. */
  predicate Tied(a: Index, b: Index) {
    !Before(Hierarchy(a), Hierarchy(b)) && !Before(Hierarchy(b), Hierarchy(a))
  }

  /** Indexes the comparator does not order are exactly the pairs of an ancestor and its descendant, or equal. */
  lemma IncomparableExactly(a: Index, b: Index)
    ensures Tied(a, b) <==> IsAncestorOrSelf(a, b) || IsAncestorOrSelf(b, a)
  {
    PrefixesAreIncomparable(Hierarchy(a), Hierarchy(b));
    AncestorsArePrefixes(a, b);
    AncestorsArePrefixes(b, a);
  }

  lemma {:induction false} BeforeIrreflexive(a: seq<Key>)
    ensures !Before(a, a)
    decreases |a|
  {
    if a != [] {
      BeforeIrreflexive(a[1..]);
    }
  }

  lemma {:induction false} BeforeTransitive(a: seq<Key>, b: seq<Key>, c: seq<Key>)
    requires Before(a, b) && Before(b, c)
    ensures Before(a, c)
    decreases |a|
  {
    if a[0] == b[0] && b[0] == c[0] {
      BeforeTransitive(a[1..], b[1..], c[1..]);
    }
  }

  lemma LastLevelDecides(h: seq<Key>, a: Key, b: Key)
    ensures Before(h + [a], h + [b]) <==> KeyLess(a, b)
  {
    var x, y := h + [a], h + [b];
    assert x[..|h|] == h == y[..|h|];
    BeforeFrom(x, y, |h|);
    assert x[|h|..] == [a] && y[|h|..] == [b] && [a][1..] == [];
  }

  /** Below one parent the smaller row comes first; in one row the smaller column; then the internal id and the model decide. */
  lemma SiblingsInOrder(parent: Index, a: Key, b: Key)
    ensures Before(Hierarchy(Below(parent, a)), Hierarchy(Below(parent, b))) <==>
            || a.row < b.row
            || (a.row == b.row && a.column < b.column)
            || (a.row == b.row && a.column == b.column && a.internalId < b.internalId)
            || (a.row == b.row && a.column == b.column && a.internalId == b.internalId && a.model < b.model)
  {
    LastLevelDecides(Hierarchy(parent), a, b);
  }

  // ---------------------------------------------------------------------------
  // When it is a strict weak order
  // ---------------------------------------------------------------------------

  predicate Unrelated(a: Index, b: Index) {
    !IsAncestorOrSelf(a, b) && !IsAncestorOrSelf(b, a)
  }

  lemma {:induction false} AncestorsTransitive(a: Index, b: Index, c: Index)
    requires IsAncestorOrSelf(a, b) && IsAncestorOrSelf(b, c)
    ensures IsAncestorOrSelf(a, c)
    decreases c
  {
    if b != c {
      AncestorsTransitive(a, b, c.parent);
    }
  }

  /** The ancestors of one index are related to each other. */
  lemma AncestorsInLine(a: Index, b: Index, c: Index)
    requires IsAncestorOrSelf(a, c) && IsAncestorOrSelf(b, c)
    ensures !Unrelated(a, b)
  {
    AncestorsArePrefixes(a, c);
    AncestorsArePrefixes(b, c);
    AncestorsArePrefixes(a, b);
    AncestorsArePrefixes(b, a);
  }

  /** Two ties fail to give a third exactly when the index in the middle is an ancestor of two unrelated ones. */
  lemma TieBreaksExactly(a: Index, b: Index, c: Index)
    requires Tied(a, b) && Tied(b, c)
    ensures !Tied(a, c) <==> IsAncestorOrSelf(b, a) && IsAncestorOrSelf(b, c) && Unrelated(a, c)
  {
    IncomparableExactly(a, b);
    IncomparableExactly(b, c);
    IncomparableExactly(a, c);
    if Unrelated(a, c) {
      if IsAncestorOrSelf(a, b) && IsAncestorOrSelf(b, c) {
        AncestorsTransitive(a, b, c);
      } else if IsAncestorOrSelf(c, b) && IsAncestorOrSelf(b, a) {
        AncestorsTransitive(c, b, a);
      } else if IsAncestorOrSelf(a, b) && IsAncestorOrSelf(c, b) {
        AncestorsInLine(a, c, b);
      }
    }
  }

  /** What sorting and ordered sets require of a comparison on the indexes they get. */
  ghost predicate StrictlyWeakOn(s: set<Index>) {
    && (forall a :: a in s ==> !Before(Hierarchy(a), Hierarchy(a)))
    && (forall a, b, c :: a in s && b in s && c in s && Before(Hierarchy(a), Hierarchy(b)) && Before(Hierarchy(b), Hierarchy(c)) ==>
          Before(Hierarchy(a), Hierarchy(c)))
    && (forall a, b, c :: a in s && b in s && c in s && Tied(a, b) && Tied(b, c) ==> Tied(a, c))
  }

  /** A parent chosen together with two items below it of which neither is below the other. */
  ghost predicate Branches(s: set<Index>) {
    exists p, c, d :: p in s && c in s && d in s && IsAncestorOrSelf(p, c) && IsAncestorOrSelf(p, d) && Unrelated(c, d)
  }

  /** Main result: the comparator is a strict weak order on a set exactly when no member is an ancestor of two unrelated members. */
  lemma StrictlyWeakExactly(s: set<Index>)
    ensures StrictlyWeakOn(s) <==> !Branches(s)
  {
    forall a, b, c | a in s && b in s && c in s && Tied(a, b) && Tied(b, c) && !Tied(a, c)
      ensures Branches(s)
    {
      TieBreaksExactly(a, b, c);
    }
    forall a | a in s
      ensures !Before(Hierarchy(a), Hierarchy(a))
    {
      BeforeIrreflexive(Hierarchy(a));
    }
    forall a, b, c | a in s && b in s && c in s && Before(Hierarchy(a), Hierarchy(b)) && Before(Hierarchy(b), Hierarchy(c))
      ensures Before(Hierarchy(a), Hierarchy(c))
    {
      BeforeTransitive(Hierarchy(a), Hierarchy(b), Hierarchy(c));
    }
    if Branches(s) {
      var p, c, d :| p in s && c in s && d in s && IsAncestorOrSelf(p, c) && IsAncestorOrSelf(p, d) && Unrelated(c, d);
      IncomparableExactly(p, c);
      IncomparableExactly(p, d);
      IncomparableExactly(c, d);
      assert Tied(c, p) && Tied(p, d) && !Tied(c, d);
    }
  }
}
