/** The index comparator and the walk over the items agree. */
module WalkOrder {
  import opened Common
  import opened ItemWalk
  import ModelIndex

  // ---------------------------------------------------------------------------
  // All items, in dictionary order of their rows
  // ---------------------------------------------------------------------------

  /** There is an item in these rows, one below the other. */
  predicate IsItem(forest: seq<Node>, path: Path)
    decreases |path|
  {
    path != [] && path[0] < |forest| && (|path| == 1 || IsItem(forest[path[0]].children, path[1..]))
  }

  predicate ItemFrom(nodes: seq<Node>, prefix: Path, k: nat, x: Path) {
    |x| > |prefix| && x[..|prefix|] == prefix && x[|prefix|] >= k && IsItem(nodes, x[|prefix|..])
  }

  lemma SplitItem(nodes: seq<Node>, prefix: Path, k: nat, x: Path)
    requires k < |nodes|
    ensures var own := prefix + [k];
            ItemFrom(nodes, prefix, k, x) <==> x == own || ItemFrom(nodes[k].children, own, 0, x) || ItemFrom(nodes, prefix, k + 1, x)
  {
    var n, own := |prefix|, prefix + [k];
    if |x| > n && x[..n] == prefix {
      assert x[n..][0] == x[n] && x[n..][1..] == x[n + 1..];
      assert x[..n + 1] == prefix + [x[n]];
      assert x == x[..n + 1] + x[n + 1..];
    }
    if |x| > n + 1 && x[..n + 1] == own {
      assert x[..n] == x[..n + 1][..n] == prefix && x[n] == x[..n + 1][n] == k;
    }
  }

  /** The walk visits all items and nothing else. */
  lemma {:induction false} WalkIsComplete(nodes: seq<Node>, prefix: Path, k: nat, x: Path)
    requires k <= |nodes|
    ensures x in From(nodes, prefix, k) <==> ItemFrom(nodes, prefix, k, x)
    decreases nodes, |nodes| - k
  {
    if k < |nodes| {
      WalkIsComplete(nodes[k].children, prefix + [k], 0, x);
      WalkIsComplete(nodes, prefix, k + 1, x);
      SplitItem(nodes, prefix, k, x);
    }
  }

  lemma ItemsWalked(forest: seq<Node>, x: Path)
    ensures x in Preorder(forest) <==> IsItem(forest, x)
  {
    WalkIsComplete(forest, [], 0, x);
    if x != [] {
      assert x[0..] == x;
    }
  }

  /** The first level at which two items part has the smaller row of the earlier one. */
  predicate PartAt(p: Path, q: Path, k: nat) {
    k < |p| && k < |q| && p[..k] == q[..k] && p[k] < q[k]
  }

  ghost predicate Earlier(p: Path, q: Path) {
    (p <= q && p != q) || exists k: nat :: PartAt(p, q, k)
  }

  ghost predicate Ascending(s: seq<Path>) {
    forall i, j :: 0 <= i < j < |s| ==> Earlier(s[i], s[j])
  }

  lemma AscendingConcat(a: seq<Path>, b: seq<Path>)
    requires Ascending(a) && Ascending(b)
    requires forall x, y :: x in a && y in b ==> Earlier(x, y)
    ensures Ascending(a + b)
  {
    forall i, j | 0 <= i < j < |a + b|
      ensures Earlier((a + b)[i], (a + b)[j])
    {
      if i < |a| && |a| <= j {
        assert a[i] in a && b[j - |a|] in b;
      }
    }
  }

  lemma EarlierRow(x: Path, y: Path, prefix: Path, k: nat)
    requires InRowsFrom(x, prefix, k) && x[|prefix|] == k && InRowsFrom(y, prefix, k + 1)
    ensures Earlier(x, y)
  {
    assert PartAt(x, y, |prefix|);
  }

  lemma BelowOwn(nodes: seq<Node>, prefix: Path, k: nat, x: Path)
    requires k < |nodes| && x in From(nodes[k].children, prefix + [k], 0)
    ensures Earlier(prefix + [k], x) && InRowsFrom(x, prefix, k) && x[|prefix|] == k
  {
    var own := prefix + [k];
    WalkStaysBelow(nodes[k].children, own, 0, x);
    assert x[..|prefix|] == x[..|own|][..|prefix|] && x[|prefix|] == x[..|own|][|prefix|];
  }

  lemma {:induction false} WalkAscends(nodes: seq<Node>, prefix: Path, k: nat)
    requires k <= |nodes|
    ensures Ascending(From(nodes, prefix, k))
    decreases nodes, |nodes| - k
  {
    if k < |nodes| {
      var own := prefix + [k];
      var sub, rest := From(nodes[k].children, own, 0), From(nodes, prefix, k + 1);
      WalkAscends(nodes[k].children, own, 0);
      WalkAscends(nodes, prefix, k + 1);
      forall x, y | x in [own] && y in sub
        ensures Earlier(x, y)
      {
        BelowOwn(nodes, prefix, k, y);
      }
      AscendingConcat([own], sub);
      forall x, y | x in [own] + sub && y in rest
        ensures Earlier(x, y)
      {
        if x in sub {
          BelowOwn(nodes, prefix, k, x);
        }
        WalkStaysBelow(nodes, prefix, k + 1, y);
        EarlierRow(x, y, prefix, k);
      }
      AscendingConcat([own] + sub, rest);
    }
  }

  // ---------------------------------------------------------------------------
  // The index of an item
  // ---------------------------------------------------------------------------

  /** The index of the item in the first column; its internal id is whatever the model gives it. */
  function KeyOf(path: Path, ids: Path -> int, model: int): ModelIndex.Key
    requires path != []
  {
    ModelIndex.Key(path[|path| - 1], 0, ids(path), model)
  }

  function IndexOf(path: Path, ids: Path -> int, model: int): ModelIndex.Index
    requires path != []
    decreases |path|
  {
    if |path| == 1 then ModelIndex.Top(KeyOf(path, ids, model))
    else ModelIndex.Below(IndexOf(ParentOf(path), ids, model), KeyOf(path, ids, model))
  }

  lemma {:induction false} HierarchyOfPath(path: Path, ids: Path -> int, model: int)
    requires path != []
    ensures var h := ModelIndex.Hierarchy(IndexOf(path, ids, model));
            |h| == |path| && forall i :: 0 <= i < |path| ==> h[i] == KeyOf(path[..i + 1], ids, model)
    decreases |path|
  {
    if |path| > 1 {
      HierarchyOfPath(ParentOf(path), ids, model);
    }
    var h := ModelIndex.Hierarchy(IndexOf(path, ids, model));
    forall i | 0 <= i < |path|
      ensures h[i] == KeyOf(path[..i + 1], ids, model)
    {
      if i < |path| - 1 {
        assert ParentOf(path)[..i + 1] == path[..i + 1];
      } else {
        assert path[..i + 1] == path;
      }
    }
  }

  lemma PartingDecides(p: Path, q: Path, k: nat, ids: Path -> int, model: int)
    requires PartAt(p, q, k)
    ensures ModelIndex.Before(ModelIndex.Hierarchy(IndexOf(p, ids, model)), ModelIndex.Hierarchy(IndexOf(q, ids, model)))
  {
    var a, b := ModelIndex.Hierarchy(IndexOf(p, ids, model)), ModelIndex.Hierarchy(IndexOf(q, ids, model));
    HierarchyOfPath(p, ids, model);
    HierarchyOfPath(q, ids, model);
    forall i | 0 <= i < k
      ensures a[i] == b[i]
    {
      assert p[..i + 1] == p[..k][..i + 1] == q[..k][..i + 1] == q[..i + 1];
    }
    assert a[..k] == b[..k];
    ModelIndex.BeforeFrom(a, b, k);
    assert a[k..][0] == KeyOf(p[..k + 1], ids, model) && b[k..][0] == KeyOf(q[..k + 1], ids, model);
  }

  lemma {:induction false} PrefixIsAncestor(p: Path, q: Path, ids: Path -> int, model: int)
    requires p != [] && p <= q
    ensures ModelIndex.IsAncestorOrSelf(IndexOf(p, ids, model), IndexOf(q, ids, model))
    decreases |q|
  {
    if p != q {
      assert p <= ParentOf(q);
      PrefixIsAncestor(p, ParentOf(q), ids, model);
    } else {
      SelfIsAncestor(IndexOf(p, ids, model));
    }
  }

  lemma SelfIsAncestor(a: ModelIndex.Index)
    ensures ModelIndex.IsAncestorOrSelf(a, a)
  {
  }

  /** Main result: of two items of the walk the comparator puts the earlier one first, or does not order them, and then the
      earlier one is an ancestor of the other. */
  lemma ComparatorFollowsWalk(forest: seq<Node>, i: nat, j: nat, ids: Path -> int, model: int)
    requires i < j < |Preorder(forest)|
    ensures Preorder(forest)[i] != [] && Preorder(forest)[j] != []
    ensures var a, b := IndexOf(Preorder(forest)[i], ids, model), IndexOf(Preorder(forest)[j], ids, model);
            && (ModelIndex.Before(ModelIndex.Hierarchy(a), ModelIndex.Hierarchy(b)) || ModelIndex.IsAncestorOrSelf(a, b))
            && !ModelIndex.Before(ModelIndex.Hierarchy(b), ModelIndex.Hierarchy(a))
  {
    var p, q := Preorder(forest)[i], Preorder(forest)[j];
    ItemsWalked(forest, p);
    ItemsWalked(forest, q);
    WalkAscends(forest, [], 0);
    assert Earlier(p, q);
    var a, b := IndexOf(p, ids, model), IndexOf(q, ids, model);
    if p <= q {
      PrefixIsAncestor(p, q, ids, model);
      ModelIndex.IncomparableExactly(a, b);
    } else {
      var k: nat :| PartAt(p, q, k);
      PartingDecides(p, q, k, ids, model);
      if ModelIndex.Before(ModelIndex.Hierarchy(b), ModelIndex.Hierarchy(a)) {
        ModelIndex.BeforeTransitive(ModelIndex.Hierarchy(a), ModelIndex.Hierarchy(b), ModelIndex.Hierarchy(a));
        ModelIndex.BeforeIrreflexive(ModelIndex.Hierarchy(a));
      }
    }
  }
}
