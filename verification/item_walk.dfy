/** Listing all items between two of them, in the order a depth-first walk visits them. */
module ItemWalk {
  import opened Common

  /** An item model as the rows below each item. */
  datatype Node = Node(children: seq<Node>)

  /** An item is where it is found: a row below a row, from the top. */
  type Path = seq<nat>

  function ChildrenAt(forest: seq<Node>, path: Path): seq<Node>
    decreases |path|
  {
    if path == [] then forest
    else if path[0] < |forest| then ChildrenAt(forest[path[0]].children, path[1..])
    else []
  }

  lemma {:induction false} ChildrenBelow(forest: seq<Node>, path: Path, row: nat)
    requires row < |ChildrenAt(forest, path)|
    ensures ChildrenAt(forest, path + [row]) == ChildrenAt(forest, path)[row].children
    decreases |path|
  {
    if path == [] {
      assert (path + [row])[1..] == [];
    } else {
      assert (path + [row])[1..] == path[1..] + [row];
      ChildrenBelow(forest[path[0]].children, path[1..], row);
    }
  }

  function ParentOf(path: Path): Path
    requires path != []
  {
    path[..|path| - 1]
  }

  function NextSibling(forest: seq<Node>, path: Path): Option<Path>
    requires path != []
  {
    var row := path[|path| - 1] + 1;
    if row < |ChildrenAt(forest, ParentOf(path))| then Some(ParentOf(path) + [row]) else None
  }

  // ---------------------------------------------------------------------------
  // The walk
  // ---------------------------------------------------------------------------

  /** All items below `prefix` from row k on, each followed by what is below it. */
  function From(nodes: seq<Node>, prefix: Path, k: nat): seq<Path>
    requires k <= |nodes|
    decreases nodes, |nodes| - k
  {
    if k == |nodes| then []
    else [prefix + [k]] + From(nodes[k].children, prefix + [k], 0) + From(nodes, prefix, k + 1)
  }

  function Preorder(forest: seq<Node>): seq<Path> {
    From(forest, [], 0)
  }

  /** The sibling of the nearest ancestor that has one. */
  function Climb(forest: seq<Node>, path: Path): Option<Path>
    decreases |path|
  {
    if path == [] then None
    else
      var sibling := NextSibling(forest, path);
      if sibling.Some? then sibling else Climb(forest, ParentOf(path))
  }

  function NextItem(forest: seq<Node>, path: Path): Option<Path> {
    if ChildrenAt(forest, path) != [] then Some(path + [0]) else Climb(forest, path)
  }

  ghost predicate Chained(forest: seq<Node>, s: seq<Path>) {
    forall n :: 0 <= n < |s| - 1 ==> NextItem(forest, s[n]) == Some(s[n + 1])
  }

  lemma ChainedConcat(forest: seq<Node>, a: seq<Path>, b: seq<Path>)
    requires a != [] && b != [] && Chained(forest, a) && Chained(forest, b) && NextItem(forest, a[|a| - 1]) == Some(b[0])
    ensures Chained(forest, a + b)
  {
    var s := a + b;
    forall n | 0 <= n < |s| - 1
      ensures NextItem(forest, s[n]) == Some(s[n + 1])
    {
      if n >= |a| {
        assert s[n] == b[n - |a|] && s[n + 1] == b[n + 1 - |a|];
      }
    }
  }

  /** The walk visits each next item in turn, and after the last one there is only climbing out. */
  lemma {:induction false} WalkIsChained(forest: seq<Node>, prefix: Path, k: nat)
    requires k < |ChildrenAt(forest, prefix)|
    ensures var s := From(ChildrenAt(forest, prefix), prefix, k);
            && s != [] && s[0] == prefix + [k] && Chained(forest, s)
            && NextItem(forest, s[|s| - 1]) == Climb(forest, prefix)
    decreases ChildrenAt(forest, prefix), |ChildrenAt(forest, prefix)| - k
  {
    var nodes := ChildrenAt(forest, prefix);
    var own := prefix + [k];
    var sub, rest := From(nodes[k].children, own, 0), From(nodes, prefix, k + 1);
    ChildrenBelow(forest, prefix, k);
    assert ParentOf(own) == prefix;
    assert Climb(forest, own) == if k + 1 < |nodes| then Some(prefix + [k + 1]) else Climb(forest, prefix);
    var upper := [own];
    if nodes[k].children != [] {
      WalkIsChained(forest, own, 0);
      ChainedConcat(forest, [own], sub);
      upper := [own] + sub;
    } else {
      assert [own] + sub == upper;
    }
    assert NextItem(forest, upper[|upper| - 1]) == Climb(forest, own);
    if k + 1 < |nodes| {
      WalkIsChained(forest, prefix, k + 1);
      ChainedConcat(forest, upper, rest);
    } else {
      assert upper + rest == upper;
    }
    assert From(nodes, prefix, k) == upper + rest;
  }

  /** Below `prefix`, in row k or a later one. */
  ghost predicate InRowsFrom(x: Path, prefix: Path, k: nat) {
    |x| > |prefix| && x[..|prefix|] == prefix && x[|prefix|] >= k
  }

  lemma {:induction false} WalkStaysBelow(nodes: seq<Node>, prefix: Path, k: nat, x: Path)
    requires k <= |nodes| && x in From(nodes, prefix, k)
    ensures InRowsFrom(x, prefix, k)
    decreases nodes, |nodes| - k
  {
    var own := prefix + [k];
    if x in From(nodes[k].children, own, 0) {
      WalkStaysBelow(nodes[k].children, own, 0, x);
      assert x[..|prefix|] == x[..|own|][..|prefix|] == prefix;
      assert x[|prefix|] == x[..|own|][|prefix|] == k;
    } else if x in From(nodes, prefix, k + 1) {
      WalkStaysBelow(nodes, prefix, k + 1, x);
    } else {
      assert x == own;
    }
  }

  lemma {:induction false} WalkIsDistinct(nodes: seq<Node>, prefix: Path, k: nat)
    requires k <= |nodes|
    ensures Distinct(From(nodes, prefix, k))
    decreases nodes, |nodes| - k
  {
    if k < |nodes| {
      var own := prefix + [k];
      var sub, rest := From(nodes[k].children, own, 0), From(nodes, prefix, k + 1);
      WalkIsDistinct(nodes[k].children, own, 0);
      WalkIsDistinct(nodes, prefix, k + 1);
      forall i | 0 <= i < |sub|
        ensures sub[i] != own && |sub[i]| > |own| && sub[i][|prefix|] == k
      {
        assert sub[i] in sub;
        WalkStaysBelow(nodes[k].children, own, 0, sub[i]);
        assert sub[i][|prefix|] == sub[i][..|own|][|prefix|];
      }
      forall j | 0 <= j < |rest|
        ensures |rest[j]| > |prefix| && rest[j][|prefix|] > k
      {
        assert rest[j] in rest;
        WalkStaysBelow(nodes, prefix, k + 1, rest[j]);
      }
      ThreeParts(own, sub, rest, |prefix|, k);
    }
  }

  lemma ThreeParts(own: Path, sub: seq<Path>, rest: seq<Path>, at: nat, k: nat)
    requires Distinct(sub) && Distinct(rest) && |own| == at + 1 && own[at] == k
    requires forall i :: 0 <= i < |sub| ==> sub[i] != own && |sub[i]| > at && sub[i][at] == k
    requires forall j :: 0 <= j < |rest| ==> |rest[j]| > at && rest[j][at] > k
    ensures Distinct([own] + sub + rest)
  {
    var upper := [own] + sub;
    forall i, j | 0 <= i < |upper| && 0 <= j < |rest|
      ensures upper[i] != rest[j]
    {
      assert upper[i][at] == k;
    }
    assert Distinct(upper);
  }

  // ---------------------------------------------------------------------------
  // The step of the code, which climbs one level
  // ---------------------------------------------------------------------------

  function CodeStep(forest: seq<Node>, item: Path): Option<Path>
    requires item != []
  {
    if ChildrenAt(forest, item) != [] then Some(item + [0])
    else
      var sibling := NextSibling(forest, item);
      if sibling.Some? then sibling
      else if |item| == 1 then None
      else NextSibling(forest, ParentOf(item))
  }

  /** The next item is the sibling of an ancestor above the parent. */
  predicate NeedsLongerClimb(forest: seq<Node>, item: Path)
    requires item != []
  {
    && ChildrenAt(forest, item) == [] && NextSibling(forest, item).None?
    && |item| > 1 && NextSibling(forest, ParentOf(item)).None?
    && Climb(forest, ParentOf(ParentOf(item))).Some?
  }

  lemma StepIsNextExactly(forest: seq<Node>, item: Path)
    requires item != []
    ensures CodeStep(forest, item) == NextItem(forest, item) <==> !NeedsLongerClimb(forest, item)
    ensures NeedsLongerClimb(forest, item) ==> CodeStep(forest, item) == None
  {
    if ChildrenAt(forest, item) == [] && NextSibling(forest, item).None? {
      assert Climb(forest, item) == Climb(forest, ParentOf(item));
    }
  }

  ghost predicate TwoLevels(forest: seq<Node>) {
    forall i, j :: 0 <= i < |forest| && 0 <= j < |forest[i].children| ==> forest[i].children[j].children == []
  }

  /** On two levels one climb is always enough. */
  lemma TwoLevelsNeedNoLongerClimb(forest: seq<Node>, item: Path)
    requires TwoLevels(forest) && item in Preorder(forest)
    ensures item != [] && !NeedsLongerClimb(forest, item)
  {
    WalkStaysBelow(forest, [], 0, item);
    TwoLevelPaths(forest, item);
  }

  lemma TwoLevelPaths(forest: seq<Node>, item: Path)
    requires TwoLevels(forest) && item in Preorder(forest)
    ensures |item| <= 2
  {
    if |item| > 2 {
      TwoLevelsFrom(forest, 0, item);
    }
  }

  lemma {:induction false} TwoLevelsFrom(forest: seq<Node>, k: nat, item: Path)
    requires TwoLevels(forest) && k <= |forest| && item in From(forest, [], k)
    ensures |item| <= 2
    decreases |forest| - k
  {
    var own: Path := [] + [k];
    if item in From(forest[k].children, own, 0) {
      LeavesFrom(forest[k].children, own, 0, item);
    } else if item in From(forest, [], k + 1) {
      TwoLevelsFrom(forest, k + 1, item);
    }
  }

  lemma {:induction false} LeavesFrom(nodes: seq<Node>, prefix: Path, k: nat, item: Path)
    requires k <= |nodes| && item in From(nodes, prefix, k)
    requires forall j :: 0 <= j < |nodes| ==> nodes[j].children == []
    ensures |item| == |prefix| + 1
    decreases |nodes| - k
  {
    assert nodes[k].children == [];
    if item in From(nodes, prefix, k + 1) {
      LeavesFrom(nodes, prefix, k + 1, item);
    }
  }

  // ---------------------------------------------------------------------------
  // Listing
  // ---------------------------------------------------------------------------

  lemma AfterIs(forest: seq<Node>, n: nat)
    requires n < |Preorder(forest)|
    ensures var s := Preorder(forest); NextItem(forest, s[n]) == if n + 1 < |s| then Some(s[n + 1]) else None
    ensures Preorder(forest)[n] != []
  {
    WalkIsChained(forest, [], 0);
    WalkStaysBelow(forest, [], 0, Preorder(forest)[n]);
  }

  /** No item from the i-th on and before the j-th needs a longer climb. */
  ghost predicate OneClimbEnough(forest: seq<Node>, i: nat, j: nat) {
    forall n :: i <= n < j && n < |Preorder(forest)| && Preorder(forest)[n] != [] ==> !NeedsLongerClimb(forest, Preorder(forest)[n])
  }

  /** What one step of the code finds after the n-th item. */
  lemma StepFrom(forest: seq<Node>, n: nat)
    requires n < |Preorder(forest)|
    ensures Preorder(forest)[n] != []
    ensures NeedsLongerClimb(forest, Preorder(forest)[n]) ==> CodeStep(forest, Preorder(forest)[n]) == None
    ensures !NeedsLongerClimb(forest, Preorder(forest)[n]) ==>
      CodeStep(forest, Preorder(forest)[n]) == if n + 1 < |Preorder(forest)| then Some(Preorder(forest)[n + 1]) else None
  {
    AfterIs(forest, n);
    StepIsNextExactly(forest, Preorder(forest)[n]);
  }

  lemma NotListed(walk: seq<Path>, i: nat, n: nat, j: nat)
    requires Distinct(walk) && i <= n <= |walk| && j < |walk| && (j < i || n <= j)
    ensures walk[j] !in walk[i..n]
  {
    forall k | i <= k < n
      ensures walk[k] != walk[j]
    {
    }
  }

  /** Why the listing stopped: it found `to`, it had to climb further, or there was no next item. */
  datatype Stop = Found | LongerClimb | NoNext

  method ListFrom(forest: seq<Node>, from: Path, to: Path, ghost i: nat) returns (result: seq<Path>, ghost k: nat, ghost stop: Stop)
    requires i < |Preorder(forest)| && Preorder(forest)[i] == from
    ensures i <= k < |Preorder(forest)| && result == Preorder(forest)[i..k + 1] && OneClimbEnough(forest, i, k)
    ensures forall n :: i <= n < k ==> Preorder(forest)[n] != to
    ensures match stop
      case Found => Preorder(forest)[k] == to
      case LongerClimb => Preorder(forest)[k] != to && !OneClimbEnough(forest, i, k + 1)
      case NoNext => Preorder(forest)[k] != to && k + 1 == |Preorder(forest)|
  {
    ghost var walk := Preorder(forest);
    k := i;
    stop := Found;
    result := [];
    var item := from;
    while true
      invariant i <= k < |walk| && item == walk[k] && result == walk[i..k]
      invariant OneClimbEnough(forest, i, k)
      invariant forall n :: i <= n < k ==> walk[n] != to
      decreases |walk| - k
    {
      result := result + [item];
      if item == to {
        break;
      }
      StepFrom(forest, k);
      match CodeStep(forest, item) {
        case None =>
          stop := if NeedsLongerClimb(forest, item) then LongerClimb else NoNext;
          break;
        case Some(next) =>
          item := next;
          k := k + 1;
      }
    }
  }

  /** Exactly when `to` does not come before `from` and one climb is always enough on the way, the result
      is the walk from one to the other; otherwise it ends without ever reaching `to`. */
  method ListAllBetween(forest: seq<Node>, from: Path, to: Path, ghost i: nat, ghost j: nat) returns (result: seq<Path>)
    requires i < |Preorder(forest)| && Preorder(forest)[i] == from
    requires j < |Preorder(forest)| && Preorder(forest)[j] == to
    ensures i <= j && OneClimbEnough(forest, i, j) ==> result == Preorder(forest)[i..j + 1]
    ensures !(i <= j && OneClimbEnough(forest, i, j)) ==> to !in result
  {
    ghost var k, stop;
    result, k, stop := ListFrom(forest, from, to, i);
    WalkIsDistinct(forest, [], 0);
    if stop == Found {
      assert k == j;
    } else {
      assert j < i || k < j;
      NotListed(Preorder(forest), i, k + 1, j);
      if stop == LongerClimb && i <= j {
        assert !OneClimbEnough(forest, i, j);
      }
    }
  }

  /** On two-level models the listing is always the walk from the first item to the second. */
  method ListOnTwoLevels(forest: seq<Node>, from: Path, to: Path, ghost i: nat, ghost j: nat) returns (result: seq<Path>)
    requires TwoLevels(forest) && i <= j < |Preorder(forest)|
    requires Preorder(forest)[i] == from && Preorder(forest)[j] == to
    ensures result == Preorder(forest)[i..j + 1]
  {
    forall n | 0 <= n < |Preorder(forest)|
      ensures Preorder(forest)[n] != [] && !NeedsLongerClimb(forest, Preorder(forest)[n])
    {
      TwoLevelsNeedNoLongerClimb(forest, Preorder(forest)[n]);
    }
    result := ListAllBetween(forest, from, to, i, j);
  }
}
