/**
 * The scene graph as an arena of handles, ancestor chains, and the lowest
 * common ancestor of two display objects (`lowest_common_ancestor`).
 */
module Ancestry {
  import opened Events

  /** The parts of the scene graph the interactive layer reads.
      `parent` holds every display object of the arena with its parent;
      `depth` numbers the objects so that a parent's number is smaller than
      its child's (the real tree's depth will do), which witnesses that the
      parent links are acyclic; `renderList` holds every container with its
      children in render order. */
  datatype SceneGraph = SceneGraph(
    parent: map<Node, Option<Node>>,
    depth: map<Node, nat>,
    renderList: map<Node, seq<Node>>)

  ghost predicate Valid(g: SceneGraph) {
    && g.depth.Keys == g.parent.Keys
    && (forall n :: ParentOf(g, n).Some? ==>
          ParentOf(g, n).value in g.parent && Rank(g, ParentOf(g, n).value) < Rank(g, n))
    && (forall c :: c in g.renderList ==> c in g.parent)
    && (forall c, i :: c in g.renderList && 0 <= i < |g.renderList[c]| ==>
          g.renderList[c][i] in g.parent && g.parent[g.renderList[c][i]] == Some(c))
  }

  /** `parent()`; a handle outside the arena has no parent. */
  function ParentOf(g: SceneGraph, n: Node): Option<Node> {
    if n in g.parent then g.parent[n] else None
  }

  function Rank(g: SceneGraph, n: Node): nat {
    if n in g.depth then g.depth[n] else 0
  }

  function OptRank(g: SceneGraph, o: Option<Node>): nat {
    match o
    case None => 0
    case Some(n) => Rank(g, n) + 1
  }

  /** The ancestor chain of `n`: `n` itself, its parent, and so on up to a root. */
  function Chain(g: SceneGraph, n: Node): (c: seq<Node>)
    requires Valid(g)
    ensures |c| >= 1 && c[0] == n
    decreases Rank(g, n)
  {
    match ParentOf(g, n)
    case None => [n]
    case Some(p) => [n] + Chain(g, p)
  }

  /** Each entry of a chain is followed by its parent, and the chain ends at
      a node without one: the push loop stops there. */
  lemma {:induction false} ChainLinks(g: SceneGraph, n: Node)
    requires Valid(g)
    ensures forall i :: 0 < i < |Chain(g, n)| ==> ParentOf(g, Chain(g, n)[i - 1]) == Some(Chain(g, n)[i])
    ensures ParentOf(g, Root(g, n)).None?
    decreases Rank(g, n)
  {
    match ParentOf(g, n)
    case None =>
    case Some(p) =>
      ChainLinks(g, p);
      assert Chain(g, n) == [n] + Chain(g, p);
  }

  /** One step of the parent walk: a node followed by its parent's chain. */
  lemma ChainStep(g: SceneGraph, n: Node)
    requires Valid(g)
    ensures Chain(g, n) == [n] + OptChain(g, ParentOf(g, n))
  {
  }

  /** The chain from an optional starting point; empty for `None`. */
  function OptChain(g: SceneGraph, o: Option<Node>): seq<Node>
    requires Valid(g)
  {
    match o
    case None => []
    case Some(n) => Chain(g, n)
  }

  function Root(g: SceneGraph, n: Node): Node
    requires Valid(g)
  {
    var c := Chain(g, n);
    c[|c| - 1]
  }

  ghost predicate IsAncestorOrSelf(g: SceneGraph, a: Node, n: Node)
    requires Valid(g)
  {
    a in Chain(g, n)
  }

  ghost predicate IsCommonAncestor(g: SceneGraph, c: Node, x: Node, y: Node)
    requires Valid(g)
  {
    IsAncestorOrSelf(g, c, x) && IsAncestorOrSelf(g, c, y)
  }

  /** From index `j` on, the chain of `n` is the chain of its `j`-th ancestor. */
  lemma {:induction false} ChainSuffix(g: SceneGraph, n: Node, j: nat)
    requires Valid(g) && j < |Chain(g, n)|
    ensures Chain(g, n)[j..] == Chain(g, Chain(g, n)[j])
    decreases j
  {
    if j > 0 {
      var p := ParentOf(g, n).value;
      assert Chain(g, n) == [n] + Chain(g, p);
      ChainSuffix(g, p, j - 1);
      assert Chain(g, n)[j..] == Chain(g, p)[j - 1..];
    }
  }

  /** Being an ancestor-or-self is transitive. */
  lemma AncestorTransitive(g: SceneGraph, a: Node, b: Node, n: Node)
    requires Valid(g) && IsAncestorOrSelf(g, a, b) && IsAncestorOrSelf(g, b, n)
    ensures IsAncestorOrSelf(g, a, n)
  {
    var j :| 0 <= j < |Chain(g, n)| && Chain(g, n)[j] == b;
    ChainSuffix(g, n, j);
  }

  /** A chain that starts inside the arena stays inside it, and every strict
      ancestor has a smaller depth. */
  lemma {:induction false} ChainInArena(g: SceneGraph, n: Node)
    requires Valid(g)
    ensures n in g.parent ==> forall i :: 0 <= i < |Chain(g, n)| ==> Chain(g, n)[i] in g.parent
    ensures forall i :: 0 < i < |Chain(g, n)| ==> Rank(g, Chain(g, n)[i]) < Rank(g, n)
    decreases Rank(g, n)
  {
    match ParentOf(g, n)
    case None =>
    case Some(p) =>
      ChainInArena(g, p);
      assert Chain(g, n) == [n] + Chain(g, p);
  }

  /** No handle occurs twice in `s`. */
  predicate Distinct(s: seq<Node>) {
    forall i, j :: 0 <= i < j < |s| ==> s[i] != s[j]
  }

  /** No handle occurs twice in a chain. */
  lemma ChainDistinct(g: SceneGraph, n: Node)
    requires Valid(g)
    ensures Distinct(Chain(g, n))
  {
    var c := Chain(g, n);
    forall i, j | 0 <= i < j < |c|
      ensures c[i] != c[j]
    {
      ChainSuffix(g, n, i);
      ChainInArena(g, c[i]);
      assert c[j] == Chain(g, c[i])[j - i];
    }
  }

  function Elements(s: seq<Node>): set<Node> {
    set x | x in s
  }

  lemma {:induction false} DistinctCardinality(s: seq<Node>)
    requires Distinct(s)
    ensures |Elements(s)| == |s|
  {
    if s == [] {
      assert Elements(s) == {};
    } else {
      var tail := s[1..];
      DistinctCardinality(tail);
      assert Elements(s) == {s[0]} + Elements(tail);
      forall j | 0 <= j < |tail|
        ensures tail[j] != s[0]
      {
        assert tail[j] == s[j + 1];
      }
    }
  }

  /** A chain inside the arena is no longer than the arena is large. */
  lemma ChainLength(g: SceneGraph, n: Node)
    requires Valid(g) && n in g.parent
    ensures |Chain(g, n)| <= |g.parent.Keys|
  {
    var c := Chain(g, n);
    ChainInArena(g, n);
    ChainDistinct(g, n);
    DistinctCardinality(c);
    assert Elements(c) <= g.parent.Keys;
    assert g.parent.Keys == Elements(c) + (g.parent.Keys - Elements(c));
  }

  /** How far below the arena's size a node's chain is; a container's
      children have smaller heights than the container. */
  ghost function Height(g: SceneGraph, n: Node): int
    requires Valid(g)
  {
    |g.parent.Keys| - |Chain(g, n)|
  }

  lemma ChildHeight(g: SceneGraph, c: Node, i: nat)
    requires Valid(g) && c in g.renderList && i < |g.renderList[c]|
    ensures Chain(g, g.renderList[c][i]) == [g.renderList[c][i]] + Chain(g, c)
    ensures 0 <= Height(g, g.renderList[c][i]) < Height(g, c)
  {
    var k := g.renderList[c][i];
    assert ParentOf(g, k) == Some(c);
    ChainLength(g, k);
  }

  /** The entry `t` places before the end of `s` (`t == 0` is the last one). */
  function FromEnd(s: seq<Node>, t: nat): Node
    requires t < |s|
  {
    s[|s| - 1 - t]
  }

  /** The last `k` entries of `a` and `b` are the same, pairwise. */
  predicate AgreeFromEnd(a: seq<Node>, b: seq<Node>, k: nat) {
    k <= |a| && k <= |b| && forall t :: 0 <= t < k ==> FromEnd(a, t) == FromEnd(b, t)
  }

  /** Length of the longest common suffix of `a` and `b`: the number of equal
      pairs at the start of the two reversed sequences walked side by side. */
  function CommonSuffixLength(a: seq<Node>, b: seq<Node>): (k: nat)
    ensures AgreeFromEnd(a, b, k)
    ensures k < |a| && k < |b| ==> FromEnd(a, k) != FromEnd(b, k)
  {
    CommonSuffixFrom(a, b, 0)
  }

  /** The common suffix length, given that the last `k` entries already agree. */
  function CommonSuffixFrom(a: seq<Node>, b: seq<Node>, k: nat): (r: nat)
    requires AgreeFromEnd(a, b, k)
    ensures k <= r && AgreeFromEnd(a, b, r)
    ensures r < |a| && r < |b| ==> FromEnd(a, r) != FromEnd(b, r)
    decreases |a| - k
  {
    if k == |a| || k == |b| || FromEnd(a, k) != FromEnd(b, k) then k
    else CommonSuffixFrom(a, b, k + 1)
  }

  /** No common suffix is longer than `CommonSuffixLength`. */
  lemma CommonSuffixIsLongest(a: seq<Node>, b: seq<Node>, m: nat)
    requires AgreeFromEnd(a, b, m)
    ensures m <= CommonSuffixLength(a, b)
  {
  }

  /** A common suffix that cannot be extended is the longest one. */
  lemma CommonSuffixEndsAt(a: seq<Node>, b: seq<Node>, k: nat)
    requires AgreeFromEnd(a, b, k)
    requires k == |a| || k == |b| || FromEnd(a, k) != FromEnd(b, k)
    ensures CommonSuffixLength(a, b) == k
  {
    CommonSuffixIsLongest(a, b, k);
  }

  /** Two sequences that end in the same `m` entries, written as slices. */
  lemma SameTailAgrees(a: seq<Node>, b: seq<Node>, i: nat, j: nat)
    requires i <= |a| && j <= |b| && a[i..] == b[j..]
    ensures AgreeFromEnd(a, b, |a| - i)
  {
    forall t | 0 <= t < |a| - i
      ensures FromEnd(a, t) == FromEnd(b, t)
    {
      assert FromEnd(a, t) == a[i..][|a| - i - 1 - t];
      assert FromEnd(b, t) == b[j..][|b| - j - 1 - t];
    }
  }

  /** The last entry two root-last sequences agree on, counting from their ends. */
  function LastCommon(a: seq<Node>, b: seq<Node>): Option<Node> {
    var k := CommonSuffixLength(a, b);
    if k == 0 then None else Some(FromEnd(a, k - 1))
  }

  /** The last entry the two root-first chains of `x` and `y` agree on; there
      is one exactly when both chains end at the same root. */
  function Lca(g: SceneGraph, x: Node, y: Node): (r: Option<Node>)
    requires Valid(g)
    ensures r.Some? <==> Root(g, x) == Root(g, y)
  {
    var a, b := Chain(g, x), Chain(g, y);
    assert Root(g, x) == FromEnd(a, 0) && Root(g, y) == FromEnd(b, 0);
    LastCommon(a, b)
  }

  /** Where a common ancestor-or-self sits in both chains, those chains end
      alike from there on. */
  lemma CommonAncestorAgrees(g: SceneGraph, x: Node, y: Node, d: Node) returns (i: nat, j: nat)
    requires Valid(g) && IsCommonAncestor(g, d, x, y)
    ensures i < |Chain(g, x)| && Chain(g, x)[i] == d
    ensures j < |Chain(g, y)| && Chain(g, y)[j] == d
    ensures Chain(g, x)[i..] == Chain(g, d) == Chain(g, y)[j..]
    ensures AgreeFromEnd(Chain(g, x), Chain(g, y), |Chain(g, x)| - i)
  {
    var a, b := Chain(g, x), Chain(g, y);
    i :| 0 <= i < |a| && a[i] == d;
    j :| 0 <= j < |b| && b[j] == d;
    ChainSuffix(g, x, i);
    ChainSuffix(g, y, j);
    SameTailAgrees(a, b, i, j);
  }

  /** The lowest common ancestor is a common ancestor-or-self of both nodes. */
  lemma LcaIsCommon(g: SceneGraph, x: Node, y: Node)
    requires Valid(g) && Lca(g, x, y).Some?
    ensures IsCommonAncestor(g, Lca(g, x, y).value, x, y)
  {
    var a, b := Chain(g, x), Chain(g, y);
    var k := CommonSuffixLength(a, b);
    assert a[|a| - k] == FromEnd(a, k - 1) == FromEnd(b, k - 1) == b[|b| - k];
  }

  /** Whenever the two nodes share an ancestor-or-self `d`, they have a lowest
      common ancestor, and `d` is an ancestor-or-self of it. */
  lemma LcaIsLowest(g: SceneGraph, x: Node, y: Node, d: Node)
    requires Valid(g)
    ensures IsCommonAncestor(g, d, x, y) ==>
              Lca(g, x, y).Some? && IsAncestorOrSelf(g, d, Lca(g, x, y).value)
  {
    if IsCommonAncestor(g, d, x, y) {
      var a, b := Chain(g, x), Chain(g, y);
      var k := CommonSuffixLength(a, b);
      var i: nat :| i < |a| && a[i] == d;
      assert |a| - k <= i by {
        var i', j := CommonAncestorAgrees(g, x, y, d);
        ChainDistinct(g, x);
        assert i' == i;
        CommonSuffixIsLongest(a, b, |a| - i);
      }
      assert Chain(g, a[|a| - k]) == a[|a| - k..] by {
        ChainSuffix(g, x, |a| - k);
      }
      assert d == a[|a| - k..][i - (|a| - k)];
    }
  }

  /** `lowest_common_ancestor(x, x)` is `x`. */
  lemma LcaSelf(g: SceneGraph, x: Node)
    requires Valid(g)
    ensures Lca(g, x, x) == Some(x)
  {
    var a := Chain(g, x);
    CommonSuffixIsLongest(a, a, |a|);
    assert FromEnd(a, |a| - 1) == x;
  }

  /** Of a node and one of its ancestors, the ancestor is the lowest common
      ancestor, whichever way round they are given. */
  lemma LcaOfAncestor(g: SceneGraph, x: Node, d: Node)
    requires Valid(g) && IsAncestorOrSelf(g, d, x)
    ensures Lca(g, x, d) == Some(d)
    ensures Lca(g, d, x) == Some(d)
  {
    var a, b := Chain(g, x), Chain(g, d);
    var i :| 0 <= i < |a| && a[i] == d;
    ChainSuffix(g, x, i);
    SameTailAgrees(a, b, i, 0);
    SameTailAgrees(b, a, 0, i);
    CommonSuffixEndsAt(a, b, |b|);
    CommonSuffixEndsAt(b, a, |b|);
    assert FromEnd(a, |b| - 1) == a[i] && FromEnd(b, |b| - 1) == b[0];
  }

  /** `lowest_common_ancestor`: collect both parent chains, then walk them
      root-first side by side while the entries are the same object. */
  method LowestCommonAncestor(g: SceneGraph, from: Node, to: Node) returns (hca: Option<Node>)
    requires Valid(g)
    ensures hca == Lca(g, from, to)
  {
    var fromParents: seq<Node> := [];
    var us := Some(from);
    while us.Some?
      invariant fromParents + OptChain(g, us) == Chain(g, from)
      decreases OptRank(g, us)
    {
      var parent := us.value;
      ChainStep(g, parent);
      fromParents := fromParents + [parent];
      us := ParentOf(g, parent);
    }

    var toParents: seq<Node> := [];
    var them := Some(to);
    while them.Some?
      invariant toParents + OptChain(g, them) == Chain(g, to)
      decreases OptRank(g, them)
    {
      var parent := them.value;
      ChainStep(g, parent);
      toParents := toParents + [parent];
      them := ParentOf(g, parent);
    }

    assert fromParents == Chain(g, from) && toParents == Chain(g, to);
    hca := LastCommonEntry(fromParents, toParents);
  }

  /** The second half of `lowest_common_ancestor`: walk two parent chains
      from their root ends while the entries are the same object, keeping the
      last shared one. */
  method LastCommonEntry(fromParents: seq<Node>, toParents: seq<Node>) returns (hca: Option<Node>)
    ensures hca == LastCommon(fromParents, toParents)
  {
    hca := None;
    var i := 0;
    while i < |fromParents| && i < |toParents|
      invariant AgreeFromEnd(fromParents, toParents, i)
      invariant hca == if i == 0 then None else Some(FromEnd(fromParents, i - 1))
    {
      var usParent := fromParents[|fromParents| - 1 - i];
      var themParent := toParents[|toParents| - 1 - i];
      if usParent == themParent {
        hca := Some(usParent);
      } else {
        break;
      }
      i := i + 1;
    }
    CommonSuffixEndsAt(fromParents, toParents, i);
  }
}
