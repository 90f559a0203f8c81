/**
 * The parent-ward walk that the rollover and rollout handlers perform:
 * starting at the event's subject, visit each node and move to its parent,
 * and stop on reaching the lowest common ancestor or after the root.
 */
module ChainWalk {
  import opened Events
  import opened Ancestry

  /** The nodes `rollover_target` takes in turn, from `cur` up the parent
      links, stopping before `stop` (compared by identity, `None` included)
      or after the root; `stop` itself is never visited. */
  function Walk(g: SceneGraph, cur: Option<Node>, stop: Option<Node>): (w: seq<Node>)
    requires Valid(g)
    ensures stop.Some? ==> stop.value !in w
    decreases OptRank(g, cur)
  {
    if cur.None? || cur == stop then []
    else [cur.value] + Walk(g, ParentOf(g, cur.value), stop)
  }

  /** The walk visits a prefix of the chain from its starting point, in
      chain order. */
  lemma {:induction false} WalkIsPrefix(g: SceneGraph, cur: Option<Node>, stop: Option<Node>)
    requires Valid(g)
    ensures Walk(g, cur, stop) <= OptChain(g, cur)
    decreases OptRank(g, cur)
  {
    if cur.Some? && cur != stop {
      ChainStep(g, cur.value);
      WalkIsPrefix(g, ParentOf(g, cur.value), stop);
    }
  }

  /** One step of the walk: a node that is not the stop point moves from
      the part still to walk to the part walked. */
  lemma WalkStep(g: SceneGraph, walked: seq<Node>, t: Node, stop: Option<Node>, whole: seq<Node>)
    requires Valid(g) && Some(t) != stop
    requires walked + Walk(g, Some(t), stop) == whole
    ensures (walked + [t]) + Walk(g, ParentOf(g, t), stop) == whole
  {
    var rest := Walk(g, ParentOf(g, t), stop);
    assert Walk(g, Some(t), stop) == [t] + rest;
    assert walked + ([t] + rest) == (walked + [t]) + rest;
  }

  /** A walk whose stop point is not on the chain runs up to the root. */
  lemma {:induction false} WalkToRoot(g: SceneGraph, n: Node, stop: Option<Node>)
    requires Valid(g)
    requires stop.None? || stop.value !in Chain(g, n)
    ensures Walk(g, Some(n), stop) == Chain(g, n)
    decreases Rank(g, n)
  {
    ChainStep(g, n);
    match ParentOf(g, n)
    case None =>
    case Some(p) =>
      assert Chain(g, n) == [n] + Chain(g, p);
      WalkToRoot(g, p, stop);
  }

  /** A walk that meets its stop point on the chain visits exactly the part
      of the chain below it. */
  lemma {:induction false} WalkStopsBefore(g: SceneGraph, n: Node, c: Node)
    requires Valid(g) && IsAncestorOrSelf(g, c, n)
    ensures Walk(g, Some(n), Some(c)) + Chain(g, c) == Chain(g, n)
    decreases Rank(g, n)
  {
    ChainStep(g, n);
    if n != c {
      var p := ParentOf(g, n).value;
      assert Chain(g, n) == [n] + Chain(g, p);
      WalkStopsBefore(g, p, c);
    }
  }

  /** The two halves of a sequence without repetitions share no element. */
  lemma DisjointHalves(s: seq<Node>, a: seq<Node>, b: seq<Node>)
    requires s == a + b && Distinct(s)
    ensures forall x :: x in a ==> x !in b
  {
    forall x | x in a
      ensures x !in b
    {
      var p :| 0 <= p < |a| && a[p] == x;
      forall q | 0 <= q < |b|
        ensures b[q] != x
      {
        assert s[p] == x && s[|a| + q] == b[q];
      }
    }
  }

  /** The walk from `n` that stops at the lowest common ancestor of `n` and
      `other` visits exactly the ancestors-or-self of `n` that are not
      ancestors-or-self of `other`, in order from `n` upward: the chain of
      `n` is the walk followed by the chain of that ancestor, or the walk
      alone when the two nodes have different roots. */
  lemma RollScope(g: SceneGraph, n: Node, other: Node)
    requires Valid(g)
    ensures Walk(g, Some(n), Lca(g, n, other)) + OptChain(g, Lca(g, n, other)) == Chain(g, n)
    ensures forall w :: w in Walk(g, Some(n), Lca(g, n, other)) <==>
                         IsAncestorOrSelf(g, w, n) && !IsAncestorOrSelf(g, w, other)
  {
    var l := Lca(g, n, other);
    var walk := Walk(g, Some(n), l);
    if l.None? {
      WalkToRoot(g, n, l);
      forall w
        ensures w in walk <==> IsAncestorOrSelf(g, w, n) && !IsAncestorOrSelf(g, w, other)
      {
        LcaIsLowest(g, n, other, w);
      }
    } else {
      var c := l.value;
      LcaIsCommon(g, n, other);
      WalkStopsBefore(g, n, c);
      ChainDistinct(g, n);
      DisjointHalves(Chain(g, n), walk, Chain(g, c));
      forall w
        ensures w in walk <==> IsAncestorOrSelf(g, w, n) && !IsAncestorOrSelf(g, w, other)
      {
        LcaIsLowest(g, n, other, w);
        if w in Chain(g, c) {
          AncestorTransitive(g, w, c, other);
        }
      }
    }
  }
}
