/**
 * `event_dispatch_to_avm2` as a function of the state it reads: which
 * script events one clip event produces, in what order, what the clip event
 * reports, and what becomes of the object's last-click time.
 */
module ScriptDispatch {
  import opened Events
  import opened Ancestry
  import opened ChainWalk

  /** What one call achieves: the reported result, the script events in the
      order they are dispatched, and the object's new `last_click`. */
  datatype DispatchOutcome = DispatchOutcome(
    result: ClipEventResult,
    deliveries: seq<Delivery>,
    lastClick: Option<Instant>)

  /** `object2()`; a display object the arena does not know has none. */
  function ScriptObject(scripts: map<Node, Avm2Value>, n: Node): Avm2Value {
    if n in scripts then scripts[n] else Undefined
  }

  /** `this_click - lc`. A monotonic clock never reads earlier than a
      reading it gave before; for such a reading this model chooses a zero
      duration, so that it counts as within the double-click window. */
  function Elapsed(now: Instant, lc: Instant): nat {
    if now >= lc then now - lc else 0
  }

  /** A release is a double click when double clicks are enabled and the
      previous click lies less than one second back: `now` is before the
      moment one second after it. */
  predicate IsDoubleClick(doubleClickEnabled: bool, lastClick: Option<Instant>, now: Instant): (r: bool)
    ensures r <==> doubleClickEnabled && lastClick.Some? && now < lastClick.value + ONE_SECOND
  {
    doubleClickEnabled && lastClick.Some? && Elapsed(now, lastClick.value) < ONE_SECOND
  }

  /** The clip events that the interactive layer turns into script events. */
  predicate Interpreted(e: ClipEvent) {
    !e.Other?
  }

  /** The clip events that mean the pointer left the object. */
  predicate Leaves(e: ClipEvent) {
    e.ReleaseOutside? || e.RollOut? || e.DragOut?
  }

  /** The script event named `name` about `t`, dispatched to the script
      object of `t` if it has one. */
  function EventAt(scripts: map<Node, Avm2Value>, t: Node, name: string, related: Option<Node>): seq<Delivery> {
    match ScriptObject(scripts, t)
    case Object(o) => [Delivery(o, MouseEvent(name, t, related, 0))]
    case _ => []
  }

  /** The events a chain walk over `nodes` dispatches, in walk order: nodes
      without a script object are passed over, so there are at most as many
      events as nodes, and each is `name` with the same related object. */
  function ChainEvents(scripts: map<Node, Avm2Value>, nodes: seq<Node>, name: string, related: Option<Node>): (r: seq<Delivery>)
    ensures |r| <= |nodes|
    ensures forall k :: 0 <= k < |r| ==> r[k].event.name == name && r[k].event.related == related
    decreases |nodes|
  {
    if nodes == [] then []
    else ChainEvents(scripts, nodes[..|nodes| - 1], name, related)
         + EventAt(scripts, nodes[|nodes| - 1], name, related)
  }

  /** One more node at the end of a walk adds its event, if any, at the end. */
  lemma ChainEventsSnoc(scripts: map<Node, Avm2Value>, nodes: seq<Node>, t: Node,
                        name: string, related: Option<Node>)
    ensures ChainEvents(scripts, nodes + [t], name, related)
            == ChainEvents(scripts, nodes, name, related) + EventAt(scripts, t, name, related)
  {
    assert (nodes + [t])[..|nodes|] == nodes;
  }

  /** A walk over two nodes. */
  lemma ChainEventsPair(scripts: map<Node, Avm2Value>, x: Node, y: Node, name: string, related: Option<Node>)
    ensures ChainEvents(scripts, [x, y], name, related)
            == EventAt(scripts, x, name, related) + EventAt(scripts, y, name, related)
  {
    ChainEventsSnoc(scripts, [], x, name, related);
    ChainEventsSnoc(scripts, [x], y, name, related);
    assert [] + [x] == [x] && [x] + [y] == [x, y];
  }

  /** The boundary of a rollover or rollout chain: the lowest common ancestor
      of the subject and the other object, or the stage when there is none. */
  function ChainStop(g: SceneGraph, stage: Node, self: Node, other: Option<Node>): Option<Node>
    requires Valid(g)
  {
    Lca(g, self, other.GetOr(stage))
  }

  /** `event_dispatch_to_avm2` for the object `self` whose flags say whether
      double clicks are enabled and whose last click is `lastClick`, at the
      clock reading `now`. A handled event dispatches at least one script
      event and an unhandled one none; a new last-click time is only ever
      recorded by a release, and it is `now`. */
  function Avm2Dispatch(g: SceneGraph, scripts: map<Node, Avm2Value>, stage: Node, self: Node,
                        doubleClickEnabled: bool, lastClick: Option<Instant>,
                        event: ClipEvent, now: Instant): (r: DispatchOutcome)
    requires Valid(g)
    ensures r.result == Handled <==> r.deliveries != []
    ensures r.lastClick.Some? && r.lastClick != lastClick ==> event.Release? && r.lastClick == Some(now)
  {
    match ScriptObject(scripts, self)
    case Object(target) =>
      (match event
       case Press =>
         DispatchOutcome(Handled, [Delivery(target, MouseEvent("mouseDown", self, None, 0))], lastClick)
       case MouseUpInside =>
         DispatchOutcome(Handled, [Delivery(target, MouseEvent("mouseUp", self, None, 0))], lastClick)
       case Release =>
         if IsDoubleClick(doubleClickEnabled, lastClick, now) then
           DispatchOutcome(Handled, [Delivery(target, MouseEvent("doubleClick", self, None, 0))], None)
         else
           DispatchOutcome(Handled, [Delivery(target, MouseEvent("click", self, None, 0))], Some(now))
       case ReleaseOutside =>
         DispatchOutcome(Handled, [Delivery(target, MouseEvent("releaseOutside", self, None, 0))], None)
       case RollOut(to) =>
         DispatchOutcome(Handled, RollOutEvents(g, scripts, stage, self, target, to), None)
       case DragOut(to) =>
         DispatchOutcome(Handled, RollOutEvents(g, scripts, stage, self, target, to), None)
       case RollOver(from) =>
         DispatchOutcome(Handled, RollOverEvents(g, scripts, stage, self, target, from), lastClick)
       case DragOver(from) =>
         DispatchOutcome(Handled, RollOverEvents(g, scripts, stage, self, target, from), lastClick)
       case MouseWheel(lines) =>
         DispatchOutcome(Handled, [Delivery(target, MouseEvent("mouseWheel", self, None, lines))], lastClick)
       case MouseMoveInside =>
         DispatchOutcome(Handled, [Delivery(target, MouseEvent("mouseMove", self, None, 0))], lastClick)
       case Other(_) =>
         DispatchOutcome(NotHandled, [], lastClick))
    case _ => DispatchOutcome(NotHandled, [], lastClick)
  }

  /** `mouseOut` to the subject, then `rollOut` along the walk: every event
      after the first is a `rollOut` about the object moved to. */
  function RollOutEvents(g: SceneGraph, scripts: map<Node, Avm2Value>, stage: Node, self: Node,
                         target: nat, to: Option<Node>): (r: seq<Delivery>)
    requires Valid(g)
    ensures |r| >= 1 && r[0] == Delivery(target, MouseEvent("mouseOut", self, to, 0))
    ensures forall k :: 1 <= k < |r| ==> r[k].event.name == "rollOut" && r[k].event.related == to
  {
    [Delivery(target, MouseEvent("mouseOut", self, to, 0))]
      + ChainEvents(scripts, Walk(g, Some(self), ChainStop(g, stage, self, to)), "rollOut", to)
  }

  /** `mouseOut` along the walk, then `mouseOver` to the subject: every
      event before the last is a `mouseOut` about the object come from. */
  function RollOverEvents(g: SceneGraph, scripts: map<Node, Avm2Value>, stage: Node, self: Node,
                          target: nat, from: Option<Node>): (r: seq<Delivery>)
    requires Valid(g)
    ensures |r| >= 1 && r[|r| - 1] == Delivery(target, MouseEvent("mouseOver", self, from, 0))
    ensures forall k :: 0 <= k < |r| - 1 ==> r[k].event.name == "mouseOut" && r[k].event.related == from
  {
    ChainEvents(scripts, Walk(g, Some(self), ChainStop(g, stage, self, from)), "mouseOut", from)
      + [Delivery(target, MouseEvent("mouseOver", self, from, 0))]
  }

  /** A chain walk dispatches one event to each visited node that has a
      script object, and no other event. */
  lemma {:induction false} ChainEventsMembers(scripts: map<Node, Avm2Value>, nodes: seq<Node>,
                                              name: string, related: Option<Node>, d: Delivery)
    ensures d in ChainEvents(scripts, nodes, name, related) <==>
              && d.event.target in nodes
              && ScriptObject(scripts, d.event.target) == Object(d.receiver)
              && d.event == MouseEvent(name, d.event.target, related, 0)
    decreases |nodes|
  {
    if nodes != [] {
      var init, t := nodes[..|nodes| - 1], nodes[|nodes| - 1];
      ChainEventsMembers(scripts, init, name, related, d);
      assert nodes == init + [t];
    }
  }

  /** The result depends only on whether the object has a script side and
      whether the event is one the layer interprets; when it is not handled,
      nothing is dispatched and `last_click` is untouched. */
  lemma DispatchResult(g: SceneGraph, scripts: map<Node, Avm2Value>, stage: Node, self: Node,
                       dce: bool, lastClick: Option<Instant>, event: ClipEvent, now: Instant)
    requires Valid(g)
    ensures var r := Avm2Dispatch(g, scripts, stage, self, dce, lastClick, event, now);
            && (r.result == Handled <==> ScriptObject(scripts, self).Object? && Interpreted(event))
            && (r.result == NotHandled ==> r.deliveries == [] && r.lastClick == lastClick)
            && (r.result == Handled ==> |r.deliveries| >= 1)
  {
  }

  /** A release dispatches `doubleClick` exactly when double clicks are
      enabled and the last click lies less than a second back, and then
      forgets the last click; otherwise it dispatches `click` and remembers
      this one. */
  lemma DoubleClickLaw(g: SceneGraph, scripts: map<Node, Avm2Value>, stage: Node, self: Node,
                       dce: bool, lastClick: Option<Instant>, now: Instant)
    requires Valid(g) && ScriptObject(scripts, self).Object?
    ensures var r := Avm2Dispatch(g, scripts, stage, self, dce, lastClick, Release, now);
            var target := ScriptObject(scripts, self).id;
            && r.result == Handled
            && (r.deliveries == [Delivery(target, MouseEvent("doubleClick", self, None, 0))] <==>
                  dce && lastClick.Some? && Elapsed(now, lastClick.value) < ONE_SECOND)
            && (r.deliveries == [Delivery(target, MouseEvent("click", self, None, 0))] <==>
                  !(dce && lastClick.Some? && Elapsed(now, lastClick.value) < ONE_SECOND))
            && r.lastClick == (if r.deliveries[0].event.name == "click" then Some(now) else None)
  {
    assert "click" != "doubleClick";
  }

  /** Leaving the object forgets its last click, so the next release is a
      plain click whatever the flags and the clock say; every event other
      than a release or a leave keeps the last click as it was. */
  lemma LastClickLaw(g: SceneGraph, scripts: map<Node, Avm2Value>, stage: Node, self: Node,
                     dce: bool, lastClick: Option<Instant>, event: ClipEvent, now: Instant,
                     dce': bool, later: Instant)
    requires Valid(g) && ScriptObject(scripts, self).Object?
    ensures var r := Avm2Dispatch(g, scripts, stage, self, dce, lastClick, event, now);
            && (Leaves(event) ==> r.lastClick.None?)
            && (Leaves(event) ==>
                  Avm2Dispatch(g, scripts, stage, self, dce', r.lastClick, Release, later).deliveries
                  == [Delivery(ScriptObject(scripts, self).id, MouseEvent("click", self, None, 0))])
            && (!Leaves(event) && !event.Release? ==> r.lastClick == lastClick)
  {
  }

  /** Three releases with double clicks enabled, the second half a second
      after the first and the third two seconds after the first: `click`,
      `doubleClick`, then `click` again, because a double click forgets the
      last click. */
  lemma ThreeReleases(g: SceneGraph, scripts: map<Node, Avm2Value>, stage: Node, self: Node,
                      lastClick: Option<Instant>, t0: Instant)
    requires Valid(g) && ScriptObject(scripts, self).Object?
    requires lastClick.None? || lastClick.value + ONE_SECOND <= t0
    ensures var o := ScriptObject(scripts, self).id;
            var r1 := Avm2Dispatch(g, scripts, stage, self, true, lastClick, Release, t0);
            var r2 := Avm2Dispatch(g, scripts, stage, self, true, r1.lastClick, Release, t0 + ONE_SECOND / 2);
            var r3 := Avm2Dispatch(g, scripts, stage, self, true, r2.lastClick, Release, t0 + 2 * ONE_SECOND);
            && r1 == DispatchOutcome(Handled, [Delivery(o, MouseEvent("click", self, None, 0))], Some(t0))
            && r2 == DispatchOutcome(Handled, [Delivery(o, MouseEvent("doubleClick", self, None, 0))], None)
            && r3 == DispatchOutcome(Handled, [Delivery(o, MouseEvent("click", self, None, 0))], Some(t0 + 2 * ONE_SECOND))
  {
  }

  /** A press leaves the last click alone, so a press followed by a release
      with no earlier click gives `mouseDown` and then `click`. */
  lemma PressThenRelease(g: SceneGraph, scripts: map<Node, Avm2Value>, stage: Node, self: Node,
                         dce: bool, t0: Instant, t1: Instant)
    requires Valid(g) && ScriptObject(scripts, self).Object?
    ensures var o := ScriptObject(scripts, self).id;
            var r1 := Avm2Dispatch(g, scripts, stage, self, dce, None, Press, t0);
            var r2 := Avm2Dispatch(g, scripts, stage, self, dce, r1.lastClick, Release, t1);
            && r1 == DispatchOutcome(Handled, [Delivery(o, MouseEvent("mouseDown", self, None, 0))], None)
            && r2 == DispatchOutcome(Handled, [Delivery(o, MouseEvent("click", self, None, 0))], Some(t1))
  {
  }

  /** `RollOut` and `DragOut` dispatch `mouseOut` to the object first; every
      later event is a `rollOut` about an ancestor-or-self of the object that
      is no ancestor-or-self of the object the pointer moved to (the stage
      when none is given), sent to that node's script object; and each such
      node with a script object receives one. */
  lemma RollOutScope(g: SceneGraph, scripts: map<Node, Avm2Value>, stage: Node, self: Node,
                     dce: bool, lastClick: Option<Instant>, event: ClipEvent, now: Instant)
    requires Valid(g) && ScriptObject(scripts, self).Object?
    requires event.RollOut? || event.DragOut?
    ensures var r := Avm2Dispatch(g, scripts, stage, self, dce, lastClick, event, now);
            var other := event.to.GetOr(stage);
            && r.deliveries[0] == Delivery(ScriptObject(scripts, self).id, MouseEvent("mouseOut", self, event.to, 0))
            && r.deliveries[1..] == ChainEvents(scripts, Walk(g, Some(self), Lca(g, self, other)), "rollOut", event.to)
            && forall d :: d in r.deliveries[1..] <==>
                 && IsAncestorOrSelf(g, d.event.target, self)
                 && !IsAncestorOrSelf(g, d.event.target, other)
                 && ScriptObject(scripts, d.event.target) == Object(d.receiver)
                 && d.event == MouseEvent("rollOut", d.event.target, event.to, 0)
  {
    var r := Avm2Dispatch(g, scripts, stage, self, dce, lastClick, event, now);
    var other := event.to.GetOr(stage);
    var walk := Walk(g, Some(self), Lca(g, self, other));
    RollScope(g, self, other);
    assert r.deliveries[1..] == ChainEvents(scripts, walk, "rollOut", event.to);
    forall d
      ensures d in r.deliveries[1..] <==>
                && IsAncestorOrSelf(g, d.event.target, self)
                && !IsAncestorOrSelf(g, d.event.target, other)
                && ScriptObject(scripts, d.event.target) == Object(d.receiver)
                && d.event == MouseEvent("rollOut", d.event.target, event.to, 0)
    {
      ChainEventsMembers(scripts, walk, "rollOut", event.to, d);
    }
  }

  /** `RollOver` and `DragOver` dispatch `mouseOver` to the object last;
      every earlier event is a `mouseOut` about an ancestor-or-self of the
      object that is no ancestor-or-self of the object the pointer came from
      (the stage when none is given), and each such node with a script object
      receives one. */
  lemma RollOverScope(g: SceneGraph, scripts: map<Node, Avm2Value>, stage: Node, self: Node,
                      dce: bool, lastClick: Option<Instant>, event: ClipEvent, now: Instant)
    requires Valid(g) && ScriptObject(scripts, self).Object?
    requires event.RollOver? || event.DragOver?
    ensures var r := Avm2Dispatch(g, scripts, stage, self, dce, lastClick, event, now);
            var other := event.from.GetOr(stage);
            var n := |r.deliveries|;
            && n >= 1
            && r.deliveries[n - 1] == Delivery(ScriptObject(scripts, self).id, MouseEvent("mouseOver", self, event.from, 0))
            && r.lastClick == lastClick
            && r.deliveries[..n - 1] == ChainEvents(scripts, Walk(g, Some(self), Lca(g, self, other)), "mouseOut", event.from)
            && forall d :: d in r.deliveries[..n - 1] <==>
                 && IsAncestorOrSelf(g, d.event.target, self)
                 && !IsAncestorOrSelf(g, d.event.target, other)
                 && ScriptObject(scripts, d.event.target) == Object(d.receiver)
                 && d.event == MouseEvent("mouseOut", d.event.target, event.from, 0)
  {
    var r := Avm2Dispatch(g, scripts, stage, self, dce, lastClick, event, now);
    var other := event.from.GetOr(stage);
    var walk := Walk(g, Some(self), Lca(g, self, other));
    RollScope(g, self, other);
    var n := |r.deliveries|;
    assert r.deliveries[..n - 1] == ChainEvents(scripts, walk, "mouseOut", event.from);
    forall d
      ensures d in r.deliveries[..n - 1] <==>
                && IsAncestorOrSelf(g, d.event.target, self)
                && !IsAncestorOrSelf(g, d.event.target, other)
                && ScriptObject(scripts, d.event.target) == Object(d.receiver)
                && d.event == MouseEvent("mouseOut", d.event.target, event.from, 0)
    {
      ChainEventsMembers(scripts, walk, "mouseOut", event.from, d);
    }
  }

  /** A display list `root -> p -> q -> r`, with a second child `d` of `p`. */
  predicate IsScenario(g: SceneGraph, root: Node, p: Node, q: Node, r: Node, d: Node) {
    && ParentOf(g, root).None? && ParentOf(g, p) == Some(root) && ParentOf(g, q) == Some(p)
    && ParentOf(g, r) == Some(q) && ParentOf(g, d) == Some(p)
    && root != p && root != q && root != r && root != d
    && p != q && p != r && p != d && q != r && q != d && r != d
  }

  /** In the scenario, the lowest common ancestor of `r` and `d` is `p`, and
      the walk from `r` that stops there visits `r` and `q`. */
  lemma ScenarioChains(g: SceneGraph, root: Node, p: Node, q: Node, r: Node, d: Node)
    requires Valid(g) && IsScenario(g, root, p, q, r, d)
    ensures Lca(g, r, d) == Some(p)
    ensures Walk(g, Some(r), Some(p)) == [r, q]
  {
    var a, b := Chain(g, r), Chain(g, d);
    assert a == [r, q, p, root] by {
      ChainStep(g, root);
      ChainStep(g, p);
      ChainStep(g, q);
      ChainStep(g, r);
    }
    assert b == [d, p, root] by {
      ChainStep(g, root);
      ChainStep(g, p);
      ChainStep(g, d);
    }
    assert AgreeFromEnd(a, b, 2) by {
      assert FromEnd(a, 0) == root == FromEnd(b, 0);
      assert FromEnd(a, 1) == p == FromEnd(b, 1);
    }
    assert FromEnd(a, 2) == q && FromEnd(b, 2) == d;
    CommonSuffixEndsAt(a, b, 2);
    assert Walk(g, Some(p), Some(p)) == [];
    assert Walk(g, Some(q), Some(p)) == [q];
  }

  /** `r` rolling out towards `d`, whose lowest common ancestor with `r` is
      `p`: `mouseOut` to `r`, then `rollOut` to `r` and to `q`, and none to
      `p` or the root. */
  lemma RollOutScenario(g: SceneGraph, scripts: map<Node, Avm2Value>, root: Node, p: Node, q: Node, r: Node, d: Node,
                        stage: Node, dce: bool, lastClick: Option<Instant>, now: Instant)
    requires Valid(g) && IsScenario(g, root, p, q, r, d)
    requires ScriptObject(scripts, r).Object? && ScriptObject(scripts, q).Object?
    ensures var ro, qo := ScriptObject(scripts, r).id, ScriptObject(scripts, q).id;
            Avm2Dispatch(g, scripts, stage, r, dce, lastClick, RollOut(Some(d)), now)
            == DispatchOutcome(Handled,
                 [Delivery(ro, MouseEvent("mouseOut", r, Some(d), 0)),
                  Delivery(ro, MouseEvent("rollOut", r, Some(d), 0)),
                  Delivery(qo, MouseEvent("rollOut", q, Some(d), 0))],
                 None)
  {
    ScenarioChains(g, root, p, q, r, d);
    ChainEventsPair(scripts, r, q, "rollOut", Some(d));
  }
}
