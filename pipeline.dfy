/**
 * `handle_clip_event` and the default `propagate_to_children` as functions:
 * the mouse-enabled gate, the filter hook, depth-first propagation into the
 * interactive children in render order, and local dispatch. The per-kind
 * hooks are parameters, and the outcome records every hook call so that
 * "not called" and "not visited" can be stated.
 */
module ClipPipeline {
  import opened Events
  import opened Ancestry

  /** The per-kind behaviour the pipeline calls into: `filter_clip_event`,
      `event_dispatch`, and whether an event kind propagates to children. */
  datatype Hooks = Hooks(
    filter: (Node, ClipEvent) -> ClipEventResult,
    dispatch: (Node, ClipEvent) -> ClipEventResult,
    propagates: ClipEvent -> bool)

  /** What the pipeline sees of the display list: the scene graph, the
      display objects that are interactive (`as_interactive()` succeeds),
      and those of them that are mouse enabled. */
  datatype World = World(graph: SceneGraph, interactive: set<Node>, enabled: set<Node>, hooks: Hooks)

  ghost predicate WorldValid(w: World) {
    Valid(w.graph) && w.enabled <= w.interactive
  }

  /** One step of the pipeline: `handle_clip_event` entered on a node, or a
      hook called on it. */
  datatype Step = Visit(n: Node) | Filter(n: Node) | Dispatch(n: Node)

  datatype Outcome = Outcome(result: ClipEventResult, trace: seq<Step>)

  /** The render list of a container. */
  function Kids(w: World, n: Node): seq<Node>
    requires n in w.graph.renderList
  {
    w.graph.renderList[n]
  }

  /** `handle_clip_event` on `n`: the first step is always the visit of `n`,
      and the event is only handled by an enabled node whose filter passes
      it. */
  function Handle(w: World, n: Node, e: ClipEvent): (r: Outcome)
    requires WorldValid(w)
    ensures |r.trace| >= 1 && r.trace[0] == Visit(n)
    ensures r.result == Handled ==> n in w.enabled && w.hooks.filter(n, e) == Handled
    decreases Height(w.graph, n), 2
  {
    if n !in w.enabled then Outcome(NotHandled, [Visit(n)])
    else if w.hooks.filter(n, e) == NotHandled then Outcome(NotHandled, [Visit(n), Filter(n)])
    else
      var p := Propagate(w, n, e);
      if p.result == Handled then Outcome(Handled, [Visit(n), Filter(n)] + p.trace)
      else Outcome(w.hooks.dispatch(n, e), [Visit(n), Filter(n)] + p.trace + [Dispatch(n)])
  }

  /** The default `propagate_to_children` on `n`: only an event that
      propagates, reaching a container, can be handled. */
  function Propagate(w: World, n: Node, e: ClipEvent): (r: Outcome)
    requires WorldValid(w)
    ensures r.result == Handled ==> w.hooks.propagates(e) && n in w.graph.renderList
    decreases Height(w.graph, n), 1
  {
    if !w.hooks.propagates(e) || n !in w.graph.renderList then Outcome(NotHandled, [])
    else Children(w, n, e, 0)
  }

  /** The propagation loop from the `i`-th child of `n` on: the event can
      only be handled if some child from `i` on is mouse enabled. */
  function Children(w: World, n: Node, e: ClipEvent, i: nat): (r: Outcome)
    requires WorldValid(w) && n in w.graph.renderList && i <= |Kids(w, n)|
    ensures r.result == Handled ==> exists j :: i <= j < |Kids(w, n)| && Kids(w, n)[j] in w.enabled
    decreases Height(w.graph, n), 0, |Kids(w, n)| - i
  {
    if i == |Kids(w, n)| then Outcome(NotHandled, [])
    else
      var k := Kids(w, n)[i];
      if k !in w.interactive then Children(w, n, e, i + 1)
      else
        ChildHeight(w.graph, n, i);
        var o := Handle(w, k, e);
        if o.result == Handled then o
        else
          var rest := Children(w, n, e, i + 1);
          Outcome(rest.result, o.trace + rest.trace)
  }

  /** One turn of the propagation loop. */
  lemma ChildrenStep(w: World, n: Node, e: ClipEvent, i: nat)
    requires WorldValid(w) && n in w.graph.renderList && i < |Kids(w, n)|
    ensures var k := Kids(w, n)[i];
            var rest := Children(w, n, e, i + 1);
            Children(w, n, e, i) ==
              if k !in w.interactive then rest
              else if Handle(w, k, e).result == Handled then Handle(w, k, e)
              else Outcome(rest.result, Handle(w, k, e).trace + rest.trace)
  {
  }

  /** One turn of the propagation loop, stated against the loop's
      invariant: the trace gathered over the children before `i`, followed
      by what the loop does from `i` on, is what it does from the start. */
  lemma LoopStep(w: World, n: Node, e: ClipEvent, i: nat, trace: seq<Step>)
    requires WorldValid(w) && n in w.graph.renderList && i < |Kids(w, n)|
    requires Children(w, n, e, 0) == Outcome(Children(w, n, e, i).result, trace + Children(w, n, e, i).trace)
    ensures var k := Kids(w, n)[i];
            var rest := Children(w, n, e, i + 1);
            if k !in w.interactive then
              Children(w, n, e, 0) == Outcome(rest.result, trace + rest.trace)
            else if Handle(w, k, e).result == Handled then
              Children(w, n, e, 0) == Outcome(Handled, trace + Handle(w, k, e).trace)
            else
              Children(w, n, e, 0) == Outcome(rest.result, (trace + Handle(w, k, e).trace) + rest.trace)
  {
    ChildrenStep(w, n, e, i);
    var k := Kids(w, n)[i];
    if k in w.interactive && Handle(w, k, e).result != Handled {
      var rest := Children(w, n, e, i + 1);
      assert trace + (Handle(w, k, e).trace + rest.trace) == (trace + Handle(w, k, e).trace) + rest.trace;
    }
  }

  /** The `i`-th child is interactive and handles the event. */
  ghost predicate HandledBy(w: World, n: Node, e: ClipEvent, i: nat)
    requires WorldValid(w) && n in w.graph.renderList && i < |Kids(w, n)|
  {
    Kids(w, n)[i] in w.interactive && Handle(w, Kids(w, n)[i], e).result == Handled
  }

  /** The traces of the interactive children from index `i` up to `j`. */
  ghost function ChildTraces(w: World, n: Node, e: ClipEvent, i: nat, j: nat): seq<Step>
    requires WorldValid(w) && n in w.graph.renderList && i <= j <= |Kids(w, n)|
    decreases j - i
  {
    if i == j then []
    else
      (if Kids(w, n)[i] in w.interactive then Handle(w, Kids(w, n)[i], e).trace else [])
        + ChildTraces(w, n, e, i + 1, j)
  }

  /** When no interactive child from `i` on handles the event, the
      propagation loop visits every one of them and reports `NotHandled`. */
  lemma {:induction false} ChildrenUnhandled(w: World, n: Node, e: ClipEvent, i: nat)
    requires WorldValid(w) && n in w.graph.renderList && i <= |Kids(w, n)|
    requires forall j :: i <= j < |Kids(w, n)| ==> !HandledBy(w, n, e, j)
    ensures Children(w, n, e, i) == Outcome(NotHandled, ChildTraces(w, n, e, i, |Kids(w, n)|))
    decreases |Kids(w, n)| - i
  {
    if i < |Kids(w, n)| {
      assert !HandledBy(w, n, e, i);
      ChildrenUnhandled(w, n, e, i + 1);
    }
  }

  /** When the `j`-th child is the first interactive child from `i` on that
      handles the event, the propagation loop reports `Handled` after
      visiting exactly the interactive children from `i` up to and including
      that one, and no later child. */
  lemma {:induction false} ChildrenStopAtFirstHandled(w: World, n: Node, e: ClipEvent, i: nat, j: nat)
    requires WorldValid(w) && n in w.graph.renderList && i <= j < |Kids(w, n)|
    requires HandledBy(w, n, e, j)
    requires forall m :: i <= m < j ==> !HandledBy(w, n, e, m)
    ensures Children(w, n, e, i) == Outcome(Handled, ChildTraces(w, n, e, i, j + 1))
    decreases j - i
  {
    if i == j {
      assert ChildTraces(w, n, e, i + 1, i + 1) == [];
    } else {
      assert !HandledBy(w, n, e, i);
      ChildrenStopAtFirstHandled(w, n, e, i + 1, j);
    }
  }

  /** Propagation reports `Handled` exactly when the event kind propagates,
      the node is a container, and one of its interactive children handles
      the event. */
  lemma PropagateHandledIff(w: World, n: Node, e: ClipEvent)
    requires WorldValid(w)
    ensures Propagate(w, n, e).result == Handled <==>
              && w.hooks.propagates(e)
              && n in w.graph.renderList
              && exists j :: 0 <= j < |Kids(w, n)| && HandledBy(w, n, e, j)
  {
    if w.hooks.propagates(e) && n in w.graph.renderList {
      if exists j :: 0 <= j < |Kids(w, n)| && HandledBy(w, n, e, j) {
        var j := FirstHandled(w, n, e);
        ChildrenStopAtFirstHandled(w, n, e, 0, j);
      } else {
        ChildrenUnhandled(w, n, e, 0);
      }
    }
  }

  /** The first child that handles the event, when there is one. */
  lemma FirstHandled(w: World, n: Node, e: ClipEvent) returns (j: nat)
    requires WorldValid(w) && n in w.graph.renderList
    requires exists j :: 0 <= j < |Kids(w, n)| && HandledBy(w, n, e, j)
    ensures j < |Kids(w, n)| && HandledBy(w, n, e, j)
    ensures forall m :: 0 <= m < j ==> !HandledBy(w, n, e, m)
  {
    var k :| 0 <= k < |Kids(w, n)| && HandledBy(w, n, e, k);
    j := 0;
    while !HandledBy(w, n, e, j)
      invariant j <= k && forall m :: 0 <= m < j ==> !HandledBy(w, n, e, m)
      decreases k - j
    {
      j := j + 1;
    }
  }

  /** A node that is not mouse enabled reports `NotHandled` without calling
      any hook or visiting any child. */
  lemma DisabledIgnores(w: World, n: Node, e: ClipEvent)
    requires WorldValid(w) && n !in w.enabled
    ensures Handle(w, n, e) == Outcome(NotHandled, [Visit(n)])
  {
  }

  /** When the filter rejects the event, the node reports `NotHandled`, and
      neither its children nor its own dispatch run. */
  lemma FilterRejects(w: World, n: Node, e: ClipEvent)
    requires WorldValid(w) && n in w.enabled && w.hooks.filter(n, e) == NotHandled
    ensures Handle(w, n, e) == Outcome(NotHandled, [Visit(n), Filter(n)])
  {
  }

  /** An enabled node whose filter passes the event runs the filter, then
      propagation, then its own dispatch only if no child handled the event;
      its result is `Handled` when a child handled it and otherwise what its
      own dispatch reports. */
  lemma HandleOutcome(w: World, n: Node, e: ClipEvent)
    requires WorldValid(w) && n in w.enabled && w.hooks.filter(n, e) == Handled
    ensures var o := Handle(w, n, e);
            var p := Propagate(w, n, e);
            && o.trace == [Visit(n), Filter(n)] + p.trace + (if p.result == Handled then [] else [Dispatch(n)])
            && o.result == (if p.result == Handled then Handled else w.hooks.dispatch(n, e))
  {
  }

  /** An event that does not propagate, or a node that is no container,
      reaches no child: nothing runs between the filter and the dispatch. */
  lemma NoPropagationNoChildren(w: World, n: Node, e: ClipEvent)
    requires WorldValid(w) && n in w.enabled && w.hooks.filter(n, e) == Handled
    requires !w.hooks.propagates(e) || n !in w.graph.renderList
    ensures Handle(w, n, e) == Outcome(w.hooks.dispatch(n, e), [Visit(n), Filter(n), Dispatch(n)])
  {
  }
}
