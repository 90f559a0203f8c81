/**
 * The interactive display objects themselves: the per-object state that
 * `InteractiveObjectBase` holds and its accessors, and the event handling
 * methods of `TInteractiveObject` run against a player whose display list,
 * script objects and per-kind hooks they read and whose script dispatcher
 * log they extend.
 */
module Interactive {
  import opened Events
  import opened InteractiveFlags
  import opened Ancestry
  import opened ChainWalk
  import opened ScriptDispatch
  import opened ClipPipeline

  /** The state every interactive display object carries. */
  class InteractiveObjectBase {
    var flags: Flags
    /** The script value installed as the object's context menu. */
    var contextMenu: Avm2Value
    /** When the last click on this object was registered; cleared when the
        pointer leaves the object. */
    var lastClick: Option<Instant>

    /** `InteractiveObjectBase::default()`. */
    constructor Default()
      ensures flags == MOUSE_ENABLED && contextMenu == Null && lastClick == None
      ensures MouseEnabled() && !DoubleClickEnabled()
    {
      flags := MOUSE_ENABLED;
      contextMenu := Null;
      lastClick := None;
    }

    /** `mouse_enabled`: the lowest bit of the flags. */
    function MouseEnabled(): (r: bool)
      reads this
      ensures r <==> flags & 1 != 0
    {
      Contains(flags, MOUSE_ENABLED)
    }

    /** `double_click_enabled`: the second bit of the flags. */
    function DoubleClickEnabled(): (r: bool)
      reads this
      ensures r <==> flags & 2 != 0
    {
      Contains(flags, DOUBLE_CLICK_ENABLED)
    }

    /** `context_menu`: the value stored by the last `set_context_menu`,
        `Null` before any. */
    function ContextMenu(): (r: Avm2Value)
      reads this
      ensures r == contextMenu
    {
      contextMenu
    }

    /** `set_mouse_enabled`: only the mouse-enabled bit changes. */
    method SetMouseEnabled(value: bool)
      modifies this
      ensures MouseEnabled() == value
      ensures DoubleClickEnabled() == old(DoubleClickEnabled())
      ensures flags & !MOUSE_ENABLED == old(flags) & !MOUSE_ENABLED
      ensures contextMenu == old(contextMenu) && lastClick == old(lastClick)
    {
      SetKeepsOtherFlag(flags, value);
      flags := Set(flags, MOUSE_ENABLED, value);
    }

    /** `set_double_click_enabled`: only the double-click bit changes. */
    method SetDoubleClickEnabled(value: bool)
      modifies this
      ensures DoubleClickEnabled() == value
      ensures MouseEnabled() == old(MouseEnabled())
      ensures flags & !DOUBLE_CLICK_ENABLED == old(flags) & !DOUBLE_CLICK_ENABLED
      ensures contextMenu == old(contextMenu) && lastClick == old(lastClick)
    {
      SetKeepsOtherFlag(flags, value);
      flags := Set(flags, DOUBLE_CLICK_ENABLED, value);
    }

    /** `set_context_menu`: the flags and the last click stay as they were. */
    method SetContextMenu(value: Avm2Value)
      modifies this
      ensures ContextMenu() == value
      ensures flags == old(flags) && lastClick == old(lastClick)
    {
      contextMenu := value;
    }
  }

  /** `mouse_pick` as the interactive layer defines it: an object picks
      nothing unless its own kind says otherwise. */
  function MousePick(pos: (int, int), requireButtonMode: bool): (r: Option<Node>)
    ensures r.None?
  {
    None
  }

  /** `mouse_cursor` as the interactive layer defines it. */
  function MouseCursorOf(): (c: MouseCursor)
    ensures c == Hand
  {
    Hand
  }

  /** The part of the player that event handling reads and changes: the
      display list, the stage, each display object's script object, the
      interactive state of the interactive objects, the per-kind hooks, and
      the events handed to the script dispatcher so far. */
  class Player {
    const graph: SceneGraph
    const stage: Node
    const scripts: map<Node, Avm2Value>
    /** `raw_interactive()` of each interactive display object. */
    const bases: map<Node, InteractiveObjectBase>
    const hooks: Hooks
    var log: seq<Delivery>

    /** The scene graph is well formed and no two display objects share
        their interactive state. */
    ghost predicate Valid() {
      && Ancestry.Valid(graph)
      && forall a, b :: a in bases && b in bases && a != b ==> bases[a] != bases[b]
    }

    /** The interactive objects that are currently mouse enabled. */
    ghost function Enabled(): set<Node>
      reads bases.Values
    {
      set m | m in bases && bases[m].MouseEnabled()
    }

    /** The pipeline's view of this player. */
    ghost function View(): World
      reads bases.Values
      requires Valid()
    {
      World(graph, bases.Keys, Enabled(), hooks)
    }

    constructor (graph: SceneGraph, stage: Node, scripts: map<Node, Avm2Value>,
                 bases: map<Node, InteractiveObjectBase>, hooks: Hooks)
      requires Ancestry.Valid(graph)
      requires forall a, b :: a in bases && b in bases && a != b ==> bases[a] != bases[b]
      ensures Valid()
      ensures this.graph == graph && this.stage == stage && this.scripts == scripts
      ensures this.bases == bases && this.hooks == hooks && log == []
    {
      this.graph := graph;
      this.stage := stage;
      this.scripts := scripts;
      this.bases := bases;
      this.hooks := hooks;
      log := [];
    }

    /** `handle_clip_event` on the interactive object `n`. */
    method HandleClipEvent(n: Node, e: ClipEvent) returns (r: ClipEventResult, trace: seq<Step>)
      requires Valid() && n in bases
      ensures Outcome(r, trace) == Handle(View(), n, e)
      decreases Height(graph, n), 2
    {
      if !bases[n].MouseEnabled() {
        return NotHandled, [Visit(n)];
      }
      if hooks.filter(n, e) == NotHandled {
        return NotHandled, [Visit(n), Filter(n)];
      }
      var pr, pt := PropagateToChildren(n, e);
      if pr == Handled {
        return Handled, [Visit(n), Filter(n)] + pt;
      }
      r := hooks.dispatch(n, e);
      trace := [Visit(n), Filter(n)] + pt + [Dispatch(n)];
    }

    /** The default `propagate_to_children` of `n`. */
    method PropagateToChildren(n: Node, e: ClipEvent) returns (r: ClipEventResult, trace: seq<Step>)
      requires Valid()
      ensures Outcome(r, trace) == Propagate(View(), n, e)
      decreases Height(graph, n), 1
    {
      if !hooks.propagates(e) || n !in graph.renderList {
        return NotHandled, [];
      }
      ghost var w := View();
      var kids := graph.renderList[n];
      trace := [];
      var i := 0;
      while i < |kids|
        invariant i <= |kids|
        invariant Children(w, n, e, 0) == Outcome(Children(w, n, e, i).result, trace + Children(w, n, e, i).trace)
      {
        var child := kids[i];
        LoopStep(w, n, e, i, trace);
        if child in bases {
          ChildHeight(graph, n, i);
          var cr, ct := HandleClipEvent(child, e);
          if cr == Handled {
            return Handled, trace + ct;
          }
          trace := trace + ct;
        }
        i := i + 1;
      }
      assert trace + [] == trace;
      r := NotHandled;
    }

    /** The parent-ward walk from `start` that dispatches `name` about each
        node it passes to that node's script object, stopping before `stop`. */
    method WalkChain(start: Node, stop: Option<Node>, name: string, related: Option<Node>)
      requires Valid()
      modifies this
      ensures log == old(log) + ChainEvents(scripts, Walk(graph, Some(start), stop), name, related)
    {
      var rolloverTarget := Some(start);
      ghost var walked: seq<Node> := [];
      while rolloverTarget.Some?
        invariant walked + Walk(graph, rolloverTarget, stop) == Walk(graph, Some(start), stop)
        invariant log == old(log) + ChainEvents(scripts, walked, name, related)
        decreases OptRank(graph, rolloverTarget)
      {
        var tgt := rolloverTarget.value;
        if rolloverTarget == stop {
          break;
        }
        log := log + EventAt(scripts, tgt, name, related);
        ChainEventsSnoc(scripts, walked, tgt, name, related);
        WalkStep(graph, walked, tgt, stop, Walk(graph, Some(start), stop));
        walked := walked + [tgt];
        rolloverTarget := ParentOf(graph, tgt);
      }
      assert Walk(graph, rolloverTarget, stop) == [];
      assert walked + [] == walked;
    }

    /** The `RollOut`/`DragOut` arm: `mouseOut` to the object, then the
        `rollOut` walk up to the lowest common ancestor with `to` or the
        stage. */
    method RollOut(self: Node, target: nat, to: Option<Node>)
      requires Valid()
      modifies this
      ensures log == old(log) + RollOutEvents(graph, scripts, stage, self, target, to)
    {
      ghost var before := log;
      var first := Delivery(target, MouseEvent("mouseOut", self, to, 0));
      log := log + [first];
      var lca := LowestCommonAncestor(graph, self, to.GetOr(stage));
      ghost var chain := ChainEvents(scripts, Walk(graph, Some(self), lca), "rollOut", to);
      WalkChain(self, lca, "rollOut", to);
      assert RollOutEvents(graph, scripts, stage, self, target, to) == [first] + chain;
      assert log == before + ([first] + chain);
    }

    /** The `RollOver`/`DragOver` arm: the `mouseOut` walk up to the lowest
        common ancestor with `from` or the stage, then `mouseOver` to the
        object. */
    method RollOver(self: Node, target: nat, from: Option<Node>)
      requires Valid()
      modifies this
      ensures log == old(log) + RollOverEvents(graph, scripts, stage, self, target, from)
    {
      ghost var before := log;
      var lca := LowestCommonAncestor(graph, self, from.GetOr(stage));
      ghost var chain := ChainEvents(scripts, Walk(graph, Some(self), lca), "mouseOut", from);
      WalkChain(self, lca, "mouseOut", from);
      var last := Delivery(target, MouseEvent("mouseOver", self, from, 0));
      log := log + [last];
      assert RollOverEvents(graph, scripts, stage, self, target, from) == chain + [last];
      assert log == before + (chain + [last]);
    }

    /** `event_dispatch_to_avm2` on the interactive object `self`, at the
        clock reading `now`. */
    method EventDispatchToAvm2(self: Node, event: ClipEvent, now: Instant) returns (r: ClipEventResult)
      requires Valid() && self in bases
      modifies this, bases[self]
      ensures var spec := Avm2Dispatch(graph, scripts, stage, self,
                                       old(bases[self].DoubleClickEnabled()), old(bases[self].lastClick), event, now);
              && r == spec.result
              && log == old(log) + spec.deliveries
              && bases[self].lastClick == spec.lastClick
      ensures bases[self].flags == old(bases[self].flags)
      ensures bases[self].contextMenu == old(bases[self].contextMenu)
      ensures forall m :: m in bases && m != self ==> bases[m].lastClick == old(bases[m].lastClick)
    {
      var target: nat;
      match ScriptObject(scripts, self) {
        case Object(t) =>
          target := t;
        case _ =>
          return NotHandled;
      }
      var base := bases[self];
      match event
      case Press =>
        log := log + [Delivery(target, MouseEvent("mouseDown", self, None, 0))];
        r := Handled;
      case MouseUpInside =>
        log := log + [Delivery(target, MouseEvent("mouseUp", self, None, 0))];
        r := Handled;
      case Release =>
        var lastClick := base.lastClick;
        var thisClick := now;
        var isDoubleClick := base.DoubleClickEnabled() &&
          (match lastClick
           case Some(lc) => Elapsed(thisClick, lc) < ONE_SECOND
           case None => false);
        if isDoubleClick {
          log := log + [Delivery(target, MouseEvent("doubleClick", self, None, 0))];
          base.lastClick := None;
        } else {
          log := log + [Delivery(target, MouseEvent("click", self, None, 0))];
          base.lastClick := Some(thisClick);
        }
        r := Handled;
      case ReleaseOutside =>
        log := log + [Delivery(target, MouseEvent("releaseOutside", self, None, 0))];
        base.lastClick := None;
        r := Handled;
      case RollOut(to) =>
        RollOut(self, target, to);
        base.lastClick := None;
        r := Handled;
      case DragOut(to) =>
        RollOut(self, target, to);
        base.lastClick := None;
        r := Handled;
      case RollOver(from) =>
        RollOver(self, target, from);
        r := Handled;
      case DragOver(from) =>
        RollOver(self, target, from);
        r := Handled;
      case MouseWheel(lines) =>
        log := log + [Delivery(target, MouseEvent("mouseWheel", self, None, lines))];
        r := Handled;
      case MouseMoveInside =>
        log := log + [Delivery(target, MouseEvent("mouseMove", self, None, 0))];
        r := Handled;
      case Other(_) =>
        r := NotHandled;
    }
  }
}
