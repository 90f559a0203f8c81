# Interactive event dispatch of the Ruffle display list

This project models and proves in Dafny the interactive layer of Ruffle's
display list (`core/src/display_object/interactive.rs`). This is the part of
the Flash emulator that takes one raw mouse event at a time and does four
things with it:

- It gates the event on the object's *mouse enabled* flag and passes it
  through the object's filter hook.
- It propagates the event depth-first to the interactive children, in render
  order, and stops at the first child that handles it.
- It falls back to the object's own dispatch.
- For the events the layer defines itself, it translates the event into named
  ActionScript 3 (AVM2) mouse events. This step includes the double-click
  window and the rollOver/rollOut chains, which run up to the lowest common
  ancestor of the two display objects involved.

Modules, one per concern:

- `Events` (`events.dfy`): the vocabulary.
  - Display-object handles, where equality of handles is the source's
    `ptr_eq`/`PartialEq`.
  - Clock readings, the clip events and their results.
  - Script values, the AVM2 mouse events, and the deliveries made to the
    script dispatcher.
- `InteractiveFlags` (`flags.dfy`): the `InteractiveObjectFlags` bit set, as a
  `bv8` with `contains` and `set`.
- `Ancestry` (`ancestry.dfy`):
  - The arena of display objects: parent links plus a depth rank that shows
    the links are acyclic, and the render list of each container.
  - The ancestor chains and their specification `Lca`.
  - The imperative `lowest_common_ancestor`, proved against `Lca`.
- `ChainWalk` (`walk.dfy`): the parent-ward walk that the rollOver and rollOut
  arms perform, and exactly which nodes it visits.
- `ScriptDispatch` (`avm2.dfy`): `event_dispatch_to_avm2` as a pure function
  of the state it reads. It has its laws: the result, double clicks,
  last-click resets, and the scope of the rollOut and rollOver chains. A
  worked example from a four-level display list is included.
- `ClipPipeline` (`pipeline.dfy`): `handle_clip_event` and the default
  `propagate_to_children` as mutually recursive functions over the display
  list.
  - The per-kind hooks (`filter_clip_event`, `event_dispatch`,
    `ClipEvent::propagates`) are parameters.
  - The outcome records every step, so "no hook runs" and "no later child is
    visited" are statements about that record.
- `Interactive` (`interactive.dfy`): the imperative model.
  - The class `InteractiveObjectBase` holds the flags, the context menu and
    the last-click time, with `Default` and the accessors.
  - The class `Player` holds the display list and the script dispatcher's
    log. Its methods `HandleClipEvent`, `PropagateToChildren` and
    `EventDispatchToAvm2` contain the source's loops, and each is proved
    equal to the functional model.

The rollOver/dragOver arm dispatches `mouseOut`, not `rollOver`, to the
ancestors it walks past. It is modelled as written, and `RollOverScope` states
it.

Clock readings are natural numbers of nanoseconds. How `instant::Instant`
subtracts is not part of this model. A monotonic clock never gives
`this_click` earlier than `lc`; for that case the model makes its own
choice: `this_click - lc` is zero, so such a release counts as within the
double-click window.

## Model

| member | source | states |
|---|---|---|
| InteractiveFlags.Set | core/src/display_object/interactive.rs:64-76 | `set(flag, value)` makes `contains(flag)` equal to `value`, leaves every bit outside `flag` as it was, and sets or clears all of `flag`'s bits |
| InteractiveFlags.Contains | core/src/display_object/interactive.rs:129-133 | `contains(flag)` holds exactly when inserting `flag` into the bits changes nothing, i.e. every bit of `flag` is set (used by `mouse_enabled` and `double_click_enabled`, 129-133 and 143-147) |
| InteractiveFlags.SetKeepsOtherFlag | core/src/display_object/interactive.rs:136-154 | setting MOUSE_ENABLED keeps DOUBLE_CLICK_ENABLED and vice versa |
| Ancestry.Chain | core/src/display_object/interactive.rs:34-46 | the parent chain the push loops collect starts at the node itself |
| Ancestry.ChainLinks | core/src/display_object/interactive.rs:34-46 | each chain entry is followed by its parent, and the chain ends at a node without one, where the `while let` loop stops |
| Ancestry.Lca | core/src/display_object/interactive.rs:48-61 | the specification of the root-first zip: it returns an entry exactly when both chains end at the same root |
| Ancestry.LowestCommonAncestor | core/src/display_object/interactive.rs:30-62 | the two push loops collect exactly the ancestor chains of `from` and `to`, and the result is `Lca(from, to)` |
| Ancestry.LastCommonEntry | core/src/display_object/interactive.rs:49-59 | walking two chains root-first while the entries are identical yields the last shared entry, or `None` when even the roots differ |
| Ancestry.LcaIsCommon | core/src/display_object/interactive.rs:49-59 | a result `Some(c)` is an ancestor-or-self of both nodes |
| Ancestry.LcaIsLowest | core/src/display_object/interactive.rs:49-59 | any common ancestor-or-self of the two nodes implies a result exists, and is an ancestor-or-self of it, so no deeper common ancestor exists |
| Ancestry.LcaSelf | core/src/display_object/interactive.rs:30-62 | `lowest_common_ancestor(x, x) == Some(x)` |
| Ancestry.LcaOfAncestor | core/src/display_object/interactive.rs:30-62 | of a node and any of its ancestors, the ancestor is the result, in either argument order |
| ChainWalk.Walk | core/src/display_object/interactive.rs:344-363 | the nodes `rollover_target` takes, from the subject up the parent links; the stop node is never among them |
| ChainWalk.WalkIsPrefix | core/src/display_object/interactive.rs:344-363 | the walk is a prefix of the subject's ancestor chain, in chain order |
| ChainWalk.WalkToRoot | core/src/display_object/interactive.rs:344-363 | with the LCA `None` (or off the chain) the walk visits the whole chain up to the root |
| ChainWalk.WalkStopsBefore | core/src/display_object/interactive.rs:344-363 | with the LCA on the chain the walk visits exactly the chain below it and then stops |
| ChainWalk.RollScope | core/src/display_object/interactive.rs:338-363 | the walk from `self` that stops at `LCA(self, other)` visits, in chain order, exactly the ancestors-or-self of `self` that are not ancestors-or-self of `other` |
| ScriptDispatch.ChainEvents | core/src/display_object/interactive.rs:346-363 | a chain walk dispatches at most one event per node it passes, each named as the walk's event and carrying the same related object |
| ScriptDispatch.IsDoubleClick | core/src/display_object/interactive.rs:264-269 | a release is a double click exactly when double clicks are enabled, there is a last click, and `now` is before one second after it |
| ScriptDispatch.RollOutEvents | core/src/display_object/interactive.rs:326-367 | `mouseOut` to the object comes first, and every later event is a `rollOut` with the object moved to as related object |
| ScriptDispatch.RollOverEvents | core/src/display_object/interactive.rs:369-408 | `mouseOver` to the object comes last, and every earlier event is a `mouseOut` with the object come from as related object |
| ScriptDispatch.Avm2Dispatch | core/src/display_object/interactive.rs:215-442 | the reference for `event_dispatch_to_avm2`: a handled event dispatches at least one script event and an unhandled one none, and a new last-click time is recorded only by a release, as `now` |
| ScriptDispatch.ChainEventsMembers | core/src/display_object/interactive.rs:346-363 | a chain walk dispatches an event to each visited node that has a script object, to that object, and nothing else; nodes without one are skipped but still traversed |
| ScriptDispatch.DispatchResult | core/src/display_object/interactive.rs:220-224 | the result is `Handled` if and only if the object has a script object and the event is one the layer interprets; otherwise nothing is dispatched and `last_click` is unchanged |
| ScriptDispatch.DoubleClickLaw | core/src/display_object/interactive.rs:259-307 | a release dispatches `doubleClick` if and only if double clicks are enabled and `now - last_click < 1 s`, and then clears `last_click`; otherwise it dispatches `click` and records `now`; the result is `Handled` |
| ScriptDispatch.ThreeReleases | core/src/display_object/interactive.rs:259-307 | with double clicks enabled, releases at t0, t0 + 0.5 s and t0 + 2 s give `click`, `doubleClick`, `click`, and the last click ends at t0 + 2 s |
| ScriptDispatch.PressThenRelease | core/src/display_object/interactive.rs:229-307 | a press keeps the last click, so press then release with no earlier click gives `mouseDown` then `click` |
| ScriptDispatch.LastClickLaw | core/src/display_object/interactive.rs:309-367 | ReleaseOutside, RollOut and DragOut clear `last_click`, so the next release is a `click` whatever the flags and clock say; every other non-release event keeps `last_click` |
| ScriptDispatch.RollOutScope | core/src/display_object/interactive.rs:326-367 | RollOut/DragOut dispatch `mouseOut` to the object first, then exactly the chain events of the walk from the object to the LCA, in walk order; every later event is a `rollOut` about an ancestor-or-self of the object that is not an ancestor-or-self of `to` (or the stage), and each such node with a script object gets exactly that event |
| ScriptDispatch.RollOverScope | core/src/display_object/interactive.rs:369-408 | RollOver/DragOver dispatch exactly the `mouseOut` chain events of the walk from the object to the LCA, in walk order: one about each ancestor-or-self of the object that is not an ancestor-or-self of `from` (or the stage), then `mouseOver` to the object last; `last_click` is kept |
| ScriptDispatch.ScenarioChains | core/src/display_object/interactive.rs:30-62 | in a list root→p→q→r with a second child d of p, LCA(r, d) = p and the walk from r stops after q |
| ScriptDispatch.RollOutScenario | core/src/display_object/interactive.rs:326-367 | in that list, r rolling out towards d dispatches exactly `mouseOut` to r, `rollOut` to r, `rollOut` to q, and clears `last_click` |
| ClipPipeline.Handle | core/src/display_object/interactive.rs:447-465 | `handle_clip_event` as a function: its first step is the visit of the node, and the event is handled only by a mouse-enabled node whose filter passes it |
| ClipPipeline.Propagate | core/src/display_object/interactive.rs:176-195 | the default `propagate_to_children`: only an event that propagates, reaching a container, can be handled |
| ClipPipeline.Children | core/src/display_object/interactive.rs:181-195 | the render-list loop from child `i` on: the event is handled only if some child from `i` on is mouse enabled |
| ClipPipeline.ChildrenUnhandled | core/src/display_object/interactive.rs:181-195 | when no interactive child handles the event, the loop visits every interactive child in render order and reports `NotHandled` |
| ClipPipeline.ChildrenStopAtFirstHandled | core/src/display_object/interactive.rs:183-189 | the loop returns `Handled` at the first interactive child that handles the event, having visited exactly the interactive children up to it and none after |
| ClipPipeline.PropagateHandledIff | core/src/display_object/interactive.rs:176-195 | propagation is `Handled` if and only if the event propagates, the node is a container, and some interactive child handles it |
| ClipPipeline.DisabledIgnores | core/src/display_object/interactive.rs:451-453 | a node that is not mouse enabled reports `NotHandled` and calls no hook |
| ClipPipeline.FilterRejects | core/src/display_object/interactive.rs:455-457 | a filter answer of `NotHandled` gives `NotHandled`, with no child visited and no dispatch |
| ClipPipeline.HandleOutcome | core/src/display_object/interactive.rs:459-464 | after the filter passes, the order is propagation and then, only if no child handled the event, the node's own dispatch, whose answer becomes the result |
| ClipPipeline.NoPropagationNoChildren | core/src/display_object/interactive.rs:181-195 | if the event does not propagate, or the node is no container, nothing runs between the filter and the dispatch |
| Interactive.InteractiveObjectBase.Default | core/src/display_object/interactive.rs:93-102 | the default state is mouse enabled, double clicks disabled, context menu `Null`, no last click |
| Interactive.InteractiveObjectBase.MouseEnabled | core/src/display_object/interactive.rs:129-133 | `mouse_enabled()` is the lowest flag bit |
| Interactive.InteractiveObjectBase.DoubleClickEnabled | core/src/display_object/interactive.rs:143-147 | `double_click_enabled()` is the second flag bit |
| Interactive.InteractiveObjectBase.ContextMenu | core/src/display_object/interactive.rs:156-158 | `context_menu()` returns the stored context menu |
| Interactive.InteractiveObjectBase.SetMouseEnabled | core/src/display_object/interactive.rs:129-141 | `mouse_enabled()` becomes `value`; the other flag, the context menu and the last click are unchanged |
| Interactive.InteractiveObjectBase.SetDoubleClickEnabled | core/src/display_object/interactive.rs:143-154 | `double_click_enabled()` becomes `value`; the other flag, the context menu and the last click are unchanged |
| Interactive.InteractiveObjectBase.SetContextMenu | core/src/display_object/interactive.rs:156-162 | `context_menu()` becomes `value`; flags and last click are unchanged |
| Interactive.MousePick | core/src/display_object/interactive.rs:474-482 | the default `mouse_pick` picks nothing |
| Interactive.MouseCursorOf | core/src/display_object/interactive.rs:484-486 | the default cursor is the hand |
| Interactive.Player.HandleClipEvent | core/src/display_object/interactive.rs:447-465 | the early-return method gives the result and hook trace of `ClipPipeline.Handle` for the current mouse-enabled flags |
| Interactive.Player.PropagateToChildren | core/src/display_object/interactive.rs:176-195 | the render-list loop with its early return gives the result and trace of `ClipPipeline.Propagate` |
| Interactive.Player.WalkChain | core/src/display_object/interactive.rs:344-363 | the `while let` loop that breaks at the LCA appends exactly the chain events of `Walk` to the dispatcher log |
| Interactive.Player.RollOut | core/src/display_object/interactive.rs:326-363 | appends `mouseOut` and then the rollOut chain computed with `lowest_common_ancestor(self, to or stage)` |
| Interactive.Player.RollOver | core/src/display_object/interactive.rs:369-408 | appends the `mouseOut` chain computed with `lowest_common_ancestor(self, from or stage)` and then `mouseOver` |
| Interactive.Player.EventDispatchToAvm2 | core/src/display_object/interactive.rs:215-442 | result, appended log and new `last_click` of the object are those of `ScriptDispatch.Avm2Dispatch`; flags, context menu and every other object's last click are unchanged |

## Left out

- Building the AVM2 event objects and running script handlers (`Avm2EventObject::mouse_event`, `Avm2::dispatch_event`) is not modelled. A dispatch becomes one entry appended to a log. A dispatch error is only logged by the source and changes nothing here, so the model has no error path.
- `Activation`, `UpdateContext`, `MutationContext` and the `RefCell` borrows behind `raw_interactive`/`raw_interactive_mut` are not modelled. The model reads and writes the state directly. A script handler that changes the display list or flags in the middle of a dispatch is outside the model; the chains are computed on the list as it stands at the call.
- The `enum_trait_object` macro and the six concrete kinds (Stage, buttons, MovieClip, EditText, LoaderDisplay) are not modelled. So are their `filter_clip_event`, `event_dispatch` and overriding methods. They are the `Hooks` parameters, and being an interactive object means having an `InteractiveObjectBase` in `Player.bases`.
- Interactive.Player.HandleClipEvent: the hooks are pure functions, so a child's dispatch cannot change state seen by later siblings. Threading the script log through the recursion is not modelled.
- `ClipEvent::propagates` and the event variants other than the ten this file names are left out, because `events.rs` is not part of this model. The former is a hook; the latter are `Other(code)`.
- `MouseWheelDelta::lines()` and its `as i32` cast are not modelled. The wheel event carries its line count directly.
- `Instant::now()` is the parameter `now`. Only `Duration` comparison against one second is modelled, on nanosecond counts.
- `raw_interactive`'s `base: DisplayObjectBase` field is not modelled. Position, `mouse_pick`'s `Twips` coordinates and rendering are also out, except for the defaults of `mouse_pick` and `mouse_cursor`.
- `render/wgpu/src/lib.rs`, `core/src/avm2/object/sound_object.rs` and `core/src/avm2/object/xml_object.rs` are not part of this model. They are the GPU backend and script object kinds that the interactive layer does not use.
- `MouseCursor` comes from the backend's UI module, which is not part of this model. Only `Hand`, the one shape the interactive layer names, is modelled by name; every other shape is `OtherCursor(code)`.
