/**
 * The event model: node handles, timestamps, the raw clip events that the
 * host delivers to interactive display objects, and their outcome.
 */
module Events {

  /** Stable handle of a display object in the scene-graph arena; handle
      equality is the identity comparison (`ptr_eq`) of the source. */
  type Node = nat

  /** A monotonic-clock reading, in nanoseconds. */
  type Instant = nat

  /** One second, the width of the double-click window. */
  const ONE_SECOND: nat := 1_000_000_000

  datatype Option<+T> = None | Some(value: T) {
    function GetOr(default: T): T {
      match this
      case Some(v) => v
      case None => default
    }
  }

  /** Whether the rest of the event machinery should treat an event as consumed. */
  datatype ClipEventResult = Handled | NotHandled

  /** The raw input events interpreted by the interactive layer. Every other
      clip event kind (frame, load, keyboard and so on) is `Other`, told
      apart only by an opaque code. */
  datatype ClipEvent =
    | Press
    | MouseUpInside
    | Release
    | ReleaseOutside
    | RollOut(to: Option<Node>)
    | DragOut(to: Option<Node>)
    | RollOver(from: Option<Node>)
    | DragOver(from: Option<Node>)
    | MouseWheel(lines: int)
    | MouseMoveInside
    | Other(code: nat)

  /** A script-side value; only whether it is an object matters here. */
  datatype Avm2Value = Undefined | Null | Object(id: nat)

  /** An AVM2 mouse event handed to the script dispatcher: its type name, the
      display object it targets, the related object and the wheel delta. */
  datatype Avm2Event = MouseEvent(name: string, target: Node, related: Option<Node>, delta: int)

  /** One call into the script dispatcher: the event and the script object
      it is dispatched to. */
  datatype Delivery = Delivery(receiver: nat, event: Avm2Event)

  /** Mouse cursor shapes the host can show. The interactive layer names
      only `Hand`; the other shapes of the backend's cursor type are told
      apart by an opaque code, because `crate::backend::ui` is not part of
      this model. */
  datatype MouseCursor = Hand | OtherCursor(code: nat)
}
