/**
 * The button widget of src/button.rs: its interaction state, the event
 * transition table of `consume_event`, the geometry setters and the guarded
 * animation step of `update`.
 */
module ButtonWidget {
  import opened Options
  import opened Geometry
  import opened Animation
  import opened Events

  /** The overlay step applied on every hover or press transition. */
  const Tenth: real := 0.1

  /** Durations, in milliseconds, given to the animations by `new`. */
  const GeometryDuration: nat := 200
  const OverlayDuration: nat := 100

  /** Which of the four optional callback slots hold a function. */
  datatype Callbacks = Callbacks(onPress: bool, onRelease: bool, onEnter: bool, onExit: bool)

  /** A callback slot, recorded when the function it holds is called. */
  datatype Slot = PressSlot | ReleaseSlot | Enter | Exit

  datatype Colour = Colour(r: real, g: real, b: real, a: real)

  /** The parameters of button creation (ButtonDescriptor) the model keeps. */
  datatype ButtonDescriptor = ButtonDescriptor(
    position: Point,
    size: Vector,
    zIndex: real,
    backColour: Colour,
    caption: Option<string>,
    callbacks: Callbacks)

  /** The part of a button that events and setters read and write. */
  datatype ButtonState = ButtonState(
    position: Animated<Point>,
    size: Animated<Vector>,
    hovered: bool,
    pressed: bool,
    overlay: Animated<real>,
    callbacks: Callbacks)

  /** What one event does: the next state, whether it was consumed, the callback it fires. */
  datatype Reaction = Reaction(state: ButtonState, consumed: bool, fired: Option<Slot>)

  function Flag(b: bool): real
  {
    if b then 1.0 else 0.0
  }

  /**
   * The overlay target counts the active interaction flags, one step each.
   * Every button satisfies this from creation on.
   */
  predicate Balanced(s: ButtonState)
  {
    s.overlay.target == Tenth * (Flag(s.hovered) + Flag(s.pressed))
  }

  /** The hit test runs on the current (animated) geometry, never on the targets. */
  predicate CursorInside(s: ButtonState, p: Point)
  {
    Contains(s.position.current, s.size.current, p)
  }

  /** The slot `slot` fires exactly when it holds a function. */
  function Fire(present: bool, slot: Slot): Option<Slot>
  {
    if present then Some(slot) else None
  }

  /** The callbacks a reaction appends to the log of fired slots. */
  function Emitted(fired: Option<Slot>): seq<Slot>
  {
    match fired
    case None => []
    case Some(slot) => [slot]
  }

  /** An event that changes nothing. */
  function Ignore(s: ButtonState): Reaction
  {
    Reaction(s, false, None)
  }

  /** The overlay target moved by `delta`; its current value is left alone. */
  function Bump(s: ButtonState, delta: real): Animated<real>
  {
    s.overlay.SetTarget(s.overlay.target + delta)
  }

  /** The transition table of `consume_event`. */
  function Transition(s: ButtonState, e: WindowEvent): (r: Reaction)
    // No event moves or resizes the button, touches the overlay's current
    // value or changes the callbacks.
    ensures r.state.position == s.position && r.state.size == s.size
    ensures r.state.callbacks == s.callbacks
    ensures r.state.overlay.current == s.overlay.current
    ensures r.state.overlay.duration == s.overlay.duration
    // An event is consumed exactly when it changes the state, and only a
    // consumed event fires a callback.
    ensures r.consumed <==> r.state != s
    ensures r.fired.Some? ==> r.consumed
    // The overlay target moves one step per flag that is raised or cleared.
    ensures r.state.overlay.target - s.overlay.target
         == Tenth * (Flag(r.state.hovered) - Flag(s.hovered) + Flag(r.state.pressed) - Flag(s.pressed))
    // After a cursor move, `hovered` says whether the cursor is inside.
    ensures e.CursorMoved? ==> r.state.hovered == CursorInside(s, e.position) && r.state.pressed == s.pressed
    // A left release always ends up not pressed; mouse input never changes hover.
    ensures e == MouseInput(Released, Left) ==> !r.state.pressed
    ensures e.MouseInput? ==> r.state.hovered == s.hovered
    // A press is taken only over the button.
    ensures r.state.pressed && !s.pressed ==> s.hovered
  {
    match e
    case CursorMoved(p) =>
      if CursorInside(s, p) then
        if !s.hovered then
          Reaction(s.(hovered := true, overlay := Bump(s, Tenth)), true, Fire(s.callbacks.onEnter, Enter))
        else
          Ignore(s)
      else if s.hovered then
        Reaction(s.(hovered := false, overlay := Bump(s, -Tenth)), true, Fire(s.callbacks.onExit, Exit))
      else
        Ignore(s)
    case MouseInput(state, button) =>
      if button != Left then
        Ignore(s)
      else if s.pressed then
        if state == Released then
          // The release transition calls the `on_press` slot.
          Reaction(s.(pressed := false, overlay := Bump(s, -Tenth)), true, Fire(s.callbacks.onPress, PressSlot))
        else
          Ignore(s)
      else if s.hovered && state == Pressed then
        // The press transition calls the `on_release` slot.
        Reaction(s.(pressed := true, overlay := Bump(s, Tenth)), true, Fire(s.callbacks.onRelease, ReleaseSlot))
      else
        Ignore(s)
    case OtherEvent =>
      Ignore(s)
  }

  /** The state of a freshly created button. */
  function Initial(d: ButtonDescriptor): (s: ButtonState)
    ensures !s.hovered && !s.pressed
    ensures s.overlay.current == 0.0 && s.overlay.target == 0.0
    ensures s.position.current == d.position && s.position.target == d.position
    ensures s.size.current == d.size && s.size.target == d.size
    ensures s.position.duration == GeometryDuration && s.size.duration == GeometryDuration
    ensures s.overlay.duration == OverlayDuration
    ensures s.callbacks == d.callbacks
    ensures Balanced(s)
  {
    ButtonState(New(d.position, GeometryDuration), New(d.size, GeometryDuration),
                false, false, New(0.0, OverlayDuration), d.callbacks)
  }

  /** `set_position_offset`: the new target is relative to the old target. */
  function OffsetPosition(a: Animated<Point>, d: Vector): Animated<Point>
  {
    a.SetTarget(Translate(a.target, d))
  }

  /** `set_size_offset`: the new target is relative to the old target. */
  function OffsetSize(a: Animated<Vector>, d: Vector): Animated<Vector>
  {
    a.SetTarget(Add(a.target, d))
  }

  /** The animation after `update`'s guard: only an incomplete one is stepped. */
  function Advance<V(==)>(a: Animated<V>, next: V): (b: Animated<V>)
    ensures b.target == a.target && b.duration == a.duration
    ensures a.Complete() ==> b == a
    ensures !a.Complete() ==> b.current == next
  {
    if a.Complete() then a else a.Step(next)
  }

  /** Rectangular object that can be interacted with (Button<T>). */
  class Button {
    var position: Animated<Point>
    var size: Animated<Vector>
    var zIndex: real
    var hovered: bool
    var pressed: bool
    var backColour: Colour
    var overlayAlpha: Animated<real>
    var callbacks: Callbacks
    var caption: Option<string>
    /** The callback slots called so far, in order. */
    var fired: seq<Slot>

    function State(): ButtonState
      reads this
    {
      ButtonState(position, size, hovered, pressed, overlayAlpha, callbacks)
    }

    /** `Button::new`, the state it sets up. */
    constructor (d: ButtonDescriptor)
      ensures State() == Initial(d)
      ensures Balanced(State())
      ensures zIndex == d.zIndex && backColour == d.backColour && caption == d.caption
      ensures fired == []
    {
      position := New(d.position, GeometryDuration);
      size := New(d.size, GeometryDuration);
      zIndex := d.zIndex;
      hovered := false;
      pressed := false;
      backColour := d.backColour;
      overlayAlpha := New(0.0, OverlayDuration);
      callbacks := d.callbacks;
      caption := d.caption;
      fired := [];
    }

    /** `consume_event`: returns whether the event was directed at this button. */
    method ConsumeEvent(e: WindowEvent) returns (consumed: bool)
      modifies this`hovered, this`pressed, this`overlayAlpha, this`fired
      ensures State() == Transition(old(State()), e).state
      ensures consumed == Transition(old(State()), e).consumed
      ensures fired == old(fired) + Emitted(Transition(old(State()), e).fired)
      ensures old(Balanced(State())) ==> Balanced(State())
    {
      consumed := false;
      match e {
        case CursorMoved(p) =>
          var origin := position.current;
          var extent := size.current;
          var right := origin.x + extent.x;
          var down := origin.y + extent.y;
          if origin.x <= p.x && p.x <= right && origin.y <= p.y && p.y <= down {
            if !hovered {
              hovered := true;
              overlayAlpha := overlayAlpha.SetTarget(overlayAlpha.target + Tenth);
              if callbacks.onEnter {
                fired := fired + [Enter];
              }
              consumed := true;
            }
          } else {
            if hovered {
              hovered := false;
              overlayAlpha := overlayAlpha.SetTarget(overlayAlpha.target - Tenth);
              if callbacks.onExit {
                fired := fired + [Exit];
              }
              consumed := true;
            }
          }
        case MouseInput(state, button) =>
          if button == Left {
            if pressed {
              if state == Released {
                pressed := false;
                overlayAlpha := overlayAlpha.SetTarget(overlayAlpha.target - Tenth);
                if callbacks.onPress {
                  fired := fired + [PressSlot];
                }
                consumed := true;
              }
            } else {
              if hovered && state == Pressed {
                pressed := true;
                overlayAlpha := overlayAlpha.SetTarget(overlayAlpha.target + Tenth);
                if callbacks.onRelease {
                  fired := fired + [ReleaseSlot];
                }
                consumed := true;
              }
            }
          }
        case OtherEvent =>
      }
    }

    /** `set_position`: a new absolute target; the current position is kept. */
    method SetPosition(p: Point)
      modifies this`position
      ensures position == old(position).SetTarget(p)
      ensures position.target == p && position.current == old(position.current)
    {
      position := position.SetTarget(p);
    }

    /** `set_position_offset`: the target moves by `d` from the old target. */
    method SetPositionOffset(d: Vector)
      modifies this`position
      ensures position == OffsetPosition(old(position), d)
      ensures position.target == Translate(old(position.target), d)
      ensures position.current == old(position.current)
    {
      SetPosition(Translate(position.target, d));
    }

    /** `set_size`: a new absolute target; the current size is kept. */
    method SetSize(v: Vector)
      modifies this`size
      ensures size == old(size).SetTarget(v)
      ensures size.target == v && size.current == old(size.current)
    {
      size := size.SetTarget(v);
    }

    /** `set_size_offset`: the target grows by `d` from the old target. */
    method SetSizeOffset(d: Vector)
      modifies this`size
      ensures size == OffsetSize(old(size), d)
      ensures size.target == Add(old(size.target), d)
      ensures size.current == old(size.current)
    {
      SetSize(Add(size.target, d));
    }

    /**
     * `update`: each animation that is not complete takes one step. The values
     * the interpolation engine yields for this frame are given as parameters.
     */
    method Update(nextPosition: Point, nextSize: Vector, nextAlpha: real)
      modifies this`position, this`size, this`overlayAlpha
      ensures position == Advance(old(position), nextPosition)
      ensures size == Advance(old(size), nextSize)
      ensures overlayAlpha == Advance(old(overlayAlpha), nextAlpha)
      ensures position.target == old(position.target) && size.target == old(size.target)
      ensures overlayAlpha.target == old(overlayAlpha.target)
      ensures old(Balanced(State())) ==> Balanced(State())
    {
      if !position.Complete() {
        position := position.Step(nextPosition);
      }
      if !size.Complete() {
        size := size.Step(nextSize);
      }
      if !overlayAlpha.Complete() {
        overlayAlpha := overlayAlpha.Step(nextAlpha);
      }
    }
  }
}
