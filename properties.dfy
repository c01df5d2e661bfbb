/**
 * Properties of the button's transition table and of its setters: the hit
 * test, the hover and press transitions, the events that are ignored, the
 * overlay balance over any run of events and the composition of offsets.
 */
module ButtonProperties {
  import opened Options
  import opened Geometry
  import opened Animation
  import opened Events
  import opened ButtonWidget

  /** The hit test includes all four edges of the rectangle. */
  lemma HitTestInclusive(origin: Point, size: Vector, t: real, u: real)
    requires 0.0 <= t <= size.x && 0.0 <= u <= size.y
    ensures Contains(origin, size, Point(origin.x, origin.y + u))
    ensures Contains(origin, size, Point(origin.x + size.x, origin.y + u))
    ensures Contains(origin, size, Point(origin.x + t, origin.y))
    ensures Contains(origin, size, Point(origin.x + t, origin.y + size.y))
  {
  }

  /**
   * Only the current geometry matters to the hit test: changing the position
   * and size targets changes no reaction, apart from carrying the targets along.
   */
  lemma HitTestIgnoresTargets(s: ButtonState, e: WindowEvent, pt: Point, st: Vector)
    ensures var s' := s.(position := s.position.SetTarget(pt), size := s.size.SetTarget(st));
            var r, r' := Transition(s, e), Transition(s', e);
            && r'.consumed == r.consumed && r'.fired == r.fired
            && r'.state == r.state.(position := s'.position, size := s'.size)
  {
  }

  /** Entering the rectangle while not hovered. */
  lemma EnterHover(s: ButtonState, p: Point)
    requires CursorInside(s, p) && !s.hovered
    ensures var r := Transition(s, CursorMoved(p));
            && r.consumed
            && r.state == s.(hovered := true, overlay := s.overlay.SetTarget(s.overlay.target + 0.1))
            && r.fired == (if s.callbacks.onEnter then Some(Enter) else None)
  {
  }

  /** Leaving the rectangle while hovered. */
  lemma ExitHover(s: ButtonState, p: Point)
    requires !CursorInside(s, p) && s.hovered
    ensures var r := Transition(s, CursorMoved(p));
            && r.consumed
            && r.state == s.(hovered := false, overlay := s.overlay.SetTarget(s.overlay.target - 0.1))
            && r.fired == (if s.callbacks.onExit then Some(Exit) else None)
  {
  }

  /** A cursor move that does not change the hover status changes nothing. */
  lemma HoverStable(s: ButtonState, p: Point)
    requires CursorInside(s, p) == s.hovered
    ensures Transition(s, CursorMoved(p)) == Reaction(s, false, None)
  {
  }

  /** The same cursor position delivered twice is consumed at most the first time. */
  lemma HoverIdempotent(s: ButtonState, p: Point)
    ensures var s1 := Transition(s, CursorMoved(p)).state;
            Transition(s1, CursorMoved(p)) == Reaction(s1, false, None)
    ensures CursorInside(s, p) && !s.hovered ==> Transition(s, CursorMoved(p)).consumed
  {
  }

  /** A left press away from the button is ignored. */
  lemma PressRequiresHover(s: ButtonState)
    requires !s.hovered && !s.pressed
    ensures Transition(s, MouseInput(Pressed, Left)) == Reaction(s, false, None)
  {
  }

  /** A left press over the button starts a press and calls the `on_release` slot. */
  lemma PressWhileHovered(s: ButtonState)
    requires s.hovered && !s.pressed
    ensures var r := Transition(s, MouseInput(Pressed, Left));
            && r.consumed
            && r.state == s.(pressed := true, overlay := s.overlay.SetTarget(s.overlay.target + 0.1))
            && r.fired == (if s.callbacks.onRelease then Some(ReleaseSlot) else None)
  {
  }

  /**
   * A left release ends a press wherever the cursor is and calls the
   * `on_press` slot.
   */
  lemma ReleaseClears(s: ButtonState)
    requires s.pressed
    ensures var r := Transition(s, MouseInput(Released, Left));
            && r.consumed
            && r.state == s.(pressed := false, overlay := s.overlay.SetTarget(s.overlay.target - 0.1))
            && r.fired == (if s.callbacks.onPress then Some(PressSlot) else None)
  {
  }

  /** A second left press during a press, or a release without one, is ignored. */
  lemma RedundantMouseInputIgnored(s: ButtonState)
    ensures s.pressed ==> Transition(s, MouseInput(Pressed, Left)) == Reaction(s, false, None)
    ensures !s.pressed ==> Transition(s, MouseInput(Released, Left)) == Reaction(s, false, None)
  {
  }

  /** Other buttons of the mouse and other kinds of events are ignored. */
  lemma OtherEventsIgnored(s: ButtonState, e: WindowEvent)
    requires e.OtherEvent? || (e.MouseInput? && e.button != Left)
    ensures Transition(s, e) == Reaction(s, false, None)
  {
  }

  /** Entering and then leaving gives back the state entered from. */
  lemma EnterThenExitRestores(s: ButtonState, inside: Point, outside: Point)
    requires !s.hovered && CursorInside(s, inside) && !CursorInside(s, outside)
    ensures Transition(Transition(s, CursorMoved(inside)).state, CursorMoved(outside)).state == s
  {
  }

  /** Pressing and then releasing gives back the state pressed from. */
  lemma PressThenReleaseRestores(s: ButtonState)
    requires s.hovered && !s.pressed
    ensures Transition(Transition(s, MouseInput(Pressed, Left)).state, MouseInput(Released, Left)).state == s
  {
  }

  /** The state after a run of events, one `consume_event` each. */
  function Run(s: ButtonState, es: seq<WindowEvent>): (r: ButtonState)
    ensures r.position == s.position && r.size == s.size
    ensures r.callbacks == s.callbacks && r.overlay.current == s.overlay.current
    decreases |es|
  {
    if es == [] then s else Run(Transition(s, es[0]).state, es[1..])
  }

  /** Every event keeps the overlay target in step with the two flags. */
  lemma {:induction false} RunKeepsBalance(s: ButtonState, es: seq<WindowEvent>)
    requires Balanced(s)
    ensures Balanced(Run(s, es))
    decreases |es|
  {
    if es != [] {
      RunKeepsBalance(Transition(s, es[0]).state, es[1..]);
    }
  }

  /**
   * However events stack, a button's overlay target stays 0, 0.1 or 0.2: the
   * deltas never leave that range.
   */
  lemma OverlayTargetBounded(d: ButtonDescriptor, es: seq<WindowEvent>)
    ensures var t := Run(Initial(d), es).overlay.target;
            t == 0.0 || t == 0.1 || t == 0.2
  {
    RunKeepsBalance(Initial(d), es);
  }

  /** The position target after a sequence of `set_position_offset` calls. */
  function PositionAfterOffsets(a: Animated<Point>, ds: seq<Vector>): Animated<Point>
  {
    if ds == [] then a else OffsetPosition(PositionAfterOffsets(a, ds[..|ds| - 1]), ds[|ds| - 1])
  }

  /** The size target after a sequence of `set_size_offset` calls. */
  function SizeAfterOffsets(a: Animated<Vector>, ds: seq<Vector>): Animated<Vector>
  {
    if ds == [] then a else OffsetSize(SizeAfterOffsets(a, ds[..|ds| - 1]), ds[|ds| - 1])
  }

  /** Position offsets add up on the target; the current position stays. */
  lemma {:induction false} PositionOffsetsAccumulate(a: Animated<Point>, ds: seq<Vector>)
    ensures PositionAfterOffsets(a, ds) == a.SetTarget(Translate(a.target, Sum(ds)))
  {
    if ds != [] {
      PositionOffsetsAccumulate(a, ds[..|ds| - 1]);
    }
  }

  /** Size offsets add up on the target; the current size stays. */
  lemma {:induction false} SizeOffsetsAccumulate(a: Animated<Vector>, ds: seq<Vector>)
    ensures SizeAfterOffsets(a, ds) == a.SetTarget(Add(a.target, Sum(ds)))
  {
    if ds != [] {
      SizeOffsetsAccumulate(a, ds[..|ds| - 1]);
    }
  }

  /**
   * A new button entered at its corner and then pressed has an overlay
   * target of 0.2; released afterwards, 0.1.
   */
  lemma HoverPressReleaseFromNew(d: ButtonDescriptor)
    requires d.size.x >= 0.0 && d.size.y >= 0.0
    ensures var s0 := Initial(d);
            var s1 := Transition(s0, CursorMoved(d.position)).state;
            var s2 := Transition(s1, MouseInput(Pressed, Left)).state;
            var s3 := Transition(s2, MouseInput(Released, Left)).state;
            && s1.hovered && s1.overlay.target == 0.1
            && s2.pressed && s2.overlay.target == 0.2
            && s3.hovered && !s3.pressed && s3.overlay.target == 0.1
  {
  }

  /**
   * A button at (0, 0) of size (100, 50): the cursor at (50, 25) enters it,
   * the cursor at (200, 200) leaves it again.
   */
  lemma EnterAndLeaveScenario(d: ButtonDescriptor)
    requires d.position == Point(0.0, 0.0) && d.size == Vector(100.0, 50.0)
    ensures var s0 := Initial(d);
            var r1 := Transition(s0, CursorMoved(Point(50.0, 25.0)));
            var r2 := Transition(r1.state, CursorMoved(Point(200.0, 200.0)));
            && r1.consumed && r1.state.hovered && r1.state.overlay.target == 0.1
            && r2.consumed && !r2.state.hovered && r2.state.overlay.target == 0.0
  {
  }
}
