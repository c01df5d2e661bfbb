# rwui button: interaction state machine

A Dafny model of the button widget of rwui (`src/button.rs`). A button is a
rectangle on screen. It has an animated position, an animated size and an
animated overlay alpha, and two interaction flags, `hovered` and `pressed`.
`consume_event` turns window events into flag transitions, overlay steps and
callback calls. The geometry setters retarget the animations. `update` steps
the animations that have not reached their target.

Files:

- `geometry.dfy` (`Geometry`): points, vectors and the inclusive hit test, on exact reals.
- `animation.dfy` (`Animation`): rwcommon's `Animated<T>` seen from the button: `current`, `target`, a fixed `duration`, and `Complete()` meaning current equals target. `SetTarget` changes only the target. `Step` changes only the current value.
- `events.dfy` (`Events`): the winit events a button reads (`CursorMoved`, `MouseInput`) and one constructor for all other events.
- `button.dfy` (`ButtonWidget`): the class `Button` with the fields of `Button<T>`. It also holds the pure transition table `Transition`, which `ConsumeEvent` is proved against.
- `properties.dfy` (`ButtonProperties`): lemmas about `Transition`, about runs of events and about the offset setters.

Callbacks are function pointers in the source. Here each slot is a boolean: does it hold a function? Calling a callback appends its slot (`Enter`, `Exit`, `PressSlot`, `ReleaseSlot`) to the button's `fired` log. The source's wiring is kept as written:

- the release transition calls the `on_press` slot (`src/button.rs:116`);
- the press transition calls the `on_release` slot (`src/button.rs:126`).

This is the opposite of what the descriptor's doc comments say (`src/button.rs:24-27`).

The overlay steps of ±0.1 are exact real arithmetic. With exact arithmetic, every button satisfies `overlay target == 0.1 * (hovered + pressed)`: it holds on creation, and `consume_event` is the only operation that changes the overlay target. So the target is always 0, 0.1 or 0.2 (`OverlayTargetBounded`). Repeated toggling cannot push it outside [0, 1] unless a callback re-enters the button, and re-entry is not modelled.

## Model

| member | source | states |
|---|---|---|
| ButtonWidget.Transition | src/button.rs:71-138 | No event moves or resizes the button, changes its callbacks or the overlay's current value. An event is consumed exactly when it changes the state, and only a consumed event fires a callback. The overlay target moves 0.1 per flag raised and −0.1 per flag cleared. After a cursor move `hovered` equals the hit test on the current geometry and `pressed` is unchanged. A left release always leaves the button not pressed. Mouse input never changes `hovered`. A press can start only while hovered. |
| ButtonWidget.Button.ConsumeEvent | src/button.rs:71-138 | The new flags and overlay are those of `Transition` on the old state. The result is `Transition`'s consumed flag. The fired callback, if any, is appended to the log. Position, size, z-index, colour, caption and callbacks do not change. The overlay balance is kept. |
| ButtonWidget.Initial | src/button.rs:181-188 | A new button is neither hovered nor pressed. Its overlay is at rest on 0 with duration 100. Position and size are at rest on the descriptor's values with duration 200. The callbacks are the descriptor's. The overlay balance holds. |
| ButtonWidget.Button.constructor | src/button.rs:181-196 | The state is `Initial(d)`. z-index, colour and caption are the descriptor's. No callback has fired. |
| ButtonWidget.Button.SetPosition | src/button.rs:200-202 | The position target becomes `p`. The current position and every other field are unchanged. |
| ButtonWidget.Button.SetPositionOffset | src/button.rs:205-207 | The position target becomes the old target moved by `d`. The current position and every other field are unchanged. |
| ButtonWidget.Button.SetSize | src/button.rs:210-212 | The size target becomes `v`. The current size and every other field are unchanged. |
| ButtonWidget.Button.SetSizeOffset | src/button.rs:215-217 | The size target becomes the old target plus `d`. The current size and every other field are unchanged. |
| ButtonWidget.Advance | src/button.rs:227-241 | `update`'s guard: a complete animation is left as it is. An incomplete one takes the engine's next value as current. The target and duration never change. |
| ButtonWidget.Button.Update | src/button.rs:225-243 | Each of the three animations is advanced under its own guard. No target, flag or callback changes. The overlay balance is kept. |
| ButtonProperties.HitTestInclusive | src/button.rs:76-84 | Points on all four edges of a rectangle with non-negative size count as inside. |
| ButtonProperties.HitTestIgnoresTargets | src/button.rs:76-84 | Changing the position and size targets changes no reaction: the hit test reads only the current geometry. |
| ButtonProperties.EnterHover | src/button.rs:86-94 | A cursor inside while not hovered: consumed, `hovered` set, overlay target +0.1, nothing else changed. `Enter` fires exactly when `on_enter` is present. |
| ButtonProperties.ExitHover | src/button.rs:95-104 | A cursor outside while hovered: consumed, `hovered` cleared, overlay target −0.1, nothing else changed. `Exit` fires exactly when `on_exit` is present. |
| ButtonProperties.HoverStable | src/button.rs:72-105 | A cursor move that does not change the hover status is not consumed, fires nothing and changes nothing. |
| ButtonProperties.HoverIdempotent | src/button.rs:75-106 | The same cursor move delivered twice is never consumed the second time. Entering is consumed the first time. |
| ButtonProperties.PressRequiresHover | src/button.rs:121-130 | A left press while neither hovered nor pressed is not consumed and changes nothing. |
| ButtonProperties.PressWhileHovered | src/button.rs:121-130 | A left press while hovered and not pressed: consumed, `pressed` set, overlay target +0.1. The `on_release` slot fires if present. |
| ButtonProperties.ReleaseClears | src/button.rs:111-120 | A left release while pressed, whatever `hovered` is: consumed, `pressed` cleared, overlay target −0.1. The `on_press` slot fires if present. |
| ButtonProperties.RedundantMouseInputIgnored | src/button.rs:111-131 | A left press while pressed, and a left release while not pressed, are not consumed and change nothing. |
| ButtonProperties.OtherEventsIgnored | src/button.rs:107-134 | Mouse input from any button other than the left one, and every other kind of event, is not consumed and changes nothing. |
| ButtonProperties.EnterThenExitRestores | src/button.rs:86-104 | Entering and then leaving gives back exactly the state entered from, overlay target included. |
| ButtonProperties.PressThenReleaseRestores | src/button.rs:111-130 | Pressing and then releasing gives back exactly the state pressed from. |
| ButtonProperties.Run | src/button.rs:71-138 | A run of events never changes position, size, callbacks or the overlay's current value. |
| ButtonProperties.RunKeepsBalance | src/button.rs:86-130 | Every run of events keeps the overlay target equal to 0.1 times the number of raised flags. |
| ButtonProperties.OverlayTargetBounded | src/button.rs:181-188 | For a new button, after any run of events, the overlay target is 0, 0.1 or 0.2. |
| ButtonProperties.PositionOffsetsAccumulate | src/button.rs:205-207 | A sequence of position offsets moves the target by their sum. The current position is unchanged. |
| ButtonProperties.SizeOffsetsAccumulate | src/button.rs:215-217 | A sequence of size offsets adds their sum to the target. The current size is unchanged. |
| ButtonProperties.HoverPressReleaseFromNew | src/button.rs:111-130 | A new button entered at its corner has overlay target 0.1, then 0.2 after a left press, then 0.1 after a left release. It is still hovered at the end. |
| ButtonProperties.EnterAndLeaveScenario | src/button.rs:75-104 | A button at (0, 0) with size (100, 50): moving the cursor to (50, 25) is consumed and gives overlay target 0.1. Moving it on to (200, 200) is consumed and gives 0. |

## Left out

- Interpolation inside rwcommon's `Animated<T>`: its code is not part of this model. `Button.Update` takes as parameters the values the engine yields for this frame's elapsed time, so no interpolation formula, duration arithmetic or completion timing is stated.
- `Animation.Animated.Complete` is taken to mean that the current value equals the target. How the engine decides completion is not part of this model.
- Floating point: coordinates and the overlay are exact reals. The `f64` to `f32` cast of the cursor position (`src/button.rs:81-84`) and the rounding of repeated ±0.1 steps are not modelled.
- Callback bodies and the user data `T` they receive. Only which slot fired is recorded. A callback that mutates the button, or calls `consume_event` again, is not modelled. The overlay bound holds only without such re-entry.
- Rendering: the sprite and text built in `new` and their text style (`src/button.rs:152-179`), `draw` (`src/button.rs:141-148`), the sprite pushes inside `update`, and the descriptor's `texture_id`, which only reaches the sprite.
- `set_z_index` (`src/button.rs:220-222`): it only forwards to the sprite and does not change the `z_index` field.
- Every winit event other than cursor moves and mouse input is a single `OtherEvent` constructor. Their fields are never read. The device id and modifiers of the two events that are read are dropped too.
- `src/window_app.rs`: the event loop, window and renderer set-up. `src/error.rs`: the error enumeration of that set-up.
