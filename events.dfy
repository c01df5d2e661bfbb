/**
 * The window events a button is offered (winit's WindowEvent). Only the two
 * kinds a button reads are spelled out; every other kind is one constructor.
 */
module Events {
  import opened Geometry

  datatype ElementState = Pressed | Released

  datatype MouseButton = Left | Right | Middle | Back | Forward | Other(code: nat)

  datatype WindowEvent =
    | CursorMoved(position: Point)
    | MouseInput(state: ElementState, button: MouseButton)
    | OtherEvent
}
