/** The input events the simulator reacts to, with the mouse position read alongside them. */
module Input {

  /** A screen position in whole pixels, as pygame reports the mouse. */
  datatype Pixel = Pixel(x: int, y: int)

  /** pygame's number for the left mouse button. */
  const LEFT: int := 1

  /** pygame's key code for the space bar. */
  const K_SPACE: int := 32

  datatype EventKind =
    | ButtonDown(button: int)
    | ButtonUp(button: int)
    | MouseMotion
    | KeyDown(key: int)
    | OtherEvent

  /** An event together with the mouse position at the time it is handled. */
  datatype Event = Event(kind: EventKind, mouse: Pixel)
}
