/** The discrete input events and the polled key state the game reacts to. */
module Input {
  /** The keys the game distinguishes; every other key is KeyOther. */
  datatype Key = KeySpace | KeyP | KeyB | KeyA | KeyD | KeyW | KeyS | KeyOther

  /** A pending input event: a key press, a key release, or anything else (mouse, focus, ...). */
  datatype Event = KeyDown(key: Key) | KeyUp(key: Key) | OtherEvent

  /** Which arrow keys are held down at the moment the key state is polled. */
  datatype Held = Held(left: bool, right: bool, up: bool, down: bool)
}
