/** Terminal input as the crossterm library delivers it, reduced to what the
    counter application and the event handler look at. The library's own
    structures are abstract here: a key is its code, its modifier bits and
    its kind; every other notification is an opaque tag with its payload. */
module Input {

  /** Rust's `u16`, used for terminal columns and rows. */
  newtype u16 = x: int | 0 <= x < 0x1_0000

  /** The key that was hit: a character key, or one of the named keys
      (Enter, Esc, the arrows, F1, ...) identified by a tag. */
  datatype KeyCode = Char(c: char) | Named(tag: nat)

  /** crossterm reports a press, an auto-repeat and (on terminals that
      support it) a release of the same key as separate notifications. */
  datatype KeyEventKind = Press | Repeat | Release

  /** A key notification; `modifiers` is crossterm's one-byte bit set of
      Shift, Control, Alt, ... */
  datatype KeyEvent = KeyEvent(code: KeyCode, modifiers: bv8, kind: KeyEventKind)

  /** A mouse notification: its kind (button down, drag, scroll, ...) as a
      tag, the cell it happened in and the modifier bits. */
  datatype MouseEvent = MouseEvent(kind: nat, column: u16, row: u16, modifiers: bv8)

  /** One low-level notification read from the terminal. */
  datatype Notification =
    | FocusGained
    | FocusLost
    | Key(key: KeyEvent)
    | Mouse(mouse: MouseEvent)
    | Paste(text: string)
    | Resize(columns: u16, rows: u16)

  /** Is `n` a press (not a repeat or release) of the key `code`? Both the
      counter's update and the event handler filter on the kind. */
  predicate IsPressOf(n: Notification, code: KeyCode) {
    n.Key? && n.key.kind == Press && n.key.code == code
  }
}
