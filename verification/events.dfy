/** The shape of the terminal input events the key reader receives. */
module Events {
  import opened Base

  /** One bit of the keyboard modifier bit set. */
  datatype Modifier = Shift | Control | Alt | Super | Hyper | Meta

  /** The empty modifier set: no modifier held. */
  const NONE: set<Modifier> := {}

  /** Exactly the Control modifier, and nothing else. */
  const CONTROL: set<Modifier> := {Control}

  /** The key that was pressed; only `Char` carries a character. */
  datatype KeyCode =
    | Backspace | Enter | Left | Right | Up | Down | Home | End
    | PageUp | PageDown | Tab | BackTab | Delete | Insert
    | F(number: nat) | Char(c: char) | Null | Esc | OtherKey

  /** Press, repeat or release; the key reader never looks at it. */
  datatype KeyEventKind = Press | Repeat | Release

  datatype KeyEvent = KeyEvent(code: KeyCode, modifiers: set<Modifier>, kind: KeyEventKind)

  /** Everything the terminal's event stream can deliver. */
  datatype Event =
    | FocusGained
    | FocusLost
    | Key(key: KeyEvent)
    | Mouse
    | Paste(text: string)
    | Resize(columns: U16, rows: U16)
}
