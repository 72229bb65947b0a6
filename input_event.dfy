/** The input events the editor receives from the terminal. Only the
    keyboard part matters to the editor; the other kinds stand for every
    event that is not a key press. */
module InputEvents {
  import opened Common

  datatype SpecialKey =
    | Backspace | Enter | Left | Right | Up | Down | Home | End
    | PageUp | PageDown | Tab | BackTab | Delete | Insert | Esc

  datatype Key =
    | Character(character: char)
    | Special(specialKey: SpecialKey)
    | FunctionKey(number: nat)

  datatype ModifierKeysMask = ModifierKeysMask(shift: bool, ctrl: bool, alt: bool)

  /** A key pressed on its own (`Plain`) or together with modifier keys. */
  datatype KeyPress =
    | Plain(key: Key)
    | WithModifiers(key: Key, mask: ModifierKeysMask)

  datatype InputEvent =
    | Keyboard(keyPress: KeyPress)
    | Resize(colCount: nat, rowCount: nat)
    | Mouse(position: Position)
    | Focus(gained: bool)

  function PlainKey(key: Key): InputEvent
  {
    Keyboard(Plain(key))
  }

  function PlainSpecial(specialKey: SpecialKey): InputEvent
  {
    Keyboard(Plain(Special(specialKey)))
  }

  /** True when the event is a key press equal to one of `keyPresses`. */
  predicate MatchesAnyOfTheseKeyPresses(event: InputEvent, keyPresses: seq<KeyPress>)
  {
    event.Keyboard? && event.keyPress in keyPresses
  }
}
