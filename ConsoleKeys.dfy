/** The console keys the line editor and the password prompts read. */
module ConsoleKeys {
  /** ConsoleModifiers as three flags. */
  datatype Modifiers = Modifiers(alt: bool, shift: bool, control: bool)

  /** A ConsoleKeyInfo: the ConsoleKey's name (as ConsoleKey.ToString()
      spells it), the character the key produced and the modifiers held. */
  datatype KeyInfo = KeyInfo(key: string, keyChar: char, modifiers: Modifiers)

  /** `default(ConsoleKeyInfo)`: key code 0, the NUL character, no modifiers. */
  const NoKey := KeyInfo("0", '\0', Modifiers(false, false, false))

  predicate IsEnter(k: KeyInfo)
  {
    k.key == "Enter"
  }

  predicate IsExactlyControl(m: Modifiers)
  {
    m == Modifiers(false, false, true)
  }

  predicate IsExactlyShift(m: Modifiers)
  {
    m == Modifiers(false, true, false)
  }

  /** The lookup key of a key press: the bare key name, prefixed by
      "Control" or "Shift" only when that is the only modifier held. */
  function BuildKeyInput(k: KeyInfo): (input: string)
    ensures IsExactlyControl(k.modifiers) ==> input == "Control" + k.key
    ensures IsExactlyShift(k.modifiers) ==> input == "Shift" + k.key
    ensures !IsExactlyControl(k.modifiers) && !IsExactlyShift(k.modifiers) ==> input == k.key
  {
    if !IsExactlyControl(k.modifiers) && !IsExactlyShift(k.modifiers) then k.key
    else if IsExactlyControl(k.modifiers) then "Control" + k.key
    else "Shift" + k.key
  }

  /** Alt, or two modifiers at once, are ignored: such a key looks the same
      as the unmodified key. */
  lemma CombinedModifiersIgnored(key: string, keyChar: char, m: Modifiers)
    requires m.alt || (m.shift && m.control)
    ensures BuildKeyInput(KeyInfo(key, keyChar, m)) == BuildKeyInput(KeyInfo(key, keyChar, Modifiers(false, false, false)))
  {
  }
}
