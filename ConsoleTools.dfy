/** Console input helpers: the masked password prompt, and ReadLine with
    its KeyHandler line editor (text buffer plus cursor). */
module ConsoleTools {
  import opened Wrappers
  import Text
  import opened ConsoleKeys
  import opened ObscuredInput
  import LE = LineEditing

  /** Reads keys until the first Enter; printable characters are appended,
      Backspace removes the last one. `consumed` is the number of keys read. */
  method GetObscuredStringFromConsole(keys: seq<KeyInfo>) returns (pass: string, consumed: nat)
    requires exists e :: 0 <= e < |keys| && IsEnter(keys[e])
    ensures EndsAtFirstEnter(keys, consumed)
    ensures pass == ObscuredFold(keys[..consumed])
  {
    ghost var e :| 0 <= e < |keys| && IsEnter(keys[e]);
    pass := "";
    var i := 0;
    while true
      invariant 0 <= i <= e
      invariant forall j :: 0 <= j < i ==> !IsEnter(keys[j])
      invariant pass == ObscuredFold(keys[..i])
      decreases e - i
    {
      var key := keys[i];
      if !Text.IsControl(key.keyChar) {
        pass := pass + [key.keyChar];
      } else if key.key == "Backspace" && |pass| > 0 {
        pass := pass[..|pass| - 1];
      }
      assert keys[..i + 1] == keys[..i] + [key];
      FoldSnoc(keys[..i], key);
      i := i + 1;
      if IsEnter(key) {
        consumed := i;
        return;
      }
    }
  }

  /** The line editor. `text`, `cursorPos` and `cursorLimit` are the
      buffer and cursor; `keyInfo` is the key being handled. */
  class KeyHandler {
    var text: string
    var cursorPos: int
    var cursorLimit: int
    var keyInfo: KeyInfo

    /** The cursor stays within the line, and the limit is the text's length. */
    ghost predicate Valid()
      reads this
    {
      0 <= cursorPos <= cursorLimit == |text|
    }

    ghost function State(): LE.LineState
      reads this
    {
      LE.LineState(text, cursorPos)
    }

    /** The new state is `expected`, or, when `expected` is an exception,
        that exception is returned and the old state kept. */
    ghost predicate Produced(r: Result<()>, expected: Result<LE.LineState>, before: LE.LineState)
      reads this
    {
      Valid() &&
      match expected
      case Success(s) => r.Success? && State() == s
      case Failure(e) => r == Failure(e) && State() == before
    }

    /** Writes the initial text, leaving the cursor after it. */
    constructor (initialText: string)
      ensures Valid() && State() == LE.Initial(initialText)
    {
      text := "";
      cursorPos := 0;
      cursorLimit := 0;
      keyInfo := NoKey;
      new;
      WriteString(initialText);
    }

    method MoveCursorLeft()
      requires 0 <= cursorPos
      modifies this
      ensures cursorPos == if old(cursorPos) == 0 then 0 else old(cursorPos) - 1
      ensures text == old(text) && cursorLimit == old(cursorLimit) && keyInfo == old(keyInfo)
    {
      if cursorPos == 0 { return; }
      cursorPos := cursorPos - 1;
    }

    /** Needs only the cursor within the limit: WriteChar calls it after
        inserting and before raising the limit. */
    method MoveCursorRight()
      requires cursorPos <= cursorLimit
      modifies this
      ensures cursorPos == if old(cursorPos) == cursorLimit then cursorLimit else old(cursorPos) + 1
      ensures text == old(text) && cursorLimit == old(cursorLimit) && keyInfo == old(keyInfo)
    {
      if cursorPos == cursorLimit { return; }
      cursorPos := cursorPos + 1;
    }

    method MoveCursorHome()
      requires Valid()
      modifies this
      ensures Valid() && State() == LE.MoveHome(old(State())) && keyInfo == old(keyInfo)
    {
      while cursorPos != 0
        invariant Valid() && text == old(text) && keyInfo == old(keyInfo)
        decreases cursorPos
      {
        MoveCursorLeft();
      }
    }

    method MoveCursorEnd()
      requires Valid()
      modifies this
      ensures Valid() && State() == LE.MoveEnd(old(State())) && keyInfo == old(keyInfo)
    {
      while cursorPos != cursorLimit
        invariant Valid() && text == old(text) && keyInfo == old(keyInfo)
        decreases cursorLimit - cursorPos
      {
        MoveCursorRight();
      }
    }

    method Backspace()
      requires Valid()
      modifies this
      ensures Valid() && State() == LE.Backspace(old(State())) && keyInfo == old(keyInfo)
    {
      if cursorPos == 0 { return; }
      MoveCursorLeft();
      var index := cursorPos;
      text := text[..index] + text[index + 1..];
      cursorLimit := cursorLimit - 1;
    }

    method Delete()
      requires Valid()
      modifies this
      ensures Valid() && State() == LE.Delete(old(State())) && keyInfo == old(keyInfo)
    {
      if cursorPos == cursorLimit { return; }
      var index := cursorPos;
      text := text[..index] + text[index + 1..];
      cursorLimit := cursorLimit - 1;
    }

    /** Goes to the end, then deletes backwards to the start. */
    method ClearLine()
      requires Valid()
      modifies this
      ensures Valid() && State() == LE.ClearLine(old(State())) && keyInfo == old(keyInfo)
    {
      MoveCursorEnd();
      ghost var t0 := text;
      while cursorPos != 0
        invariant Valid() && keyInfo == old(keyInfo)
        invariant cursorPos <= |t0| && text == t0[..cursorPos]
        decreases cursorPos
      {
        Backspace();
      }
    }

    /** ControlU: deletes backwards to the start of the line. */
    method KillToStart()
      requires Valid()
      modifies this
      ensures Valid() && State() == LE.KillToStartOf(old(State())) && keyInfo == old(keyInfo)
    {
      ghost var t0, p0 := text, cursorPos;
      while cursorPos != 0
        invariant Valid() && keyInfo == old(keyInfo)
        invariant cursorPos <= p0 && text == t0[..cursorPos] + t0[p0..]
        decreases cursorPos
      {
        Backspace();
        assert t0[..cursorPos + 1][..cursorPos] == t0[..cursorPos];
      }
      assert text == t0[p0..];
    }

    /** ControlK: goes to the end, then deletes backwards to where the
        cursor was. */
    method KillToEnd()
      requires Valid()
      modifies this
      ensures Valid() && State() == LE.KillToEndOf(old(State())) && keyInfo == old(keyInfo)
    {
      var pos := cursorPos;
      MoveCursorEnd();
      ghost var t0 := text;
      while cursorPos > pos
        invariant Valid() && keyInfo == old(keyInfo)
        invariant pos <= cursorPos <= |t0| && text == t0[..cursorPos]
        decreases cursorPos
      {
        Backspace();
      }
    }

    /** ControlW: deletes backwards until the start of the line or a space. */
    method KillWord()
      requires Valid()
      modifies this
      ensures Valid() && State() == LE.KillWordOf(old(State())) && keyInfo == old(keyInfo)
    {
      ghost var t0, p0 := text, cursorPos;
      while cursorPos != 0 && text[cursorPos - 1] != ' '
        invariant Valid() && keyInfo == old(keyInfo)
        invariant cursorPos <= p0 && text == t0[..cursorPos] + t0[p0..]
        invariant LE.WordStart(t0, cursorPos) == LE.WordStart(t0, p0)
        decreases cursorPos
      {
        assert text[cursorPos - 1] == t0[cursorPos - 1];
        Backspace();
        assert t0[..cursorPos + 1][..cursorPos] == t0[..cursorPos];
      }
      assert cursorPos == 0 || t0[cursorPos - 1] == ' ' by {
        if cursorPos != 0 { assert text[cursorPos - 1] == t0[cursorPos - 1]; }
      }
    }

    /** Inserts `c` at the cursor (appends it at the end of the line) and
        moves the cursor past it. */
    method WriteChar(c: char)
      requires Valid()
      modifies this
      ensures Valid() && State() == LE.WriteChar(old(State()), c) && keyInfo == old(keyInfo)
    {
      if cursorPos == cursorLimit {
        text := text + [c];
        cursorPos := cursorPos + 1;
      } else {
        text := text[..cursorPos] + [c] + text[cursorPos..];
        MoveCursorRight();
      }
      cursorLimit := cursorLimit + 1;
    }

    /** Writes `str` one character at a time; called with the cursor at the
        end of the line. */
    method WriteString(str: string)
      requires Valid() && cursorPos == cursorLimit
      modifies this
      ensures Valid() && State() == LE.LineState(old(text) + str, |old(text) + str|) && keyInfo == old(keyInfo)
    {
      for i := 0 to |str|
        invariant Valid() && keyInfo == old(keyInfo)
        invariant text == old(text) + str[..i] && cursorPos == cursorLimit
      {
        WriteChar(str[i]);
        assert str[..i + 1] == str[..i] + [str[i]];
      }
      assert str[..|str|] == str;
    }

    /** Clears the line, then writes `str`. */
    method WriteNewString(str: string)
      requires Valid()
      modifies this
      ensures Valid() && State() == LE.Initial(str) && keyInfo == old(keyInfo)
    {
      ClearLine();
      WriteString(str);
    }

    /** ControlT. The two indices step back by one at the end of the line;
        there, on a one-character line, the first index is -1 and reading it
        throws before anything has changed. */
    method TransposeChars() returns (r: Result<()>)
      requires Valid()
      modifies this
      ensures Produced(r, LE.TransposeChars(old(State())), old(State())) && keyInfo == old(keyInfo)
    {
      if cursorPos == 0 { return Success(()); }
      var firstIdx := if cursorPos == cursorLimit then cursorPos - 2 else cursorPos - 1;
      var secondIdx := if cursorPos == cursorLimit then cursorPos - 1 else cursorPos;
      if firstIdx < 0 { return Failure(IndexOutOfRangeException); }
      text := text[secondIdx := text[firstIdx]][firstIdx := text[secondIdx]];
      var cursorPosition := if cursorLimit - cursorPos == 1 then cursorPos + 1 else cursorPos;
      WriteNewString(text);
      cursorPos := cursorPosition;
      MoveCursorRight();
      return Success(());
    }

    /** Runs one bound command. */
    method Invoke(a: LE.KeyAction) returns (r: Result<()>)
      requires Valid()
      modifies this
      ensures Produced(r, LE.ApplyAction(old(State()), a), old(State())) && keyInfo == old(keyInfo)
    {
      r := Success(());
      match a
      case CursorLeft => MoveCursorLeft();
      case CursorHome => MoveCursorHome();
      case CursorEnd => MoveCursorEnd();
      case CursorRight => MoveCursorRight();
      case DeleteBack => Backspace();
      case DeleteForward => Delete();
      case Clear => ClearLine();
      case KillToStart => KillToStart();
      case KillToEnd => KillToEnd();
      case KillWord => KillWord();
      case Transpose => r := TransposeChars();
    }

    /** Looks the key up in the bindings and runs its command, or writes
        the key's character when none is bound. */
    method Handle(k: KeyInfo) returns (r: Result<()>)
      requires Valid()
      modifies this
      ensures Produced(r, LE.Step(old(State()), k), old(State())) && keyInfo == k
    {
      keyInfo := k;
      var input := BuildKeyInput(keyInfo);
      if input in LE.KeyActions {
        r := Invoke(LE.KeyActions[input]);
      } else {
        WriteChar(keyInfo.keyChar);
        r := Success(());
      }
    }

    function Text(): (s: string)
      reads this
      ensures s == text
    {
      text
    }
  }

  /** Edits `initialText` with the keys up to the first Enter and returns
      the line; an exception from a key handler ends the call. */
  method ReadLine(initialText: string, keys: seq<KeyInfo>) returns (line: Result<string>)
    requires exists e :: 0 <= e < |keys| && IsEnter(keys[e])
    ensures var r := LE.Run(LE.Initial(initialText), keys);
      (r.Success? ==> line == Success(r.value.text)) && (r.Failure? ==> line == Failure(r.error))
  {
    ghost var e :| 0 <= e < |keys| && IsEnter(keys[e]);
    var keyHandler := new KeyHandler(initialText);
    var i := 0;
    var keyInfo := keys[i];
    while !IsEnter(keyInfo)
      invariant 0 <= i <= e && keyInfo == keys[i]
      invariant keyHandler.Valid()
      invariant LE.Run(LE.Initial(initialText), keys) == LE.Run(keyHandler.State(), keys[i..])
      decreases e - i
    {
      ghost var before := keyHandler.State();
      var r := keyHandler.Handle(keyInfo);
      assert keys[i..][0] == keyInfo && keys[i..][1..] == keys[i + 1..];
      if r.Failure? {
        return Failure(r.error);
      }
      i := i + 1;
      keyInfo := keys[i];
    }
    line := Success(keyHandler.Text());
  }
}
