/** What each edit command of the console line editor does to the text
    and the cursor, stated on values. The KeyHandler class in module
    ConsoleTools is proved to follow these definitions. */
module LineEditing {
  import opened Wrappers
  import opened ConsoleKeys

  /** The edited line and the cursor; the cursor limit is always the
      length of the text. */
  datatype LineState = LineState(text: string, pos: int)
  {
    predicate Valid()
    {
      0 <= pos <= |text|
    }
  }

  /** A new line editor: the initial text with the cursor after it. */
  function Initial(initialText: string): (s: LineState)
    ensures s.Valid() && s.text == initialText && s.pos == |initialText|
  {
    LineState(initialText, |initialText|)
  }

  /** The commands bound to keys; KillToStart, KillToEnd and KillWord are
      the anonymous actions of ControlU, ControlK and ControlW. */
  datatype KeyAction =
    | CursorLeft | CursorHome | CursorEnd | CursorRight
    | DeleteBack | DeleteForward | Clear
    | KillToStart | KillToEnd | KillWord | Transpose

  /** The key bindings, by lookup key (see BuildKeyInput). */
  const KeyActions: map<string, KeyAction> := map[
    "LeftArrow" := CursorLeft, "Home" := CursorHome, "End" := CursorEnd,
    "ControlA" := CursorHome, "ControlB" := CursorLeft, "RightArrow" := CursorRight,
    "ControlF" := CursorRight, "ControlE" := CursorEnd, "Backspace" := DeleteBack,
    "Delete" := DeleteForward, "ControlD" := DeleteForward, "ControlH" := DeleteBack,
    "ControlL" := Clear, "Escape" := Clear, "ControlU" := KillToStart,
    "ControlK" := KillToEnd, "ControlW" := KillWord, "ControlT" := Transpose]

  function MoveLeft(s: LineState): (r: LineState)
    ensures r.text == s.text && (s.Valid() ==> r.Valid())
    ensures r.pos <= s.pos && (r.pos == s.pos <==> s.pos == 0)
  {
    if s.pos == 0 then s else LineState(s.text, s.pos - 1)
  }

  function MoveRight(s: LineState): (r: LineState)
    ensures r.text == s.text && (s.Valid() ==> r.Valid())
    ensures r.pos >= s.pos && (r.pos == s.pos <==> s.pos == |s.text|)
  {
    if s.pos == |s.text| then s else LineState(s.text, s.pos + 1)
  }

  function MoveHome(s: LineState): (r: LineState)
    ensures r.text == s.text && r.Valid() && r.pos == 0
  {
    LineState(s.text, 0)
  }

  function MoveEnd(s: LineState): (r: LineState)
    ensures r.text == s.text && r.Valid() && r.pos == |r.text|
  {
    LineState(s.text, |s.text|)
  }

  function Backspace(s: LineState): (r: LineState)
    requires s.Valid()
    ensures r.Valid()
    ensures s.pos == 0 ==> r == s
    ensures s.pos > 0 ==> r.pos == s.pos - 1 && |r.text| == |s.text| - 1
  {
    if s.pos == 0 then s else LineState(s.text[..s.pos - 1] + s.text[s.pos..], s.pos - 1)
  }

  function Delete(s: LineState): (r: LineState)
    requires s.Valid()
    ensures r.Valid() && r.pos == s.pos
    ensures s.pos == |s.text| ==> r == s
    ensures s.pos < |s.text| ==> |r.text| == |s.text| - 1 && r.text[..s.pos] == s.text[..s.pos] && r.text[s.pos..] == s.text[s.pos + 1..]
  {
    if s.pos == |s.text| then s else LineState(s.text[..s.pos] + s.text[s.pos + 1..], s.pos)
  }

  function ClearLine(s: LineState): (r: LineState)
    ensures r.Valid() && |r.text| == 0
  {
    LineState("", 0)
  }

  function KillToStartOf(s: LineState): (r: LineState)
    requires s.Valid()
    ensures r.Valid() && r.pos == 0
    ensures s.text == s.text[..s.pos] + r.text
  {
    LineState(s.text[s.pos..], 0)
  }

  function KillToEndOf(s: LineState): (r: LineState)
    requires s.Valid()
    ensures r.Valid() && r.pos == s.pos == |r.text|
    ensures s.text == r.text + s.text[s.pos..]
  {
    LineState(s.text[..s.pos], s.pos)
  }

  /** Where ControlW stops deleting: the start of the line or just after
      the nearest space before `p`. */
  function WordStart(text: string, p: int): (w: int)
    requires 0 <= p <= |text|
    ensures 0 <= w <= p
    ensures w == 0 || text[w - 1] == ' '
    ensures forall i :: w <= i < p ==> text[i] != ' '
    decreases p
  {
    if p == 0 || text[p - 1] == ' ' then p else WordStart(text, p - 1)
  }

  function KillWordOf(s: LineState): (r: LineState)
    requires s.Valid()
    ensures r.Valid() && r.pos <= s.pos
    ensures r.text[..r.pos] == s.text[..r.pos] && r.text[r.pos..] == s.text[s.pos..]
  {
    var w := WordStart(s.text, s.pos);
    LineState(s.text[..w] + s.text[s.pos..], w)
  }

  /** The text with the characters at `first` and `second` exchanged. */
  function Swap(text: string, first: int, second: int): (t: string)
    requires 0 <= first < second < |text|
    ensures |t| == |text| && t[first] == text[second] && t[second] == text[first]
    ensures forall i :: 0 <= i < |text| && i != first && i != second ==> t[i] == text[i]
  {
    text[second := text[first]][first := text[second]]
  }

  /** ControlT: at the start nothing happens; inside the line the two
      characters around the cursor swap and the cursor moves on; at the end
      the last two characters swap. A one-character line with the cursor at
      its end asks for index -1 and fails. */
  function TransposeChars(s: LineState): (r: Result<LineState>)
    requires s.Valid()
    ensures r.Failure? <==> s.pos == |s.text| == 1
    ensures r.Success? ==> r.value.Valid() && |r.value.text| == |s.text|
    ensures s.pos == 0 ==> r == Success(s)
    ensures 0 < s.pos < |s.text| ==> r == Success(LineState(Swap(s.text, s.pos - 1, s.pos), s.pos + 1))
    ensures 2 <= s.pos == |s.text| ==> r == Success(LineState(Swap(s.text, |s.text| - 2, |s.text| - 1), s.pos))
  {
    if s.pos == 0 then Success(s)
    else if s.pos < |s.text| then Success(LineState(Swap(s.text, s.pos - 1, s.pos), s.pos + 1))
    else if |s.text| < 2 then Failure(IndexOutOfRangeException)
    else Success(LineState(Swap(s.text, |s.text| - 2, |s.text| - 1), s.pos))
  }

  /** Inserts `c` at the cursor and moves the cursor past it. */
  function WriteChar(s: LineState, c: char): (r: LineState)
    requires s.Valid()
    ensures r.Valid() && r.pos == s.pos + 1 && |r.text| == |s.text| + 1
    ensures r.text[s.pos] == c
  {
    LineState(s.text[..s.pos] + [c] + s.text[s.pos..], s.pos + 1)
  }

  function ApplyAction(s: LineState, a: KeyAction): (r: Result<LineState>)
    requires s.Valid()
    ensures r.Success? ==> r.value.Valid()
    ensures r.Failure? <==> a == Transpose && s.pos == |s.text| == 1
  {
    match a
    case CursorLeft => Success(MoveLeft(s))
    case CursorHome => Success(MoveHome(s))
    case CursorEnd => Success(MoveEnd(s))
    case CursorRight => Success(MoveRight(s))
    case DeleteBack => Success(Backspace(s))
    case DeleteForward => Success(Delete(s))
    case Clear => Success(ClearLine(s))
    case KillToStart => Success(KillToStartOf(s))
    case KillToEnd => Success(KillToEndOf(s))
    case KillWord => Success(KillWordOf(s))
    case Transpose => TransposeChars(s)
  }

  /** One key press: the bound action, or the key's character written at
      the cursor when no action is bound to it. */
  function Step(s: LineState, k: KeyInfo): (r: Result<LineState>)
    requires s.Valid()
    ensures r.Success? ==> r.value.Valid()
    ensures BuildKeyInput(k) !in KeyActions ==> r == Success(WriteChar(s, k.keyChar))
    ensures r.Failure? ==> BuildKeyInput(k) == "ControlT" && s.pos == |s.text| == 1
  {
    if BuildKeyInput(k) in KeyActions then ApplyAction(s, KeyActions[BuildKeyInput(k)])
    else Success(WriteChar(s, k.keyChar))
  }

  /** The keys up to the first Enter, applied in order; the first failure
      ends the line. */
  function Run(s: LineState, keys: seq<KeyInfo>): (r: Result<LineState>)
    requires s.Valid()
    ensures r.Success? ==> r.value.Valid()
    decreases |keys|
  {
    if |keys| == 0 || IsEnter(keys[0]) then Success(s)
    else match Step(s, keys[0])
      case Failure(e) => Failure(e)
      case Success(s') => Run(s', keys[1..])
  }

  /** Cursor movement never changes the text, and lands where it should:
      Home at 0, End at the limit, Left and Right one step, clamped. */
  lemma MovementKeepsText(s: LineState)
    requires s.Valid()
    ensures MoveLeft(s).text == s.text && MoveLeft(s).pos == if s.pos == 0 then 0 else s.pos - 1
    ensures MoveRight(s).text == s.text && MoveRight(s).pos == if s.pos == |s.text| then s.pos else s.pos + 1
    ensures MoveHome(s).text == s.text && MoveHome(s).pos == 0
    ensures MoveEnd(s).text == s.text && MoveEnd(s).pos == |s.text|
  {
  }

  /** Backspace removes exactly the character before the cursor. */
  lemma BackspaceRemovesPrevious(s: LineState)
    requires s.Valid() && s.pos > 0
    ensures |Backspace(s).text| == |s.text| - 1
    ensures Backspace(s).text[..s.pos - 1] == s.text[..s.pos - 1]
    ensures Backspace(s).text[s.pos - 1..] == s.text[s.pos..]
  {
  }

  /** Backspace undoes WriteChar. */
  lemma BackspaceUndoesWriteChar(s: LineState, c: char)
    requires s.Valid()
    ensures Backspace(WriteChar(s, c)) == s
  {
    var t := WriteChar(s, c).text;
    assert t[..s.pos] == s.text[..s.pos];
    assert t[s.pos + 1..] == s.text[s.pos..];
    assert s.text[..s.pos] + s.text[s.pos..] == s.text;
  }

  /** Delete after stepping back over a written character undoes it too. */
  lemma DeleteUndoesWriteChar(s: LineState, c: char)
    requires s.Valid()
    ensures Delete(MoveLeft(WriteChar(s, c))) == s
  {
    var t := WriteChar(s, c).text;
    assert t[..s.pos] == s.text[..s.pos];
    assert t[s.pos + 1..] == s.text[s.pos..];
    assert s.text[..s.pos] + s.text[s.pos..] == s.text;
  }

  /** WriteChar puts `c` at the old cursor and keeps everything else in
      order around it. */
  lemma WriteCharInserts(s: LineState, c: char)
    requires s.Valid()
    ensures |WriteChar(s, c).text| == |s.text| + 1
    ensures WriteChar(s, c).text[s.pos] == c
    ensures forall i :: 0 <= i < s.pos ==> WriteChar(s, c).text[i] == s.text[i]
    ensures forall i :: s.pos <= i < |s.text| ==> WriteChar(s, c).text[i + 1] == s.text[i]
  {
  }

  /** ControlK and ControlU split the line at the cursor, and applying one
      after the other empties it. */
  lemma KillsSplitLine(s: LineState)
    requires s.Valid()
    ensures KillToEndOf(s).text + KillToStartOf(s).text == s.text
    ensures KillToEndOf(KillToStartOf(s)) == ClearLine(s)
    ensures KillToStartOf(KillToEndOf(s)) == ClearLine(s)
  {
    assert s.text[..s.pos] + s.text[s.pos..] == s.text;
  }

  /** ControlW deletes exactly the run of non-space characters before the
      cursor and keeps the rest. */
  lemma KillWordDeletesWord(s: LineState)
    requires s.Valid()
    ensures var r := KillWordOf(s);
      r.Valid() && s.text == r.text[..r.pos] + s.text[r.pos..s.pos] + r.text[r.pos..]
      && (r.pos == 0 || s.text[r.pos - 1] == ' ')
      && (forall i :: r.pos <= i < s.pos ==> s.text[i] != ' ')
  {
    var w := WordStart(s.text, s.pos);
    var r := KillWordOf(s);
    assert r.text[..w] == s.text[..w];
    assert r.text[w..] == s.text[s.pos..];
    assert s.text[..w] + s.text[w..s.pos] + s.text[s.pos..] == s.text;
  }

  /** ControlT changes no character count: the new text is a permutation of
      the old, of the same length, and the cursor stays valid. */
  lemma TransposeIsPermutation(s: LineState)
    requires s.Valid() && TransposeChars(s).Success?
    ensures |TransposeChars(s).value.text| == |s.text|
    ensures multiset(TransposeChars(s).value.text) == multiset(s.text)
  {
    if s.pos > 0 {
      var i := if s.pos < |s.text| then s.pos - 1 else |s.text| - 2;
      var t := s.text[i + 1 := s.text[i]];
      assert multiset(t) == multiset(s.text) - multiset{s.text[i + 1]} + multiset{s.text[i]};
    }
  }

  /** At the end of the line, transposing twice restores the line. */
  lemma TransposeAtEndTwice(s: LineState)
    requires s.Valid() && s.pos == |s.text| >= 2
    ensures TransposeChars(s).Success?
    ensures TransposeChars(TransposeChars(s).value) == Success(s)
  {
    var t := TransposeChars(s).value;
    assert Swap(t.text, |s.text| - 2, |s.text| - 1) == s.text;
  }

  /** Exactly ControlT with the cursor at the end of a one-character line
      fails; every other key press succeeds. */
  lemma StepFailsOnlyOnShortTranspose(s: LineState, k: KeyInfo)
    requires s.Valid()
    ensures Step(s, k).Failure? <==> BuildKeyInput(k) == "ControlT" && s.pos == |s.text| == 1
  {
  }
}
