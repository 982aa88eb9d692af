/** The Vaultfuscation tools' own copy of the masked password prompt. */
module ConsoleEntryTools {
  import opened Text
  import opened ConsoleKeys
  import opened ObscuredInput

  /** Reads keys until the first Enter; printable characters are appended,
      Backspace removes the last one, other control keys are skipped.
      `consumed` is the number of keys read, the Enter included. */
  method GetObscuredStringFromConsole(keys: seq<KeyInfo>) returns (pass: string, consumed: nat)
    requires exists e :: 0 <= e < |keys| && IsEnter(keys[e])
    ensures EndsAtFirstEnter(keys, consumed)
    ensures pass == ObscuredFold(keys[..consumed])
    ensures |pass| <= consumed && forall i :: 0 <= i < |pass| ==> !IsControl(pass[i])
  {
    ghost var e :| 0 <= e < |keys| && IsEnter(keys[e]);
    pass := "";
    var i := 0;
    while true
      invariant 0 <= i <= e
      invariant forall j :: 0 <= j < i ==> !IsEnter(keys[j])
      invariant pass == ObscuredFold(keys[..i])
      decreases e - i
    {
      var key := keys[i];
      if !IsControl(key.keyChar) {
        pass := pass + [key.keyChar];
      } else if key.key == "Backspace" && |pass| > 0 {
        pass := pass[..|pass| - 1];
      }
      assert keys[..i + 1] == keys[..i] + [key];
      FoldSnoc(keys[..i], key);
      i := i + 1;
      if IsEnter(key) {
        consumed := i;
        return;
      }
    }
  }
}
