/** The masked password prompt's fold over key presses, shared by the two
    copies of GetObscuredStringFromConsole. */
module ObscuredInput {
  import opened Text
  import opened ConsoleKeys

  /** One key: a printable character is appended, Backspace drops the last
      character when there is one, any other control key is ignored. */
  function ObscuredStep(pass: string, key: KeyInfo): string
  {
    if !IsControl(key.keyChar) then pass + [key.keyChar]
    else if key.key != "Backspace" || |pass| <= 0 then pass
    else pass[..|pass| - 1]
  }

  /** The buffer after reading `keys` in order, starting empty. */
  function ObscuredFold(keys: seq<KeyInfo>): (pass: string)
    ensures |pass| <= |keys|
    ensures forall i :: 0 <= i < |pass| ==> !IsControl(pass[i])
  {
    if |keys| == 0 then "" else ObscuredStep(ObscuredFold(keys[..|keys| - 1]), keys[|keys| - 1])
  }

  /** The first Enter in the keys: where the prompt stops reading. */
  predicate EndsAtFirstEnter(keys: seq<KeyInfo>, consumed: nat)
  {
    0 < consumed <= |keys| && IsEnter(keys[consumed - 1])
    && forall j :: 0 <= j < consumed - 1 ==> !IsEnter(keys[j])
  }

  lemma FoldSnoc(keys: seq<KeyInfo>, k: KeyInfo)
    ensures ObscuredFold(keys + [k]) == ObscuredStep(ObscuredFold(keys), k)
  {
    assert (keys + [k])[..|keys|] == keys;
  }

  /** A printable key appends its character. */
  lemma PrintableAppended(keys: seq<KeyInfo>, k: KeyInfo)
    requires !IsControl(k.keyChar)
    ensures ObscuredFold(keys + [k]) == ObscuredFold(keys) + [k.keyChar]
  {
    FoldSnoc(keys, k);
  }

  /** Backspace removes exactly the last character of a non-empty buffer
      and leaves an empty one alone. */
  lemma BackspaceDropsLast(keys: seq<KeyInfo>, k: KeyInfo)
    requires IsControl(k.keyChar) && k.key == "Backspace"
    ensures |ObscuredFold(keys)| > 0 ==> ObscuredFold(keys + [k]) == ObscuredFold(keys)[..|ObscuredFold(keys)| - 1]
    ensures |ObscuredFold(keys)| == 0 ==> ObscuredFold(keys + [k]) == ""
  {
    FoldSnoc(keys, k);
  }

  /** Any other control key leaves the buffer unchanged. */
  lemma OtherControlIgnored(keys: seq<KeyInfo>, k: KeyInfo)
    requires IsControl(k.keyChar) && k.key != "Backspace"
    ensures ObscuredFold(keys + [k]) == ObscuredFold(keys)
  {
    FoldSnoc(keys, k);
  }

  /** The characters the keys produce, in reading order. */
  function KeyChars(keys: seq<KeyInfo>): (cs: string)
    ensures |cs| == |keys| && forall i :: 0 <= i < |keys| ==> cs[i] == keys[i].keyChar
  {
    if |keys| == 0 then "" else KeyChars(keys[..|keys| - 1]) + [keys[|keys| - 1].keyChar]
  }

  /** Without control keys the buffer is every character in reading order. */
  lemma {:induction false} PrintableKeysKeptInOrder(keys: seq<KeyInfo>)
    requires forall i :: 0 <= i < |keys| ==> !IsControl(keys[i].keyChar)
    ensures ObscuredFold(keys) == KeyChars(keys)
  {
    if |keys| > 0 {
      PrintableKeysKeptInOrder(keys[..|keys| - 1]);
    }
  }

  /** An Enter that produces a control character (the usual carriage
      return) adds nothing: the result is the fold of the keys before it. */
  lemma EnterNotIncluded(keys: seq<KeyInfo>, consumed: nat)
    requires EndsAtFirstEnter(keys, consumed) && IsControl(keys[consumed - 1].keyChar)
    ensures ObscuredFold(keys[..consumed]) == ObscuredFold(keys[..consumed - 1])
  {
    assert keys[..consumed] == keys[..consumed - 1] + [keys[consumed - 1]];
    OtherControlIgnored(keys[..consumed - 1], keys[consumed - 1]);
  }
}
