/** Character classes and string helpers of the .NET base library that the
    modelled code relies on: char.IsWhiteSpace, char.IsControl,
    string.IsNullOrWhiteSpace and string.Trim. */
module Text {
  import opened Wrappers

  /** char.IsWhiteSpace: the Unicode space, line and paragraph separators
      plus U+0009..U+000D and U+0085. */
  predicate IsWhiteSpace(c: char)
  {
    ('\t' <= c <= '\r') || c == ' ' || c == '\U{0085}' || c == '\U{00A0}'
    || c == '\U{1680}' || ('\U{2000}' <= c <= '\U{200A}')
    || c == '\U{2028}' || c == '\U{2029}' || c == '\U{202F}'
    || c == '\U{205F}' || c == '\U{3000}'
  }

  /** char.IsControl: the Unicode category Cc, U+0000..U+001F and U+007F..U+009F. */
  predicate IsControl(c: char)
  {
    c <= '\U{001F}' || ('\U{007F}' <= c <= '\U{009F}')
  }

  /** string.IsNullOrWhiteSpace on a non-null string: empty or only white space. */
  predicate IsBlank(s: string)
  {
    forall i :: 0 <= i < |s| ==> IsWhiteSpace(s[i])
  }

  /** string.IsNullOrWhiteSpace on a possibly null string. */
  predicate IsNullOrWhiteSpace(s: Option<string>)
  {
    match s
    case None => true
    case Some(t) => IsBlank(t)
  }

  /** Drops leading white space. */
  function TrimStart(s: string): (r: string)
    ensures |r| <= |s| && r == s[|s| - |r|..]
    ensures r == [] || !IsWhiteSpace(r[0])
    ensures forall i :: 0 <= i < |s| - |r| ==> IsWhiteSpace(s[i])
  {
    if s == [] || !IsWhiteSpace(s[0]) then s else TrimStart(s[1..])
  }

  /** Drops trailing white space. */
  function TrimEnd(s: string): (r: string)
    ensures |r| <= |s| && r == s[..|r|]
    ensures r == [] || !IsWhiteSpace(r[|r| - 1])
    ensures forall i :: |r| <= i < |s| ==> IsWhiteSpace(s[i])
  {
    if s == [] || !IsWhiteSpace(s[|s| - 1]) then s else TrimEnd(s[..|s| - 1])
  }

  /** string.Trim(): drops leading and trailing white space. */
  function Trim(s: string): string
  {
    TrimEnd(TrimStart(s))
  }

  /** Trimming never turns a blank string into a non-blank one or back:
      it is blank exactly when it is empty, and that is when the input was blank. */
  lemma TrimBlank(s: string)
    ensures IsBlank(Trim(s)) <==> IsBlank(s)
    ensures IsBlank(Trim(s)) <==> Trim(s) == ""
  {
    if IsBlank(s) {
      TrimStartOfBlank(s);
    } else {
      var i :| 0 <= i < |s| && !IsWhiteSpace(s[i]);
      var j := TrimStartKeeps(s, i);
      TrimEndKeeps(TrimStart(s), j);
    }
  }

  /** A character that is not white space survives TrimStart, at index j. */
  lemma TrimStartKeeps(s: string, i: nat) returns (j: nat)
    requires i < |s| && !IsWhiteSpace(s[i])
    ensures j < |TrimStart(s)| && TrimStart(s)[j] == s[i]
  {
    var t := TrimStart(s);
    var k := |s| - |t|;
    assert i >= k;
    j := i - k;
    assert t == s[k..];
    SliceAt(s, k, j);
  }

  lemma SliceAt(s: string, k: nat, j: nat)
    requires k + j < |s|
    ensures s[k..][j] == s[k + j]
  {
  }

  /** TrimEnd of a string holding a character that is not white space is
      not blank. */
  lemma TrimEndKeeps(t: string, j: nat)
    requires j < |t| && !IsWhiteSpace(t[j])
    ensures TrimEnd(t) != [] && !IsBlank(TrimEnd(t))
  {
    var r := TrimEnd(t);
    assert j < |r|;
    assert !IsWhiteSpace(r[|r| - 1]);
  }

  lemma {:induction false} TrimStartOfBlank(s: string)
    requires IsBlank(s)
    ensures TrimStart(s) == ""
  {
    if s != [] {
      TrimStartOfBlank(s[1..]);
    }
  }
}
