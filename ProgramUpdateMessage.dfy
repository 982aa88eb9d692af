/** The update-available decision shared by the WPF and Avalonia
    ProgramUpdateMessageContext classes. */
module ProgramUpdateRule {
  import opened Wrappers
  import opened Text

  /** `s ?? string.Empty`. */
  function OrEmpty(s: Option<string>): (r: string)
    ensures s.Some? ==> r == s.value
    ensures s.None? ==> r == ""
  {
    match s
    case None => ""
    case Some(v) => v
  }

  /** Ordinal case folding, restricted to ASCII letters. */
  function FoldChar(c: char): (u: char)
    ensures 'a' <= c <= 'z' ==> u as int == c as int - 32
    ensures !('a' <= c <= 'z') ==> u == c
  {
    if 'a' <= c <= 'z' then (c as int - 32) as char else c
  }

  function Fold(s: string): (r: string)
    ensures |r| == |s|
    ensures forall i :: 0 <= i < |s| ==> r[i] == FoldChar(s[i])
  {
    if |s| == 0 then "" else [FoldChar(s[0])] + Fold(s[1..])
  }

  /** `string.Compare(a, b, StringComparison.OrdinalIgnoreCase)`, reduced
      to its sign: the first differing folded character decides, and a
      proper prefix sorts first. */
  function CompareIgnoreCase(a: string, b: string): (r: int)
    ensures -1 <= r <= 1
  {
    if |a| == 0 && |b| == 0 then 0
    else if |a| == 0 then -1
    else if |b| == 0 then 1
    else if FoldChar(a[0]) < FoldChar(b[0]) then -1
    else if FoldChar(a[0]) > FoldChar(b[0]) then 1
    else CompareIgnoreCase(a[1..], b[1..])
  }

  /** Two strings compare equal exactly when they agree after folding. */
  lemma {:induction false} CompareZeroIffSameFold(a: string, b: string)
    ensures CompareIgnoreCase(a, b) == 0 <==> Fold(a) == Fold(b)
  {
    if |a| > 0 && |b| > 0 {
      CompareZeroIffSameFold(a[1..], b[1..]);
      assert Fold(a) == [FoldChar(a[0])] + Fold(a[1..]);
      assert Fold(b) == [FoldChar(b[0])] + Fold(b[1..]);
      if Fold(a) == Fold(b) {
        assert Fold(a)[0] == Fold(b)[0];
        assert Fold(a)[1..] == Fold(a[1..]);
        assert Fold(b)[1..] == Fold(b[1..]);
      }
    } else if |a| > 0 || |b| > 0 {
      assert |Fold(a)| != |Fold(b)|;
    }
  }

  /** Swapping the arguments flips the sign of the comparison. */
  lemma {:induction false} CompareAntisymmetric(a: string, b: string)
    ensures CompareIgnoreCase(b, a) == -CompareIgnoreCase(a, b)
  {
    if |a| > 0 && |b| > 0 && FoldChar(a[0]) == FoldChar(b[0]) {
      CompareAntisymmetric(a[1..], b[1..]);
    }
  }

  /** `StartsWith("http", StringComparison.OrdinalIgnoreCase)`. */
  predicate StartsWithHttp(s: string)
  {
    |s| >= 4 && Fold(s[..4]) == "HTTP"
  }

  lemma StartsWithHttpCases(s: string)
    ensures StartsWithHttp("http" + s) && StartsWithHttp("HTTPS" + s)
    ensures !StartsWithHttp("htt") && !StartsWithHttp("ftp://" + s)
  {
    assert ("http" + s)[..4] == "http";
    assert ("HTTPS" + s)[..4] == "HTTP";
    assert ("ftp://" + s)[..4] == "ftp:";
    assert Fold("ftp:")[0] == 'F';
  }

  /** The message shown for a setup file that is downloaded first. */
  function DownloadMessage(setupFile: string, currentVersion: string, updateVersion: string): string
  {
    "Update Available! Download Update (" + setupFile + "), Close Program and Update From "
    + currentVersion + " to " + updateVersion + " now? Make sure all work is saved first..."
  }

  /** The message shown for a setup file that is run in place. */
  function LocalMessage(currentVersion: string, updateVersion: string): string
  {
    "Update Available! Close Program and Update From " + currentVersion + " to " + updateVersion
    + " now? Make sure all work is saved first..."
  }

  /** The update message chosen by the setup file's "http" prefix. */
  function UpdateMessageFor(currentVersion: string, updateVersion: string, setupFile: string): (m: string)
    ensures StartsWithHttp(setupFile) ==> m == DownloadMessage(setupFile, currentVersion, updateVersion)
    ensures !StartsWithHttp(setupFile) ==> m == LocalMessage(currentVersion, updateVersion)
  {
    if StartsWithHttp(setupFile) then DownloadMessage(setupFile, currentVersion, updateVersion)
    else LocalMessage(currentVersion, updateVersion)
  }

  /** An update is offered only when all three fields have content and the
      current version sorts strictly before the update version. */
  predicate ShouldShow(currentVersion: string, updateVersion: string, setupFile: string)
  {
    !IsBlank(currentVersion) && !IsBlank(updateVersion) && !IsBlank(setupFile)
    && CompareIgnoreCase(currentVersion, updateVersion) < 0
  }

  /** The same version, in any letter case, is never offered as an update. */
  lemma SameVersionNotShown(currentVersion: string, updateVersion: string, setupFile: string)
    requires Fold(currentVersion) == Fold(updateVersion)
    ensures !ShouldShow(currentVersion, updateVersion, setupFile)
  {
    CompareZeroIffSameFold(currentVersion, updateVersion);
  }

  /** If an update from c to u is offered, one from u back to c is not. */
  lemma NoDowngradeOffered(currentVersion: string, updateVersion: string, setupFile: string)
    requires ShouldShow(currentVersion, updateVersion, setupFile)
    ensures !ShouldShow(updateVersion, currentVersion, setupFile)
  {
    CompareAntisymmetric(currentVersion, updateVersion);
  }
}

/** ProgramUpdateMessageContext of the WPF toolkit. */
module ProgramUpdateMessageWpf {
  import opened Wrappers
  import opened Text
  import opened ProgramUpdateRule

  class ProgramUpdateMessageContext {
    var currentVersion: string
    var setupFile: string
    var showMessage: bool
    var updateMessage: string
    var updateVersion: string

    /** Every field at its initial value. */
    constructor ()
      ensures currentVersion == "" && setupFile == "" && !showMessage && updateMessage == "" && updateVersion == ""
    {
      currentVersion := "";
      setupFile := "";
      showMessage := false;
      updateMessage := "";
      updateVersion := "";
    }

    /** Hides the message and touches nothing else. */
    method Dismiss()
      modifies this
      ensures !showMessage
      ensures currentVersion == old(currentVersion) && setupFile == old(setupFile)
      ensures updateMessage == old(updateMessage) && updateVersion == old(updateVersion)
    {
      showMessage := false;
    }

    /** Stores the three (null-coalesced) values and decides whether an
        update is offered; a declined update keeps the old message. */
    method LoadData(current: Option<string>, update: Option<string>, setup: Option<string>)
      modifies this
      ensures currentVersion == OrEmpty(current) && updateVersion == OrEmpty(update) && setupFile == OrEmpty(setup)
      ensures showMessage == ShouldShow(currentVersion, updateVersion, setupFile)
      ensures showMessage ==> updateMessage == UpdateMessageFor(currentVersion, updateVersion, setupFile)
      ensures !showMessage ==> updateMessage == old(updateMessage)
    {
      currentVersion := OrEmpty(current);
      updateVersion := OrEmpty(update);
      setupFile := OrEmpty(setup);
      if IsBlank(currentVersion) || IsBlank(updateVersion) || IsBlank(setupFile)
         || CompareIgnoreCase(currentVersion, updateVersion) >= 0 {
        showMessage := false;
        return;
      }
      updateMessage := if StartsWithHttp(setupFile) then DownloadMessage(setupFile, currentVersion, updateVersion)
                       else LocalMessage(currentVersion, updateVersion);
      showMessage := true;
    }
  }
}

/** ProgramUpdateMessageContext of the Avalonia toolkit. */
module ProgramUpdateMessageAvalonia {
  import opened Wrappers
  import opened Text
  import opened ProgramUpdateRule

  class ProgramUpdateMessageContext {
    var currentVersion: string
    var setupFile: string
    var showMessage: bool
    var updateMessage: string
    var updateVersion: string

    /** Every field at its initial value. */
    constructor ()
      ensures currentVersion == "" && setupFile == "" && !showMessage && updateMessage == "" && updateVersion == ""
    {
      currentVersion := "";
      setupFile := "";
      showMessage := false;
      updateMessage := "";
      updateVersion := "";
    }

    /** Hides the message and touches nothing else. */
    method Dismiss()
      modifies this
      ensures !showMessage
      ensures currentVersion == old(currentVersion) && setupFile == old(setupFile)
      ensures updateMessage == old(updateMessage) && updateVersion == old(updateVersion)
    {
      showMessage := false;
    }

    /** Stores the three (null-coalesced) values and decides whether an
        update is offered; a declined update keeps the old message. */
    method LoadData(current: Option<string>, update: Option<string>, setup: Option<string>)
      modifies this
      ensures currentVersion == OrEmpty(current) && updateVersion == OrEmpty(update) && setupFile == OrEmpty(setup)
      ensures showMessage == ShouldShow(currentVersion, updateVersion, setupFile)
      ensures showMessage ==> updateMessage == UpdateMessageFor(currentVersion, updateVersion, setupFile)
      ensures !showMessage ==> updateMessage == old(updateMessage)
    {
      currentVersion := OrEmpty(current);
      updateVersion := OrEmpty(update);
      setupFile := OrEmpty(setup);
      if IsBlank(currentVersion) || IsBlank(updateVersion) || IsBlank(setupFile)
         || CompareIgnoreCase(currentVersion, updateVersion) >= 0 {
        showMessage := false;
        return;
      }
      updateMessage := if StartsWithHttp(setupFile) then DownloadMessage(setupFile, currentVersion, updateVersion)
                       else LocalMessage(currentVersion, updateVersion);
      showMessage := true;
    }
  }
}
