/** The help pane's content: the non-blank Markdown help entries joined by
    a blank line (two Windows line breaks). */
module HelpDisplayContext {
  import opened Text

  /** Environment.NewLine on Windows, where the WPF help window runs. */
  const NewLine := "\r\n"
  const Separator := NewLine + NewLine

  /** string.Join(separator, parts). */
  function Join(separator: string, parts: seq<string>): string
  {
    if parts == [] then ""
    else if |parts| == 1 then parts[0]
    else parts[0] + separator + Join(separator, parts[1..])
  }

  /** Enumerable.Where(x => !string.IsNullOrWhiteSpace(x)). */
  function NonBlank(entries: seq<string>): (kept: seq<string>)
    ensures |kept| <= |entries|
  {
    if entries == [] then []
    else if IsBlank(entries[0]) then NonBlank(entries[1..])
    else [entries[0]] + NonBlank(entries[1..])
  }

  function HelpMarkdownContent(markdownHelp: seq<string>): (content: string)
    ensures markdownHelp == [] ==> content == ""
  {
    if markdownHelp == [] then "" else Join(Separator, NonBlank(markdownHelp))
  }

  /** The filter keeps exactly the non-blank entries, unaltered. */
  lemma {:induction false} NonBlankMembers(entries: seq<string>, x: string)
    ensures x in NonBlank(entries) <==> x in entries && !IsBlank(x)
  {
    if entries != [] {
      NonBlankMembers(entries[1..], x);
      assert entries == [entries[0]] + entries[1..];
    }
  }

  /** The filter keeps the entries in their original order: filtering a
      concatenation concatenates the filtered parts. */
  lemma {:induction false} NonBlankAppend(a: seq<string>, b: seq<string>)
    ensures NonBlank(a + b) == NonBlank(a) + NonBlank(b)
  {
    if a == [] {
      assert a + b == b;
    } else {
      assert (a + b)[1..] == a[1..] + b;
      NonBlankAppend(a[1..], b);
    }
  }

  /** Where each part starts in the joined string. */
  function Offset(separator: string, parts: seq<string>, i: nat): nat
    requires i <= |parts|
  {
    if i == 0 then 0 else Offset(separator, parts, i - 1) + |parts[i - 1]| + |separator|
  }

  /** Part i of the joined string sits at its offset, unaltered. */
  lemma {:induction false} JoinAt(separator: string, parts: seq<string>, i: nat)
    requires i < |parts|
    ensures Offset(separator, parts, i) + |parts[i]| <= |Join(separator, parts)|
      && Join(separator, parts)[Offset(separator, parts, i)..Offset(separator, parts, i) + |parts[i]|] == parts[i]
  {
    if |parts| > 1 {
      var rest := parts[1..];
      var head := parts[0] + separator;
      var tail := Join(separator, rest);
      assert Join(separator, parts) == head + tail;
      if i > 0 {
        JoinAt(separator, rest, i - 1);
        OffsetShift(separator, parts, i);
        var o := Offset(separator, rest, i - 1);
        assert rest[i - 1] == parts[i];
        SliceOfAppend(head, tail, o, o + |parts[i]|);
      } else {
        assert Join(separator, parts) == parts[0] + (separator + tail);
      }
    }
  }

  /** Every part but the last is followed by exactly one separator, which
      ends where the next part starts. */
  lemma {:induction false} SeparatorAt(separator: string, parts: seq<string>, i: nat)
    requires i + 1 < |parts|
    ensures Offset(separator, parts, i + 1) == Offset(separator, parts, i) + |parts[i]| + |separator|
    ensures Offset(separator, parts, i + 1) <= |Join(separator, parts)|
      && Join(separator, parts)[Offset(separator, parts, i) + |parts[i]|..Offset(separator, parts, i + 1)] == separator
  {
    var rest := parts[1..];
    var head := parts[0] + separator;
    var tail := Join(separator, rest);
    assert Join(separator, parts) == head + tail;
    if i > 0 {
      SeparatorAt(separator, rest, i - 1);
      OffsetShift(separator, parts, i);
      OffsetShift(separator, parts, i + 1);
      var o := Offset(separator, rest, i - 1);
      assert rest[i - 1] == parts[i];
      SliceOfAppend(head, tail, o + |parts[i]|, Offset(separator, rest, i));
    } else {
      assert Join(separator, parts) == parts[0] + separator + tail;
    }
  }

  /** A slice of the second half of a concatenation. */
  lemma SliceOfAppend(head: string, tail: string, lo: nat, hi: nat)
    requires lo <= hi <= |tail|
    ensures (head + tail)[|head| + lo..|head| + hi] == tail[lo..hi]
  {
    assert (head + tail)[|head|..] == tail;
    assert (head + tail)[|head| + lo..|head| + hi] == (head + tail)[|head|..][lo..hi];
  }

  /** Offsets in the tail are the offsets in the whole list less the first
      part and its separator. */
  lemma {:induction false} OffsetShift(separator: string, parts: seq<string>, i: nat)
    requires 1 <= i <= |parts|
    ensures Offset(separator, parts, i) == |parts[0]| + |separator| + Offset(separator, parts[1..], i - 1)
  {
    if i > 1 {
      OffsetShift(separator, parts, i - 1);
    }
  }

  /** The content is blank exactly when every help entry is blank (an empty
      list included); otherwise it contains every non-blank entry. */
  lemma ContentBlankIffEntriesBlank(markdownHelp: seq<string>)
    ensures IsBlank(HelpMarkdownContent(markdownHelp)) <==> forall i :: 0 <= i < |markdownHelp| ==> IsBlank(markdownHelp[i])
    ensures (forall i :: 0 <= i < |markdownHelp| ==> IsBlank(markdownHelp[i])) ==> HelpMarkdownContent(markdownHelp) == ""
  {
    var kept := NonBlank(markdownHelp);
    if forall i :: 0 <= i < |markdownHelp| ==> IsBlank(markdownHelp[i]) {
      if kept != [] {
        NonBlankMembers(markdownHelp, kept[0]);
        assert false;
      }
    } else {
      var i :| 0 <= i < |markdownHelp| && !IsBlank(markdownHelp[i]);
      NonBlankMembers(markdownHelp, markdownHelp[i]);
      var k :| 0 <= k < |kept| && kept[k] == markdownHelp[i];
      JoinAt(Separator, kept, k);
      var content := HelpMarkdownContent(markdownHelp);
      var o := Offset(Separator, kept, k);
      var c :| 0 <= c < |kept[k]| && !IsWhiteSpace(kept[k][c]);
      assert content[o + c] == kept[k][c];
    }
  }
}
