/**
 * The comment box (src/components/shared/CommentForm.tsx): the typed text,
 * the submit guard on its trimmed form, and the submit button's state.
 */
module CommentForm {
  import opened Wrappers

  /**
   * The characters `String.prototype.trim` removes: the white space and line
   * terminator code points of section 12.2 and 12.3 of ECMA-262.
   */
  predicate IsWhitespace(c: char)
  {
    || c == '\t' || c == '\U{000B}' || c == '\U{000C}' || c == ' ' || c == '\U{00A0}'
    || c == '\U{FEFF}' || c == '\U{1680}' || ('\U{2000}' <= c <= '\U{200A}')
    || c == '\U{202F}' || c == '\U{205F}' || c == '\U{3000}'
    || c == '\n' || c == '\r' || c == '\U{2028}' || c == '\U{2029}'
  }

  predicate AllWhitespace(s: string)
  {
    forall i :: 0 <= i < |s| ==> IsWhitespace(s[i])
  }

  /** The number of white-space characters at the front of `s`. */
  function LeadingBlanks(s: string): (n: nat)
    ensures n <= |s|
    ensures AllWhitespace(s[..n])
    ensures n < |s| ==> !IsWhitespace(s[n])
    decreases |s|
  {
    if s != [] && IsWhitespace(s[0]) then
      var m := LeadingBlanks(s[1..]);
      assert s[..m + 1] == [s[0]] + s[1..][..m];
      m + 1
    else 0
  }

  /** Leading white space removed. */
  function TrimStart(s: string): (r: string)
    ensures |r| <= |s| && r == s[|s| - |r|..]
    ensures r == "" <==> AllWhitespace(s)
    ensures r != "" ==> !IsWhitespace(r[0])
    ensures AllWhitespace(s[..|s| - |r|])
  {
    var n := LeadingBlanks(s);
    assert n == |s| ==> s[..n] == s;
    s[n..]
  }

  /** Trailing white space removed. */
  function TrimEnd(s: string): (r: string)
    ensures |r| <= |s| && r == s[..|r|]
    ensures r == "" <==> AllWhitespace(s)
    ensures r != "" ==> !IsWhitespace(r[|r| - 1])
    ensures AllWhitespace(s[|r|..])
    decreases |s|
  {
    if s != [] && IsWhitespace(s[|s| - 1]) then
      var rest := TrimEnd(s[..|s| - 1]);
      assert s[|rest|..] == s[..|s| - 1][|rest|..] + [s[|s| - 1]];
      rest
    else s
  }

  /** `String.prototype.trim`. */
  function Trim(s: string): (r: string)
    ensures r == "" <==> AllWhitespace(s)
    ensures r != "" ==> !IsWhitespace(r[0]) && !IsWhitespace(r[|r| - 1])
  {
    var start := TrimStart(s);
    TrimEnd(start)
  }

  /** Text with a visible character survives trimming, however it is padded. */
  lemma PaddedTextSurvivesTrim(before: string, text: string, after: string)
    requires AllWhitespace(before) && AllWhitespace(after)
    requires exists i :: 0 <= i < |text| && !IsWhitespace(text[i])
    ensures Trim(before + text + after) != ""
  {
    var i :| 0 <= i < |text| && !IsWhitespace(text[i]);
    assert (before + text + after)[|before| + i] == text[i];
  }

  /** The form's state: the text typed so far (CommentForm.tsx:12). */
  class CommentBox {
    var commentText: string

    constructor()
      ensures commentText == ""
    {
      commentText := "";
    }

    /** The textarea's `onChange` (CommentForm.tsx:32). */
    method OnChange(value: string)
      modifies this
      ensures commentText == value
    {
      commentText := value;
    }

    /**
     * `handleSubmit` (CommentForm.tsx:14-20): text that is blank once trimmed
     * is not submitted and stays; otherwise the callback receives the text
     * as typed and the box is cleared.
     */
    method HandleSubmit() returns (submitted: Option<string>)
      modifies this
      ensures AllWhitespace(old(commentText)) ==> submitted.None? && commentText == old(commentText)
      ensures !AllWhitespace(old(commentText)) ==> submitted == Some(old(commentText)) && commentText == ""
    {
      if Trim(commentText) != "" {
        submitted := Some(commentText);
        commentText := "";
      } else {
        submitted := None;
      }
    }

    /** `disabled={!commentText.trim() || isLoading}` (CommentForm.tsx:41). */
    function SubmitDisabled(isLoading: bool): (r: bool)
      reads this
      ensures r <==> AllWhitespace(commentText) || isLoading
    {
      Trim(commentText) == "" || isLoading
    }
  }
}
