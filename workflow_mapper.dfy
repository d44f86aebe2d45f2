/**
 * WorkflowMapper.emptyToNull: a blank string becomes null, anything else is kept.
 */
module WorkflowMapper {

  import opened Wrappers

  /** Character.isWhitespace: the Unicode space, line and paragraph separators other than the
      no-break spaces U+00A0, U+2007 and U+202F, plus the controls TAB, LF, VT, FF, CR and
      U+001C to U+001F. */
  predicate IsJavaWhitespace(c: char) {
    || '\t' <= c <= '\r'
    || '\U{1C}' <= c <= ' '
    || c == '\U{1680}'
    || ('\U{2000}' <= c <= '\U{200A}' && c != '\U{2007}')
    || c == '\U{2028}' || c == '\U{2029}' || c == '\U{205F}' || c == '\U{3000}'
  }

  /** String.isBlank: empty, or whitespace only. */
  predicate IsBlank(s: string) {
    forall i :: 0 <= i < |s| ==> IsJavaWhitespace(s[i])
  }

  /** emptyToNull: null for a blank string, the value itself otherwise (null stays null). */
  function EmptyToNull(value: Option<string>): (r: Option<string>)
    ensures r.Some? ==> r == value && !IsBlank(r.value)
    ensures r.None? <==> value.None? || IsBlank(value.value)
  {
    if value.Some? && IsBlank(value.value) then None else value
  }

  /** A string with one character that is not whitespace is returned as it is. */
  lemma KeepsNonBlank(s: string, i: nat)
    requires i < |s| && !IsJavaWhitespace(s[i])
    ensures EmptyToNull(Some(s)) == Some(s)
  {
  }

  /** The empty string, and the no-break space that isBlank does not count as whitespace. */
  lemma EmptyAndNoBreakSpace()
    ensures EmptyToNull(Some("")) == None
    ensures EmptyToNull(Some(" \t\n")) == None
    ensures EmptyToNull(Some("\U{A0}")) == Some("\U{A0}")
  {
    assert !IsJavaWhitespace("\U{A0}"[0]);
  }

  /** The result is never blank, so a second application changes nothing. */
  lemma EmptyToNullIdempotent(value: Option<string>)
    ensures EmptyToNull(EmptyToNull(value)) == EmptyToNull(value)
  {
  }
}
