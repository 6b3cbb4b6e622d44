/**
 * The two pieces of JavaScript string semantics the controller relies on:
 * truthiness of a string-or-null value and `String.prototype.trim`.
 */
module JsText {
  import opened Wrappers

  /**
   * The characters `trim` removes: the WhiteSpace and LineTerminator
   * productions of ECMA-262 (tab, vertical tab, form feed, space, no-break
   * space, byte order mark, every space separator, LF, CR, LS and PS).
   */
  const Whitespace: set<char> := {
    '\t', '\n', '\U{000B}', '\U{000C}', '\r', ' ', '\U{00A0}', '\U{1680}',
    '\U{2000}', '\U{2001}', '\U{2002}', '\U{2003}', '\U{2004}', '\U{2005}',
    '\U{2006}', '\U{2007}', '\U{2008}', '\U{2009}', '\U{200A}',
    '\U{2028}', '\U{2029}', '\U{202F}', '\U{205F}', '\U{3000}', '\U{FEFF}'
  }

  predicate IsWhitespace(c: char)
  {
    c in Whitespace
  }

  /** JavaScript truthiness of a value that is a string, `null` or `undefined`. */
  predicate Truthy(v: Option<string>)
  {
    v.Some? && v.value != ""
  }

  /** The number of whitespace characters at the start of `s`. */
  function LeadingSpace(s: string): (n: nat)
    ensures n <= |s|
    ensures forall k :: 0 <= k < n ==> IsWhitespace(s[k])
    ensures n < |s| ==> !IsWhitespace(s[n])
  {
    if |s| > 0 && IsWhitespace(s[0]) then 1 + LeadingSpace(s[1..]) else 0
  }

  /** `s` neither starts nor ends with whitespace. */
  predicate IsTrimmed(s: string)
  {
    s != [] ==> !IsWhitespace(s[0]) && !IsWhitespace(s[|s| - 1])
  }

  /**
   * `String.prototype.trim`: drop whitespace from the front and from the
   * back until neither end is whitespace.
   */
  function Trim(s: string): (r: string)
    ensures |r| <= |s|
    ensures IsTrimmed(r)
  {
    if |s| > 0 && IsWhitespace(s[0]) then Trim(s[1..])
    else if |s| > 0 && IsWhitespace(s[|s| - 1]) then Trim(s[..|s| - 1])
    else s
  }

  /**
   * Trim removes whitespace only, and only at the two ends of `s`: the
   * result is the slice that starts after the leading whitespace.
   */
  lemma {:induction false} TrimRemovesOnlyEdgeWhitespace(s: string)
    ensures LeadingSpace(s) + |Trim(s)| <= |s|
    ensures Trim(s) == s[LeadingSpace(s)..LeadingSpace(s) + |Trim(s)|]
    ensures forall k :: 0 <= k < LeadingSpace(s) || LeadingSpace(s) + |Trim(s)| <= k < |s| ==> IsWhitespace(s[k])
  {
    if |s| > 0 && IsWhitespace(s[0]) {
      TrimRemovesOnlyEdgeWhitespace(s[1..]);
      assert LeadingSpace(s) == 1 + LeadingSpace(s[1..]);
    } else if |s| > 0 && IsWhitespace(s[|s| - 1]) {
      var init := s[..|s| - 1];
      TrimRemovesOnlyEdgeWhitespace(init);
      assert LeadingSpace(s) == 0;
      assert LeadingSpace(init) == 0;
    } else {
      assert LeadingSpace(s) == 0;
    }
  }

  /** A string trims to "" exactly when it is all whitespace. */
  lemma {:induction false} TrimEmptyIffBlank(s: string)
    ensures Trim(s) == "" <==> forall k :: 0 <= k < |s| ==> IsWhitespace(s[k])
  {
    TrimRemovesOnlyEdgeWhitespace(s);
  }
}
