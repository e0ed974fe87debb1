/**
 * `trimmingCharacters(in: .whitespaces)` on the name fields of the add and edit
 * forms. The `.whitespaces` set is the Unicode space separators (general
 * category Zs) plus the horizontal tab; line breaks are NOT in it, so they are
 * never trimmed.
 */
module Trimming {

  predicate IsWhitespace(c: char) {
    || c == '\U{9}'                       // CHARACTER TABULATION
    || c == '\U{20}' || c == '\U{A0}'     // SPACE, NO-BREAK SPACE
    || c == '\U{1680}'                    // OGHAM SPACE MARK
    || '\U{2000}' <= c <= '\U{200A}'      // EN QUAD … HAIR SPACE
    || c == '\U{202F}' || c == '\U{205F}' // NARROW NO-BREAK SPACE, MEDIUM MATHEMATICAL SPACE
    || c == '\U{3000}'                    // IDEOGRAPHIC SPACE
  }

  predicate AllWhitespace(s: string) {
    forall k :: 0 <= k < |s| ==> IsWhitespace(s[k])
  }

  /** Drops the leading whitespace characters. */
  function TrimStart(s: string): (r: string)
    ensures |r| <= |s| && r == s[|s| - |r|..]
    ensures AllWhitespace(s[..|s| - |r|])
    ensures r == [] || !IsWhitespace(r[0])
  {
    if s != [] && IsWhitespace(s[0]) then TrimStart(s[1..]) else s
  }

  /** Drops the trailing whitespace characters. */
  function TrimEnd(s: string): (r: string)
    ensures |r| <= |s| && r == s[..|r|]
    ensures AllWhitespace(s[|r|..])
    ensures r == [] || !IsWhitespace(r[|r| - 1])
  {
    if s != [] && IsWhitespace(s[|s| - 1]) then TrimEnd(s[..|s| - 1]) else s
  }

  /**
   * The trimmed string is a slice `s[a..b]` of `s`: everything cut off is
   * whitespace, and the slice neither starts nor ends with whitespace.
   */
  function Trim(s: string): (r: string)
    ensures exists a, b :: 0 <= a <= b <= |s| && r == s[a..b]
                          && AllWhitespace(s[..a]) && AllWhitespace(s[b..])
    ensures r == [] || (!IsWhitespace(r[0]) && !IsWhitespace(r[|r| - 1]))
  {
    var t := TrimStart(s);
    var r := TrimEnd(t);
    var a := |s| - |t|;
    var b := a + |r|;
    assert r == s[a..b];
    assert s[b..] == t[|r|..];
    r
  }

  /** The trimmed name is empty exactly when the name is whitespace only (or empty). */
  lemma TrimEmptyIffBlank(s: string)
    ensures Trim(s) == [] <==> AllWhitespace(s)
  {
    var a, b :| 0 <= a <= b <= |s| && Trim(s) == s[a..b]
                && AllWhitespace(s[..a]) && AllWhitespace(s[b..]);
    if Trim(s) == [] {
      forall k | 0 <= k < |s| ensures IsWhitespace(s[k]) {
        if k < a { assert s[..a][k] == s[k]; } else { assert s[b..][k - b] == s[k]; }
      }
    } else {
      assert s[a] == Trim(s)[0];
    }
  }

  /** Trimming twice is the same as trimming once. */
  lemma TrimIdempotent(s: string)
    ensures Trim(Trim(s)) == Trim(s)
  {
    var t := Trim(s);
    if t != [] {
      assert TrimStart(t) == t;
      assert TrimEnd(t) == t;
    }
  }

  /** A line break is kept: only `.whitespaces` characters are trimmed. */
  lemma NewlinesAreKept()
    ensures Trim(" \n ") == "\n"
  {
    var s := " \n ";
    assert IsWhitespace(s[0]) && s[1..] == "\n ";
    assert !IsWhitespace('\n');
    assert TrimStart("\n ") == "\n ";
    assert TrimStart(s) == "\n ";
    assert "\n "[..1] == "\n";
    assert TrimEnd("\n") == "\n";
    assert TrimEnd("\n ") == "\n";
  }
}
