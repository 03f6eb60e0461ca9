/** `String.prototype.trim` of ECMAScript: removal of leading and trailing
    white space and line terminators. */
module JsString {

  /** ECMAScript `WhiteSpace` (TAB, VT, FF, ZWNBSP and every space separator)
      and `LineTerminator` (LF, CR, LS, PS) code points. */
  predicate IsWhitespace(c: char) {
    var n := c as int;
    || n == 0x09 || n == 0x0A || n == 0x0B || n == 0x0C || n == 0x0D
    || n == 0x20 || n == 0xA0 || n == 0x1680 || 0x2000 <= n <= 0x200A
    || n == 0x2028 || n == 0x2029 || n == 0x202F || n == 0x205F
    || n == 0x3000 || n == 0xFEFF
  }

  predicate AllWhitespace(s: string) {
    forall i :: 0 <= i < |s| ==> IsWhitespace(s[i])
  }

  /** Neither end of `s` is white space. */
  predicate Unpadded(s: string) {
    s == [] || (!IsWhitespace(s[0]) && !IsWhitespace(s[|s| - 1]))
  }

  /** The length of the white-space run at the start of `s`: everything
      before it is white space and the character at it, if any, is not. */
  function LeadingWhitespace(s: string): (n: nat)
    ensures n <= |s|
    ensures forall i :: 0 <= i < n ==> IsWhitespace(s[i])
    ensures n < |s| ==> !IsWhitespace(s[n])
    decreases |s|
  {
    if |s| > 0 && IsWhitespace(s[0]) then 1 + LeadingWhitespace(s[1..]) else 0
  }

  /** Where the white-space run at the end of `s` begins: everything from it
      on is white space and the character before it, if any, is not. */
  function TrailingWhitespaceStart(s: string): (n: nat)
    ensures n <= |s|
    ensures forall i :: n <= i < |s| ==> IsWhitespace(s[i])
    ensures n > 0 ==> !IsWhitespace(s[n - 1])
    decreases |s|
  {
    if |s| > 0 && IsWhitespace(s[|s| - 1]) then TrailingWhitespaceStart(s[..|s| - 1]) else |s|
  }

  /** The first half of `Trim`: `s` without its leading white space. */
  function TrimStart(s: string): string {
    s[LeadingWhitespace(s)..]
  }

  /** The second half of `Trim`: `s` without its trailing white space. */
  function TrimEnd(s: string): string {
    s[..TrailingWhitespaceStart(s)]
  }

  /** `trim`: no white space is left at either end, and the result is empty
      exactly when `s` is all white space (`TrimIsSlice` says what is kept). */
  function Trim(s: string): (r: string)
    ensures Unpadded(r)
    ensures r == [] <==> AllWhitespace(s)
  {
    var t := TrimStart(s);
    assert LeadingWhitespace(s) == |s| ==> AllWhitespace(s);
    assert t != [] ==> !IsWhitespace(t[0]);
    TrimEnd(t)
  }

  /** `r` is `s[lo..lo + |r|]` and everything of `s` outside that slice is
      white space. */
  predicate IsTrimSlice(s: string, r: string, lo: int) {
    && 0 <= lo <= |s| - |r|
    && r == s[lo..lo + |r|]
    && AllWhitespace(s[..lo])
    && AllWhitespace(s[lo + |r|..])
  }

  /** What `trim` keeps: a slice of `s` with only white space cut from
      before and after it. */
  lemma TrimIsSlice(s: string)
    ensures exists lo :: IsTrimSlice(s, Trim(s), lo)
  {
    var lo := LeadingWhitespace(s);
    var t := s[lo..];
    var hi := TrailingWhitespaceStart(t);
    assert Trim(s) == s[lo..lo + hi];
    assert AllWhitespace(s[..lo]);
    var rest := s[lo + hi..];
    forall i | 0 <= i < |rest|
      ensures IsWhitespace(rest[i])
    {
      assert rest[i] == t[hi + i];
    }
    assert IsTrimSlice(s, Trim(s), lo);
  }

  /** Trimming a string with no white space at either end leaves it alone. */
  lemma TrimUnpadded(s: string)
    requires Unpadded(s)
    ensures Trim(s) == s
  {
    assert LeadingWhitespace(s) == 0;
    if s != [] {
      assert TrailingWhitespaceStart(s) == |s|;
    }
  }

  /** `trim` is idempotent. */
  lemma {:induction false} TrimIdempotent(s: string)
    ensures Trim(Trim(s)) == Trim(s)
  {
    TrimUnpadded(Trim(s));
  }

  /** A leading and a trailing space are removed. */
  lemma TrimPaddedSample()
    ensures Trim(" Paris ") == "Paris"
  {
    assert LeadingWhitespace("Paris ") == 0;
    assert LeadingWhitespace(" Paris ") == 1;
    assert TrailingWhitespaceStart("Paris") == 5;
    assert TrailingWhitespaceStart("Paris ") == 5;
  }

  /** Inner white space is kept. */
  lemma TrimInnerSample()
    ensures Trim("New York") == "New York"
  {
    TrimUnpadded("New York");
  }

  /** A string of a space and a tab trims to the empty string. */
  lemma TrimBlankSample()
    ensures Trim(" \t") == ""
  {
    assert AllWhitespace(" \t");
  }
}
