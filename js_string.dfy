/** The two JavaScript string operations the page applies to what the user typed:
    `String.prototype.trim` and `String.prototype.toUpperCase`. */
module JsString {

  /** WhiteSpace and LineTerminator code points of ECMA-262, the set `trim` strips:
      TAB, LF, VT, FF, CR, SPACE, NBSP, ZWNBSP (BOM), LS, PS and the other
      Unicode "Space_Separator" characters. */
  predicate IsWhiteSpace(c: char) {
    var n := c as int;
    (0x09 <= n <= 0x0D) || n == 0x20 || n == 0xA0 || n == 0x1680 ||
    (0x2000 <= n <= 0x200A) || n == 0x2028 || n == 0x2029 || n == 0x202F ||
    n == 0x205F || n == 0x3000 || n == 0xFEFF
  }

  /** Every character of `s[lo..hi]` is white space. */
  predicate WhiteSpaceIn(s: string, lo: int, hi: int)
    requires 0 <= lo <= hi <= |s|
  {
    forall k :: lo <= k < hi ==> IsWhiteSpace(s[k])
  }

  predicate AllWhiteSpace(s: string) {
    WhiteSpaceIn(s, 0, |s|)
  }

  /** The length of the white space `s` starts with. */
  function LeadingWhiteSpace(s: string): (n: nat)
    ensures n <= |s| && WhiteSpaceIn(s, 0, n)
    ensures n < |s| ==> !IsWhiteSpace(s[n])
    decreases |s|
  {
    if s != [] && IsWhiteSpace(s[0]) then 1 + LeadingWhiteSpace(s[1..]) else 0
  }

  /** Where the white space `s` ends with begins. */
  function TrailingStart(s: string): (n: nat)
    ensures n <= |s| && WhiteSpaceIn(s, n, |s|)
    ensures n > 0 ==> !IsWhiteSpace(s[n - 1])
    decreases |s|
  {
    if s != [] && IsWhiteSpace(s[|s| - 1]) then TrailingStart(s[..|s| - 1]) else |s|
  }

  /** `s.trim()`: the slice `s[i..i + |r|]` where `i` is the length of the leading white space;
      only white space lies outside it, and it neither starts nor ends with white space. */
  function Trim(s: string): (r: string)
    ensures var i := LeadingWhiteSpace(s);
      && i + |r| <= |s| && r == s[i..i + |r|]
      && WhiteSpaceIn(s, 0, i) && WhiteSpaceIn(s, i + |r|, |s|)
      && (r != [] ==> !IsWhiteSpace(s[i]) && !IsWhiteSpace(s[i + |r| - 1]))
  {
    var i := LeadingWhiteSpace(s);
    var j := TrailingStart(s);
    if i == |s| then []
    else
      assert i < j by { assert !IsWhiteSpace(s[i]); }
      s[i..j]
  }

  /** The page's empty checks (`if (!n)`) see an empty trimmed string exactly when
      the input was nothing but white space. */
  lemma TrimEmptyIff(s: string)
    ensures Trim(s) == [] <==> AllWhiteSpace(s)
  {
    var i := LeadingWhiteSpace(s);
    if Trim(s) == [] {
      assert forall k :: 0 <= k < |s| ==> (k < i || i <= k) && IsWhiteSpace(s[k]);
    }
  }

  /** A string that neither starts nor ends with white space is its own trim. */
  lemma TrimOfTrimmed(s: string)
    requires s != [] ==> !IsWhiteSpace(s[0]) && !IsWhiteSpace(s[|s| - 1])
    ensures Trim(s) == s
  {
    if s != [] {
      assert LeadingWhiteSpace(s) == 0;
      assert TrailingStart(s) == |s|;
      assert s[0..|s|] == s;
    }
  }

  /** Trimming twice is trimming once. */
  lemma TrimIdempotent(s: string)
    ensures Trim(Trim(s)) == Trim(s)
  {
    var r := Trim(s);
    var i := LeadingWhiteSpace(s);
    if r != [] {
      assert r[0] == s[i] && r[|r| - 1] == s[i + |r| - 1];
    }
    TrimOfTrimmed(r);
  }

  /** The upper-case of one character; only ASCII `a`-`z` change. */
  function UpperChar(c: char): (u: char)
    ensures 'a' <= c <= 'z' ==> u as int == c as int - 32
    ensures !('a' <= c <= 'z') ==> u == c
  {
    if 'a' <= c <= 'z' then (c as int - 32) as char else c
  }

  /** `s.toUpperCase()`, character by character. */
  function ToUpper(s: string): (r: string)
    ensures |r| == |s|
    ensures forall k :: 0 <= k < |s| ==> r[k] == UpperChar(s[k])
  {
    seq(|s|, k requires 0 <= k < |s| => UpperChar(s[k]))
  }

  /** Upper-casing leaves no lower-case ASCII letter behind. */
  lemma NoLowerAfterUpper(s: string, k: int)
    requires 0 <= k < |s|
    ensures !('a' <= ToUpper(s)[k] <= 'z')
  {
  }

  /** Upper-casing does not create or remove white space, so it commutes with `trim`. */
  lemma TrimUpperCommute(s: string)
    ensures Trim(ToUpper(s)) == ToUpper(Trim(s))
  {
    LeadingUpper(s);
    TrailingUpper(s);
    if LeadingWhiteSpace(s) < |s| {
      SliceUpper(s, LeadingWhiteSpace(s), TrailingStart(s));
    }
  }

  lemma SliceUpper(s: string, i: int, j: int)
    requires 0 <= i <= j <= |s|
    ensures ToUpper(s)[i..j] == ToUpper(s[i..j])
  {
  }

  lemma {:induction false} LeadingUpper(s: string)
    ensures LeadingWhiteSpace(ToUpper(s)) == LeadingWhiteSpace(s)
    decreases |s|
  {
    if s != [] {
      assert ToUpper(s)[1..] == ToUpper(s[1..]);
      LeadingUpper(s[1..]);
    }
  }

  lemma {:induction false} TrailingUpper(s: string)
    ensures TrailingStart(ToUpper(s)) == TrailingStart(s)
    decreases |s|
  {
    if s != [] {
      assert ToUpper(s)[..|s| - 1] == ToUpper(s[..|s| - 1]);
      TrailingUpper(s[..|s| - 1]);
    }
  }

  /** The room-code normalisation of the join handler: trim, then upper-case. */
  function NormalizeCode(s: string): (r: string)
    ensures |r| <= |s|
    ensures r == [] <==> AllWhiteSpace(s)
    ensures forall k :: 0 <= k < |r| ==> !('a' <= r[k] <= 'z')
  {
    TrimEmptyIff(s);
    ToUpper(Trim(s))
  }

  /** Upper-casing twice is upper-casing once. */
  lemma ToUpperIdempotent(s: string)
    ensures ToUpper(ToUpper(s)) == ToUpper(s)
  {
    var u := ToUpper(s);
    assert forall k :: 0 <= k < |u| ==> ToUpper(u)[k] == u[k];
  }

  /** A normalised code is left as it is by a second normalisation. */
  lemma {:induction false} NormalizeCodeIdempotent(s: string)
    ensures NormalizeCode(NormalizeCode(s)) == NormalizeCode(s)
  {
    var t := Trim(s);
    var u := ToUpper(t);
    assert NormalizeCode(s) == u;
    TrimIdempotent(s);
    TrimUpperCommute(t);
    assert Trim(u) == u;
    ToUpperIdempotent(t);
    assert NormalizeCode(u) == ToUpper(Trim(u)) == u;
  }
}
