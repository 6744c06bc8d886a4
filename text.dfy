/** Whitespace and trimming as the ECMAScript runtime performs them for
    `String.prototype.trim` and for the regular-expression class `\s`.
    A string's characters stand for its UTF-16 code units, which is exact
    for strings without characters outside the Basic Multilingual Plane. */
module Text {

  /** ECMAScript WhiteSpace (TAB, VT, FF, ZWNBSP and every Zs space separator)
      together with LineTerminator (LF, CR, LS, PS). Both `trim` and `\s`
      use exactly this set. */
  predicate IsSpace(c: char) {
    c == '\t' || c == '\n' || c == '\U{B}' || c == '\U{C}' || c == '\r'
    || c == ' ' || c == '\U{A0}' || c == '\U{1680}'
    || ('\U{2000}' <= c <= '\U{200A}')
    || c == '\U{2028}' || c == '\U{2029}' || c == '\U{202F}'
    || c == '\U{205F}' || c == '\U{3000}' || c == '\U{FEFF}'
  }

  /** Every code unit of `s[lo..hi]` is a space. */
  predicate SpacesIn(s: string, lo: nat, hi: nat)
    requires lo <= hi <= |s|
  {
    forall k :: lo <= k < hi ==> IsSpace(s[k])
  }

  predicate AllSpace(s: string) {
    SpacesIn(s, 0, |s|)
  }

  /** A string that a trim leaves alone: empty, or starting and ending in a non-space. */
  predicate Trimmed(s: string) {
    s == [] || (!IsSpace(s[0]) && !IsSpace(s[|s| - 1]))
  }

  /** Scanning forward from `i`, the index of the first non-space (or `|s|`). */
  function SkipForward(s: string, i: nat): (j: nat)
    requires i <= |s|
    ensures i <= j <= |s| && SpacesIn(s, i, j)
    ensures j == |s| || !IsSpace(s[j])
    decreases |s| - i
  {
    if i < |s| && IsSpace(s[i]) then SkipForward(s, i + 1) else i
  }

  /** Scanning backward from `j` but not below `lo`, the end of the last
      non-space (or `lo`). */
  function SkipBackward(s: string, lo: nat, j: nat): (e: nat)
    requires lo <= j <= |s|
    ensures lo <= e <= j && SpacesIn(s, e, j)
    ensures e == lo || !IsSpace(s[e - 1])
  {
    if lo < j && IsSpace(s[j - 1]) then SkipBackward(s, lo, j - 1) else j
  }

  /** `s.trim()`: drops the leading and the trailing run of spaces. The
      result is trimmed, and it is empty exactly when `s` is all spaces. */
  function Trim(s: string): (r: string)
    ensures |r| <= |s| && Trimmed(r)
    ensures r == [] <==> AllSpace(s)
  {
    var i := SkipForward(s, 0);
    var e := SkipBackward(s, i, |s|);
    assert i == e ==> AllSpace(s);
    s[i..e]
  }

  /** Whatever way `s` is split into leading spaces, a trimmed middle and
      trailing spaces, the middle is `Trim(s)`: this characterises `Trim`
      without reference to how it scans. */
  lemma TrimUnique(a: string, m: string, b: string)
    requires AllSpace(a) && AllSpace(b) && Trimmed(m)
    ensures Trim(a + m + b) == m
  {
    var s := a + m + b;
    var i := SkipForward(s, 0);
    var e := SkipBackward(s, i, |s|);
    if m == [] {
      assert AllSpace(s) by {
        forall k | 0 <= k < |s| ensures IsSpace(s[k]) {
          if k < |a| { assert s[k] == a[k]; } else { assert s[k] == b[k - |a|]; }
        }
      }
    } else {
      assert forall k :: 0 <= k < |a| ==> s[k] == a[k];
      assert s[|a|] == m[0];
      assert s[|a| + |m| - 1] == m[|m| - 1];
      assert forall k :: |a| + |m| <= k < |s| ==> s[k] == b[k - |a| - |m|];
      assert i == |a|;
      assert e == |a| + |m|;
      assert s[i..e] == m;
    }
  }

  /** A string without leading or trailing spaces is its own trim. */
  lemma TrimKeepsTrimmed(s: string)
    requires Trimmed(s)
    ensures Trim(s) == s
  {
    TrimUnique([], s, []);
    assert [] + s + [] == s;
  }

  /** Trimming twice is trimming once. */
  lemma TrimIdempotent(s: string)
    ensures Trim(Trim(s)) == Trim(s)
  {
    TrimKeepsTrimmed(Trim(s));
  }

  /** `s` is leading spaces, then `Trim(s)`, then trailing spaces. */
  lemma TrimSplits(s: string)
    ensures exists i :: 0 <= i <= |s| - |Trim(s)| && s[i..i + |Trim(s)|] == Trim(s)
                        && SpacesIn(s, 0, i) && SpacesIn(s, i + |Trim(s)|, |s|)
  {
    var i := SkipForward(s, 0);
    var e := SkipBackward(s, i, |s|);
    assert Trim(s) == s[i..e];
  }
}
