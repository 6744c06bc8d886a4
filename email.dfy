/** The e-mail pattern `^[^\s@]+@[^\s@]+\.[^\s@]+$` of script.js, first read
    literally as a regular expression, then as a split at the `@` and at a
    dot, and the two readings proved the same. */
module Email {
  import opened Text

  /** One code unit of the class `[^\s@]`. */
  predicate Plain(c: char) {
    !IsSpace(c) && c != '@'
  }

  /** `s[lo..hi]` consists of `[^\s@]` code units only. */
  predicate PlainIn(s: string, lo: nat, hi: nat)
    requires lo <= hi <= |s|
  {
    forall k :: lo <= k < hi ==> Plain(s[k])
  }

  /** `s` splits as the pattern demands with its `@` at `i` and its `.` at
      `j`: a non-empty run of `[^\s@]`, `@`, a non-empty run, `.`, a non-empty
      run, and nothing else. */
  predicate SplitsAt(s: string, i: nat, j: nat) {
    0 < i && i + 1 < j && j + 1 < |s| && s[i] == '@' && s[j] == '.'
    && PlainIn(s, 0, i) && PlainIn(s, i + 1, j) && PlainIn(s, j + 1, |s|)
  }

  /** The regular expression read literally: it matches when some choice of
      the `@` and the `.` positions splits `s` (the regex backtracks over
      every choice). */
  ghost predicate PatternMatches(s: string) {
    exists i: nat, j: nat :: SplitsAt(s, i, j)
  }

  /** The position of the first `c` in `s`, or `|s|` when there is none. */
  function IndexOf(s: string, c: char, from: nat): (r: nat)
    requires from <= |s|
    ensures from <= r <= |s|
    ensures r < |s| ==> s[r] == c
    ensures forall k :: from <= k < r ==> s[k] != c
    decreases |s| - from
  {
    if from == |s| || s[from] == c then from else IndexOf(s, c, from + 1)
  }

  /** `d` has a `.` with at least one code unit before and after it. */
  predicate HasInnerDot(d: string) {
    exists k :: 0 < k < |d| - 1 && InnerDotAt(d, k)
  }

  predicate InnerDotAt(d: string, k: int) {
    0 < k < |d| - 1 && d[k] == '.'
  }

  /** The address split at its first `@` into a local part `L` and a domain
      `D`: `L` is non-empty, neither holds a space or an `@`, and `D` has an
      inner dot. */
  predicate EmailShape(s: string) {
    var at := IndexOf(s, '@', 0);
    0 < at < |s| && PlainIn(s, 0, at) && PlainIn(s, at + 1, |s|)
    && HasInnerDot(s[at + 1..])
  }

  /** The split reading and the regular expression accept the same strings. */
  lemma ShapeIffPattern(s: string)
    ensures EmailShape(s) <==> PatternMatches(s)
  {
    var at := IndexOf(s, '@', 0);
    if EmailShape(s) {
      var d := s[at + 1..];
      var k :| 0 < k < |d| - 1 && InnerDotAt(d, k);
      var j := at + 1 + k;
      assert s[j] == d[k];
      assert SplitsAt(s, at, j);
    }
    if PatternMatches(s) {
      var i: nat, j: nat :| SplitsAt(s, i, j);
      // No `@` precedes `i`, so the split happens at `i`.
      assert at == i;
      assert Plain(s[j]);
      assert PlainIn(s, at + 1, |s|);
      var d := s[at + 1..];
      assert InnerDotAt(d, j - at - 1);
    }
  }

  /** A domain without any dot never passes: `al@example` is rejected. */
  lemma NoDotNoMatch(s: string)
    requires forall k :: 0 <= k < |s| ==> s[k] != '.'
    ensures !PatternMatches(s)
  {
  }
}
