/** The feedback region of the form and the test the banner's observer runs
    on it after every change. */
module Feedback {

  /** The region's content: nothing, or one block that may carry the
      `success-box` class, reduced to its text content. */
  datatype Region = Empty | Block(successBox: bool, text: string)

  const Phrase := "Message received"

  /** The success block the submit handler renders (markup reduced to its
      marker class and its two lines of text). */
  const Success := Block(true, Phrase + " Thanks! I\U{2019}ll reply soon.")

  /** The summary the submit handler renders on a rejected submit. */
  const Summary := Block(false, "Please fix the errors above.")

  /** Case folding of an `/i` pattern without the `u` flag, restricted to
      what matters for an ASCII pattern: only `a`-`z` fold onto `A`-`Z`. */
  function Upper(c: char): (u: char)
    ensures ('a' <= c <= 'z') <==> u != c
    ensures 'a' <= c <= 'z' ==> 'A' <= u <= 'Z' && u as int == c as int - 32
  {
    if 'a' <= c <= 'z' then (c as int - 32) as char else c
  }

  /** `p` occurs in `t` at `i`, up to case. */
  predicate MatchesAt(t: string, p: string, i: nat)
    requires i + |p| <= |t|
  {
    forall k :: 0 <= k < |p| ==> Upper(t[i + k]) == Upper(p[k])
  }

  /** `/p/i.test(t)` for a pattern `p` made of literal characters. */
  predicate ContainsIgnoringCase(t: string, p: string) {
    exists i: nat :: i + |p| <= |t| && MatchesAt(t, p, i)
  }

  /** The observer's test: the region holds a `.success-box` element or its
      text contains "Message received" in any case. */
  predicate Triggers(f: Region) {
    f.Block? && (f.successBox || ContainsIgnoringCase(f.text, Phrase))
  }

  /** Case does not matter to `/p/i`: two texts that fold alike contain
      the pattern alike. */
  lemma FoldAlike(t: string, t': string, p: string)
    requires |t| == |t'|
    requires forall k :: 0 <= k < |t| ==> Upper(t[k]) == Upper(t'[k])
    ensures ContainsIgnoringCase(t, p) <==> ContainsIgnoringCase(t', p)
  {
    FoldAlikeMatch(t, t', p);
    FoldAlikeMatch(t', t, p);
  }

  /** Two blocks whose texts differ only in case trigger the banner alike. */
  lemma TriggersIgnoreCase(b: bool, t: string, t': string)
    requires |t| == |t'|
    requires forall k :: 0 <= k < |t| ==> Upper(t[k]) == Upper(t'[k])
    ensures Triggers(Block(b, t)) <==> Triggers(Block(b, t'))
  {
    FoldAlike(t, t', Phrase);
  }

  lemma FoldAlikeMatch(t: string, t': string, p: string)
    requires |t| == |t'|
    requires forall k :: 0 <= k < |t| ==> Upper(t[k]) == Upper(t'[k])
    ensures ContainsIgnoringCase(t, p) ==> ContainsIgnoringCase(t', p)
  {
    if ContainsIgnoringCase(t, p) {
      var i: nat :| i + |p| <= |t| && MatchesAt(t, p, i);
      forall k | 0 <= k < |p| ensures Upper(t'[i + k]) == Upper(p[k]) {
        assert Upper(t[i + k]) == Upper(p[k]);
      }
      assert MatchesAt(t', p, i);
    }
  }

  /** A text in which no code unit from index `|p| - 1` on folds to the
      pattern's last letter cannot contain the pattern: every occurrence
      would end at such an index. */
  lemma MissingLastLetter(t: string, p: string)
    requires p != []
    requires forall k :: |p| - 1 <= k < |t| ==> Upper(t[k]) != Upper(p[|p| - 1])
    ensures !ContainsIgnoringCase(t, p)
  {
    forall i: nat | i + |p| <= |t| ensures !MatchesAt(t, p, i) {
      assert Upper(t[i + (|p| - 1)]) != Upper(p[|p| - 1]);
    }
  }

  /** The rejected-submit summary never shows the banner, and neither does
      an empty region. */
  lemma SummaryNeverTriggers()
    ensures !Triggers(Summary) && !Triggers(Empty)
  {
    SummaryEndHasNoD();
    NoneFoldFromAt(Summary.text, 'D', |Phrase| - 1);
    MissingLastLetter(Summary.text, Phrase);
  }

  /** No code unit of the summary from index 15 on folds to `D`, the last
      letter of the phrase; the check is unfolded a few code units at a
      time, from the end. */
  lemma SummaryEndHasNoD()
    ensures NoneFoldFrom(Summary.text, 'D', 15)
  {
    assert NoneFoldFrom(Summary.text, 'D', 24);
    assert NoneFoldFrom(Summary.text, 'D', 20);
  }

  /** No code unit of `t` from `i` on folds to `c`. */
  predicate NoneFoldFrom(t: string, c: char, i: nat)
    requires i <= |t|
    decreases |t| - i
  {
    i == |t| || (Upper(t[i]) != c && NoneFoldFrom(t, c, i + 1))
  }

  lemma {:induction false} NoneFoldFromAt(t: string, c: char, i: nat)
    requires i <= |t| && NoneFoldFrom(t, c, i)
    ensures forall k :: i <= k < |t| ==> Upper(t[k]) != c
    decreases |t| - i
  {
    if i < |t| {
      NoneFoldFromAt(t, c, i + 1);
    }
  }

  /** The text test alone is enough: a block without the marker class whose
      text says "MESSAGE RECEIVED" still triggers. */
  lemma TextAloneTriggers()
    ensures Triggers(Block(false, "MESSAGE RECEIVED"))
  {
    ShoutedHead();
    ShoutedTail();
    assert MatchesAt("MESSAGE RECEIVED", Phrase, 0);
  }

  /** "MESSAGE RECEIVED" folds like the phrase, in two halves. */
  lemma ShoutedHead()
    ensures forall k :: 0 <= k < 8 ==> Upper("MESSAGE RECEIVED"[k]) == Upper(Phrase[k])
  {
  }

  lemma ShoutedTail()
    ensures forall k :: 8 <= k < 16 ==> Upper("MESSAGE RECEIVED"[k]) == Upper(Phrase[k])
  {
  }
}
