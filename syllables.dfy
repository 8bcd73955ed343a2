/**
 * Segmentation of one syllable into onset, nucleus and coda by the pattern
 * `(y|[^aeiouy]*)([aeiouy]+|$)([^aeiouy]*)` applied with Python's
 * `re.match`, which anchors at the start of the syllable only.
 */
module Syllables {

  /** The character class `[aeiouy]` (case-sensitive). */
  predicate IsVowel(c: char) {
    c == 'a' || c == 'e' || c == 'i' || c == 'o' || c == 'u' || c == 'y'
  }

  /** Python's `$` without MULTILINE: the end, or just before a final newline. */
  predicate AtEnd(s: string, i: nat) {
    i == |s| || (i + 1 == |s| && s[i] == '\n')
  }

  /** Length of the longest run of `[^aeiouy]` starting at `i`. */
  function ConsonantRun(s: string, i: nat): (n: nat)
    requires i <= |s|
    ensures i + n <= |s|
    ensures forall j | i <= j < i + n :: !IsVowel(s[j])
    ensures i + n == |s| || IsVowel(s[i + n])
    decreases |s| - i
  {
    if i < |s| && !IsVowel(s[i]) then 1 + ConsonantRun(s, i + 1) else 0
  }

  /** Length of the longest run of `[aeiouy]` starting at `i`. */
  function VowelRun(s: string, i: nat): (n: nat)
    requires i <= |s|
    ensures i + n <= |s|
    ensures forall j | i <= j < i + n :: IsVowel(s[j])
    ensures i + n == |s| || !IsVowel(s[i + n])
    decreases |s| - i
  {
    if i < |s| && IsVowel(s[i]) then 1 + VowelRun(s, i + 1) else 0
  }

  /**
   * The syllable `y` followed by a newline: the one input where `$` matches
   * before a character, so that an empty nucleus is followed by a coda.
   */
  predicate IsYNewline(s: string) {
    |s| == 2 && s[0] == 'y' && s[1] == '\n'
  }

  /** The lengths of the three groups of a match, all measured from the start. */
  datatype Span = Span(onset: nat, nucleus: nat, coda: nat) {
    function End(): nat { onset + nucleus + coda }
  }

  /**
   * The first alternative `y` of the onset group leads to a match exactly
   * when the nucleus group can match right after it: a vowel follows, or `$`.
   */
  predicate TakesYOnset(s: string) {
    |s| > 0 && s[0] == 'y' && (AtEnd(s, 1) || (1 < |s| && IsVowel(s[1])))
  }

  function SplitSpan(s: string): (m: Span)
    ensures m.End() <= |s|
  {
    var o := if TakesYOnset(s) then 1 else ConsonantRun(s, 0);
    var n := VowelRun(s, o);
    Span(o, n, ConsonantRun(s, o + n))
  }

  datatype Parts = Parts(onset: string, nucleus: string, coda: string)

  /** The three groups as the list `match(...).groups()` returns, in kind order. */
  function Segments(p: Parts): (r: seq<string>)
    ensures |r| == 3
  {
    [p.onset, p.nucleus, p.coda]
  }

  /**
   * `syllable_regex.match(syllable).groups()`. The match never fails. The
   * onset is `y` when the `y` alternative succeeds, and otherwise the longest
   * prefix outside `[aeiouy]`; the nucleus is the longest vowel run after it
   * and is empty only where `$` matches; the coda is the longest non-vowel run
   * after the nucleus. The three groups together are a prefix of the syllable.
   */
  function Split(s: string): (p: Parts)
    ensures |p.onset| + |p.nucleus| + |p.coda| <= |s|
    ensures p.onset + p.nucleus + p.coda == s[..|p.onset| + |p.nucleus| + |p.coda|]
    ensures p.onset == "y" <==> TakesYOnset(s)
    ensures p.onset != "y" ==> forall j | 0 <= j < |p.onset| :: !IsVowel(p.onset[j])
    ensures p.onset != "y" ==> |p.onset| == |s| || IsVowel(s[|p.onset|])
    ensures forall j | 0 <= j < |p.nucleus| :: IsVowel(p.nucleus[j])
    ensures var e := |p.onset| + |p.nucleus|; e == |s| || !IsVowel(s[e])
    ensures p.nucleus == [] <==> AtEnd(s, |p.onset|)
    ensures p.nucleus == [] && !IsYNewline(s) ==> p.coda == []
    ensures forall j | 0 <= j < |p.coda| :: !IsVowel(p.coda[j])
    ensures var e := |p.onset| + |p.nucleus| + |p.coda|; e == |s| || IsVowel(s[e])
  {
    CutPrefix(s, SplitSpan(s));
    var m := SplitSpan(s);
    CutOnset(s, m, Cut(s, m));
    CutNucleus(s, m, Cut(s, m));
    CutCoda(s, m, Cut(s, m));
    Cut(s, m)
  }

  /** The three groups of a match, as slices of the syllable. */
  function Cut(s: string, m: Span): (p: Parts)
    requires m.End() <= |s|
    ensures |p.onset| == m.onset && |p.nucleus| == m.nucleus && |p.coda| == m.coda
  {
    Parts(s[..m.onset], s[m.onset..m.onset + m.nucleus], s[m.onset + m.nucleus..m.End()])
  }

  lemma {:induction false} CutPrefix(s: string, m: Span)
    requires m.End() <= |s|
    ensures var p := Cut(s, m);
            && |p.onset| + |p.nucleus| + |p.coda| == m.End()
            && p.onset + p.nucleus + p.coda == s[..m.End()]
  {
    var a, b, c := m.onset, m.onset + m.nucleus, m.End();
    assert s[..a] + s[a..b] == s[..b];
    assert s[..b] + s[b..c] == s[..c];
  }

  lemma {:induction false} CutOnset(s: string, m: Span, p: Parts)
    requires m == SplitSpan(s) && p == Cut(s, m)
    ensures && (p.onset == "y" <==> TakesYOnset(s))
            && (p.onset != "y" ==> forall j | 0 <= j < |p.onset| :: !IsVowel(p.onset[j]))
            && (p.onset != "y" ==> |p.onset| == |s| || IsVowel(s[|p.onset|]))
  {
  }

  lemma {:induction false} CutNucleus(s: string, m: Span, p: Parts)
    requires m == SplitSpan(s) && p == Cut(s, m)
    ensures && (forall j | 0 <= j < |p.nucleus| :: IsVowel(p.nucleus[j]))
            && (var e := |p.onset| + |p.nucleus|; e == |s| || !IsVowel(s[e]))
            && (p.nucleus == [] <==> AtEnd(s, |p.onset|))
  {
  }

  lemma {:induction false} CutCoda(s: string, m: Span, p: Parts)
    requires m == SplitSpan(s) && p == Cut(s, m)
    ensures && (p.nucleus == [] && !IsYNewline(s) ==> p.coda == [])
            && (forall j | 0 <= j < |p.coda| :: !IsVowel(p.coda[j]))
            && (var e := |p.onset| + |p.nucleus| + |p.coda|; e == |s| || IsVowel(s[e]))
  {
    SpanCoda(s);
  }

  /** Without a nucleus there is no coda, except after the onset `y` of `y` and a newline. */
  lemma {:induction false} SpanCoda(s: string)
    ensures var m := SplitSpan(s);
            m.nucleus == 0 && m.coda > 0 ==> IsYNewline(s)
  {
    var m := SplitSpan(s);
    if m.nucleus == 0 && m.coda > 0 {
      assert TakesYOnset(s);
    }
  }

  /** The three groups joined back together. */
  function Joined(p: Parts): string {
    p.onset + p.nucleus + p.coda
  }

  // ---------------------------------------------------------------------
  // The regular expression as a relation, and the match `re.match` picks.

  predicate AllConsonants(s: string, lo: nat, hi: nat)
    requires lo <= hi <= |s|
  {
    forall j | lo <= j < hi :: !IsVowel(s[j])
  }

  predicate AllVowels(s: string, lo: nat, hi: nat)
    requires lo <= hi <= |s|
  {
    forall j | lo <= j < hi :: IsVowel(s[j])
  }

  /** The onset group took its first alternative, the literal `y`. */
  predicate UsesY(s: string, m: Span) {
    m.onset == 1 && |s| > 0 && s[0] == 'y'
  }

  /** `m` is one way for the whole pattern to match at the start of `s`. */
  predicate IsMatch(s: string, m: Span) {
    && m.End() <= |s|
    && (UsesY(s, m) || AllConsonants(s, 0, m.onset))
    && ((m.nucleus > 0 && AllVowels(s, m.onset, m.onset + m.nucleus))
        || (m.nucleus == 0 && AtEnd(s, m.onset)))
    && AllConsonants(s, m.onset + m.nucleus, m.End())
  }

  /**
   * Backtracking tries the alternative `y` before `[^aeiouy]*`, the greedy
   * quantifiers longest first, and `[aeiouy]+` before `$`; so match `a` is
   * tried before match `b` exactly when it is larger in this order.
   */
  predicate TriedBefore(s: string, a: Span, b: Span) {
    || (UsesY(s, a) && !UsesY(s, b))
    || (UsesY(s, a) == UsesY(s, b)
        && (|| a.onset > b.onset
            || (a.onset == b.onset && a.nucleus > b.nucleus)
            || (a.onset == b.onset && a.nucleus == b.nucleus && a.coda > b.coda)))
  }

  /** `Split` returns the match `re.match` finds: a match, and no match is tried before it. */
  lemma {:induction false} SplitIsFirstMatch(s: string)
    ensures IsMatch(s, SplitSpan(s))
    ensures forall m | IsMatch(s, m) :: !TriedBefore(s, m, SplitSpan(s))
  {
    var r := SplitSpan(s);
    assert UsesY(s, r) == TakesYOnset(s);
    forall m | IsMatch(s, m) ensures !TriedBefore(s, m, r) {
      MatchOnset(s, m);
      if UsesY(s, m) == UsesY(s, r) && m.onset == r.onset {
        MatchWithin(s, m, r);
      }
    }
  }

  /** The `y` alternative only matches where `Split` takes it, and the other onset is never longer. */
  lemma {:induction false} MatchOnset(s: string, m: Span)
    requires IsMatch(s, m)
    ensures UsesY(s, m) ==> TakesYOnset(s)
    ensures !UsesY(s, m) ==> m.onset <= ConsonantRun(s, 0)
  {
  }

  /** Given the same onset, a match's nucleus and coda are no longer than `Split`'s. */
  lemma {:induction false} MatchWithin(s: string, m: Span, r: Span)
    requires IsMatch(s, m) && r == SplitSpan(s) && m.onset == r.onset
    ensures m.nucleus <= r.nucleus
    ensures m.nucleus == r.nucleus ==> m.coda <= r.coda
  {
  }

  /** A vowel, later a non-vowel, later again a vowel: a second vowel run begins. */
  predicate HasSecondVowelRun(s: string) {
    exists i, j, k | 0 <= i < j < k < |s| :: IsVowel(s[i]) && !IsVowel(s[j]) && IsVowel(s[k])
  }

  /**
   * The split loses characters exactly when a second vowel run begins:
   * everything from that run on is dropped.
   */
  lemma {:induction false} SplitLosslessIff(s: string)
    ensures Joined(Split(s)) == s <==> !HasSecondVowelRun(s)
  {
    if SplitSpan(s).End() < |s| {
      SplitLossy(s);
    } else {
      SplitLossless(s);
    }
  }

  /** A match that stops short of the end stops at the start of a second vowel run. */
  lemma {:induction false} SplitLossy(s: string)
    requires SplitSpan(s).End() < |s|
    ensures Joined(Split(s)) != s && HasSecondVowelRun(s)
  {
    var r := SplitSpan(s);
    assert |Joined(Split(s))| == r.End();
    assert IsVowel(s[r.End()]);
    assert r.nucleus > 0 && r.coda > 0;
    assert IsVowel(s[r.onset]) && !IsVowel(s[r.onset + r.nucleus]);
  }

  /** A match that covers the syllable leaves no room for a second vowel run. */
  lemma {:induction false} SplitLossless(s: string)
    requires SplitSpan(s).End() == |s|
    ensures Joined(Split(s)) == s && !HasSecondVowelRun(s)
  {
    assert s[..|s|] == s;
    forall i, j, k | 0 <= i < j < k < |s| && IsVowel(s[i]) && !IsVowel(s[j])
      ensures !IsVowel(s[k])
    {
      SegmentClasses(s, k);
      SegmentClasses(s, j);
      SegmentClasses(s, i);
    }
  }

  /** Inside a match that covers the syllable, where vowels and non-vowels sit. */
  lemma {:induction false} SegmentClasses(s: string, x: nat)
    requires x < |s| && SplitSpan(s).End() == |s|
    ensures var r := SplitSpan(s);
            && (IsVowel(s[x]) ==> (TakesYOnset(s) && x == 0) || (r.onset <= x < r.onset + r.nucleus))
            && (!IsVowel(s[x]) ==> x < r.onset || r.onset + r.nucleus <= x)
  {
  }

  /** `re.match` needs only a prefix: the second vowel run of `kaki` is dropped. */
  lemma SplitDropsTail()
    ensures Split("kaki") == Parts("k", "a", "k")
  {
    var s := "kaki";
    assert ConsonantRun(s, 0) == 1 by { assert ConsonantRun(s, 1) == 0; }
    assert VowelRun(s, 1) == 1 by { assert VowelRun(s, 2) == 0; }
    assert ConsonantRun(s, 2) == 1 by { assert ConsonantRun(s, 3) == 0; }
  }

  /** When no vowel follows a leading `y`, backtracking makes it the nucleus. */
  lemma SplitBacktracksFromY()
    ensures Split("yk") == Parts("", "y", "k")
  {
    var s := "yk";
    assert !TakesYOnset(s);
    assert VowelRun(s, 0) == 1 by { assert VowelRun(s, 1) == 0; }
    assert ConsonantRun(s, 1) == 1 by { assert ConsonantRun(s, 2) == 0; }
  }

  /** A leading `y` before a vowel, or alone, is the onset. */
  lemma SplitTakesYOnset()
    ensures Split("ya") == Parts("y", "a", "")
    ensures Split("y") == Parts("y", "", "")
  {
    assert TakesYOnset("ya") && TakesYOnset("y");
    assert VowelRun("ya", 1) == 1 by { assert VowelRun("ya", 2) == 0; }
  }
}
