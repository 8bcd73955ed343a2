/**
 * What `NameGenerator.__init__` builds from the corpus lines, as functions:
 * the three transition tables and the syllable-count table.
 */
module Learning {
  import opened Wrappers
  import opened Text
  import opened Syllables
  import opened Frequencies
  import opened Chains

  datatype Tables = Tables(segments: seq<Chain>, numsSyllables: Freq<int>)

  /**
   * The invariant of the learned model: three well-formed transition tables
   * and a syllable-count dict with distinct keys of at least one and counts
   * of at least one.
   */
  ghost predicate TablesOk(m: Tables) {
    && ChainsOk(m.segments)
    && Distinct(m.numsSyllables)
    && Positive(m.numsSyllables)
    && forall i | 0 <= i < |m.numsSyllables| :: m.numsSyllables[i].key >= 1
  }

  /** The learner's state inside one line: the three tables and `prev_segment`. */
  datatype Learner = Learner(chains: seq<Chain>, prev: Option<string>)

  /**
   * The loop `for segment_type, segment in enumerate(segs)` over the first
   * `|segs|` groups of one syllable: segment `t` is counted in table `t`
   * under the current key, which then advances.
   */
  function LearnSegments(st: Learner, segs: seq<string>): (r: Learner)
    requires |st.chains| == 3 && |segs| <= 3
    ensures |r.chains| == 3
    ensures r.prev == KeyAfter(st.prev, segs)
    ensures forall t | |segs| <= t < 3 :: r.chains[t] == st.chains[t]
    decreases |segs|
  {
    if segs == [] then st
    else
      var t := |segs| - 1;
      var before := LearnSegments(st, segs[..t]);
      Learner(before.chains[t := Bump(before.chains[t], before.prev, segs[t])],
              Advance(before.prev, segs[t]))
  }

  /** The loop over the syllables of one line. */
  function LearnSyllables(st: Learner, sylls: seq<string>): (r: Learner)
    requires |st.chains| == 3
    ensures |r.chains| == 3
  {
    if sylls == [] then st
    else LearnSegments(LearnSyllables(st, sylls[..|sylls| - 1]), Segments(Split(sylls[|sylls| - 1])))
  }

  /** Learning segments keeps the table invariant, and the key stays `None` or non-empty. */
  lemma {:induction false} LearnSegmentsOk(st: Learner, segs: seq<string>)
    requires |st.chains| == 3 && |segs| <= 3
    requires ChainsOk(st.chains) && IsKey(st.prev)
    ensures ChainsOk(LearnSegments(st, segs).chains) && IsKey(LearnSegments(st, segs).prev)
    decreases |segs|
  {
    if segs != [] {
      LearnSegmentsOk(st, segs[..|segs| - 1]);
    }
  }

  lemma {:induction false} LearnSyllablesOk(st: Learner, sylls: seq<string>)
    requires |st.chains| == 3
    requires ChainsOk(st.chains) && IsKey(st.prev)
    ensures ChainsOk(LearnSyllables(st, sylls).chains) && IsKey(LearnSyllables(st, sylls).prev)
  {
    if sylls != [] {
      var init := sylls[..|sylls| - 1];
      LearnSyllablesOk(st, init);
      LearnSegmentsOk(LearnSyllables(st, init), Segments(Split(sylls[|sylls| - 1])));
    }
  }

  /** The number of syllables a stripped, non-blank line is recorded with. */
  function SyllableCount(line: string): (n: int)
    ensures n >= 1
    ensures n == |SplitOn(line, '-')|
  {
    CountChar(line, '-') + 1
  }

  /**
   * One corpus line: skipped when blank; otherwise its syllable count is
   * incremented and its syllables are learned with the key reset to `None`.
   */
  function LearnLine(m: Tables, raw: string): (r: Tables)
    requires |m.segments| == 3
    ensures |r.segments| == 3
    ensures Blank(raw) ==> r == m
  {
    var line := Strip(raw);
    if line == [] then m
    else Tables(LearnSyllables(Learner(m.segments, None), SplitOn(line, '-')).chains,
                Increment(m.numsSyllables, SyllableCount(line)))
  }

  function EmptyTables(): Tables {
    Tables([[], [], []], [])
  }

  /** The whole constructor: the lines in order, from empty tables. */
  function Learn(lines: seq<string>): (r: Tables)
    ensures |r.segments| == 3
  {
    if lines == [] then EmptyTables()
    else LearnLine(Learn(lines[..|lines| - 1]), lines[|lines| - 1])
  }

  // One more line, syllable or segment: the steps the constructor's loops take.

  lemma {:induction false} LearnNext(lines: seq<string>, n: nat)
    requires n < |lines|
    ensures Learn(lines[..n + 1]) == LearnLine(Learn(lines[..n]), lines[n])
  {
    assert lines[..n + 1][..n] == lines[..n];
  }

  lemma {:induction false} LearnSyllablesNext(st: Learner, sylls: seq<string>, k: nat)
    requires |st.chains| == 3 && k < |sylls|
    ensures LearnSyllables(st, sylls[..k + 1]) ==
            LearnSegments(LearnSyllables(st, sylls[..k]), Segments(Split(sylls[k])))
  {
    assert sylls[..k + 1][..k] == sylls[..k];
  }

  lemma {:induction false} LearnSegmentsNext(st: Learner, segs: seq<string>, t: nat)
    requires |st.chains| == 3 && t < |segs| <= 3
    ensures var before := LearnSegments(st, segs[..t]);
            LearnSegments(st, segs[..t + 1]) ==
              Learner(before.chains[t := Bump(before.chains[t], before.prev, segs[t])],
                      Advance(before.prev, segs[t]))
  {
    assert segs[..t + 1][..t] == segs[..t];
  }

  // ---------------------------------------------------------------------
  // Properties of the learned tables.

  /** Whatever the corpus, the learned tables keep the model invariant. */
  lemma {:induction false} LearnOk(lines: seq<string>)
    ensures TablesOk(Learn(lines))
  {
    if lines != [] {
      LearnOk(lines[..|lines| - 1]);
      LearnLineOk(Learn(lines[..|lines| - 1]), lines[|lines| - 1]);
    }
  }

  /** Learning one more line keeps the invariant. */
  lemma {:induction false} LearnLineOk(m: Tables, raw: string)
    requires TablesOk(m)
    ensures TablesOk(LearnLine(m, raw))
  {
    var line := Strip(raw);
    if line != [] {
      LearnSyllablesOk(Learner(m.segments, None), SplitOn(line, '-'));
      IncrementKeys(m.numsSyllables, SyllableCount(line));
    }
  }

  lemma {:induction false} IncrementKeys(t: Freq<int>, k: int)
    requires k >= 1 && forall i | 0 <= i < |t| :: t[i].key >= 1
    ensures forall i | 0 <= i < |Increment(t, k)| :: Increment(t, k)[i].key >= 1
  {
  }

  /**
   * One syllable: each of its three segments is counted exactly once, in
   * its own table, under the key left by the segments before it.
   */
  lemma {:induction false} LearnSyllableStep(st: Learner, p: Parts)
    requires |st.chains| == 3
    ensures var segs := Segments(p);
            var r := LearnSegments(st, segs);
            && (forall t | 0 <= t < 3 ::
                  r.chains[t] == Bump(st.chains[t], KeyAfter(st.prev, segs[..t]), segs[t]))
            && r.prev == KeyAfter(st.prev, segs)
  {
    var segs := Segments(p);
    assert segs[..3] == segs;
    var s1 := LearnSegments(st, segs[..1]);
    var s2 := LearnSegments(st, segs[..2]);
    assert segs[..2][..1] == segs[..1];
    assert segs[..1][..0] == [];
    assert s1.chains[0] == Bump(st.chains[0], st.prev, segs[0]);
    assert s2.chains[1] == Bump(st.chains[1], s1.prev, segs[1]);
  }

  /** Every segment of every syllable of a line, in the order they are counted. */
  function SegmentsOf(sylls: seq<string>): seq<string> {
    if sylls == [] then []
    else SegmentsOf(sylls[..|sylls| - 1]) + Segments(Split(sylls[|sylls| - 1]))
  }

  /** The key runs on across syllable boundaries: it is the key after all segments so far. */
  lemma {:induction false} LearnKeyCarries(st: Learner, sylls: seq<string>)
    requires |st.chains| == 3
    ensures LearnSyllables(st, sylls).prev == KeyAfter(st.prev, SegmentsOf(sylls))
  {
    if sylls != [] {
      var init := sylls[..|sylls| - 1];
      LearnKeyCarries(st, init);
      KeyAfterConcat(st.prev, SegmentsOf(init), Segments(Split(sylls[|sylls| - 1])));
    }
  }

  /** Each table gains one count per segment position learned. */
  lemma {:induction false} LearnSegmentsTotal(st: Learner, segs: seq<string>, t: nat)
    requires |st.chains| == 3 && |segs| <= 3 && t < 3
    ensures ChainTotal(LearnSegments(st, segs).chains[t]) ==
            ChainTotal(st.chains[t]) + (if t < |segs| then 1 else 0)
    decreases |segs|
  {
    if segs != [] {
      var k := |segs| - 1;
      var before := LearnSegments(st, segs[..k]);
      LearnSegmentsTotal(st, segs[..k], t);
      var bumped := Bump(before.chains[k], before.prev, segs[k]);
      assert LearnSegments(st, segs).chains == before.chains[k := bumped];
      if t != k {
        assert LearnSegments(st, segs).chains[t] == before.chains[t];
      }
    }
  }

  /** Each table gains one count per syllable of the line. */
  lemma {:induction false} LearnSyllablesTotal(st: Learner, sylls: seq<string>, t: nat)
    requires |st.chains| == 3 && t < 3
    ensures ChainTotal(LearnSyllables(st, sylls).chains[t]) == ChainTotal(st.chains[t]) + |sylls|
  {
    if sylls != [] {
      var init := sylls[..|sylls| - 1];
      LearnSyllablesTotal(st, init, t);
      LearnSegmentsTotal(LearnSyllables(st, init), Segments(Split(sylls[|sylls| - 1])), t);
    }
  }

  /** The syllables `__init__` iterates for one raw line (none for a blank one). */
  function SyllablesOf(raw: string): seq<string> {
    var line := Strip(raw);
    if line == [] then [] else SplitOn(line, '-')
  }

  function SyllableTotal(lines: seq<string>): nat {
    if lines == [] then 0
    else SyllableTotal(lines[..|lines| - 1]) + |SyllablesOf(lines[|lines| - 1])|
  }

  /** The number of lines that are not blank. */
  function NonBlankLines(lines: seq<string>): nat {
    if lines == [] then 0
    else NonBlankLines(lines[..|lines| - 1]) + (if Blank(lines[|lines| - 1]) then 0 else 1)
  }

  /** The number of non-blank lines recorded with `n` syllables. */
  function LinesWithSyllables(lines: seq<string>, n: int): nat {
    if lines == [] then 0
    else
      var line := Strip(lines[|lines| - 1]);
      LinesWithSyllables(lines[..|lines| - 1], n) + (if line != [] && SyllableCount(line) == n then 1 else 0)
  }

  /**
   * The counting invariant: each transition table's counts sum to the number
   * of syllables learned, and the syllable-count table's to the number of
   * non-blank lines.
   */
  lemma {:induction false} LearnTotals(lines: seq<string>)
    ensures forall t | 0 <= t < 3 :: ChainTotal(Learn(lines).segments[t]) == SyllableTotal(lines)
    ensures Total(Learn(lines).numsSyllables) == NonBlankLines(lines)
  {
    if lines != [] {
      var init := lines[..|lines| - 1];
      var raw := lines[|lines| - 1];
      LearnTotals(init);
      var line := Strip(raw);
      if line != [] {
        forall t | 0 <= t < 3
          ensures ChainTotal(Learn(lines).segments[t]) == SyllableTotal(lines)
        {
          LearnSyllablesTotal(Learner(Learn(init).segments, None), SplitOn(line, '-'), t);
        }
      }
    }
  }

  /**
   * The syllable-count table holds, under `n`, the number of non-blank lines
   * with `n` syllables; the count recorded for a line is the number of
   * syllables it is split into.
   */
  lemma {:induction false} LearnSyllableCounts(lines: seq<string>, n: int)
    ensures Count(Learn(lines).numsSyllables, n) == LinesWithSyllables(lines, n)
    ensures forall i | 0 <= i < |lines| && !Blank(lines[i]) ::
              SyllableCount(Strip(lines[i])) == |SyllablesOf(lines[i])|
  {
    if lines != [] {
      var init, last := lines[..|lines| - 1], lines[|lines| - 1];
      LearnSyllableCounts(init, n);
      var line := Strip(last);
      assert Count(Learn(lines).numsSyllables, n) ==
             Count(Learn(init).numsSyllables, n) + (if line != [] && SyllableCount(line) == n then 1 else 0) by {
        if line != [] {
          assert Learn(lines).numsSyllables == Increment(Learn(init).numsSyllables, SyllableCount(line));
        }
      }
    }
  }

  /**
   * The word `ka-ris`: one line, two syllables, recorded with a syllable
   * count of two. The empty coda of `ka` leaves the key at `a`, so the
   * onset `r` of `ris` is counted under `a`, and `ris` leaves the key at `s`.
   */
  lemma KaRis()
    ensures Strip("ka-ris") == "ka-ris"
    ensures SyllableCount("ka-ris") == 2
    ensures SplitOn("ka-ris", '-') == ["ka", "ris"]
    ensures Split("ka") == Parts("k", "a", "") && Split("ris") == Parts("r", "i", "s")
    ensures SegmentsOf(["ka", "ris"]) == ["k", "a", "", "r", "i", "s"]
    ensures KeyAfter(None, ["k", "a", ""]) == Some("a")
    ensures KeyAfter(None, ["k", "a", "", "r", "i", "s"]) == Some("s")
  {
    KaRisStrip();
    KaRisSplitOn();
    KaSplit("ka");
    RisSplit("ris");
    KaRisSegments(["ka", "ris"]);
    KaRisKeys(["k", "a", ""], ["r", "i", "s"]);
  }

  /**
   * The tables after learning the one-line corpus `ka-ris`: the count of two
   * syllables is one, and each of the six segments has a row of its own,
   * holding it once, under the key in force when it was counted.
   */
  lemma KaRisTables()
    ensures Learn(["ka-ris"]).numsSyllables == [Entry(2, 1)]
    ensures Learn(["ka-ris"]).segments ==
            [[Row(None, [Entry("k", 1)]), Row(Some("a"), [Entry("r", 1)])],
             [Row(Some("k"), [Entry("a", 1)]), Row(Some("r"), [Entry("i", 1)])],
             [Row(Some("a"), [Entry("", 1)]), Row(Some("i"), [Entry("s", 1)])]]
  {
    KaRis();
    assert Segments(Split("ka")) == ["k", "a", ""];
    assert Segments(Split("ris")) == ["r", "i", "s"];
    assert "k"[0] != "r"[0] && "a"[0] != "i"[0];
    TwoSyllableLine("ka-ris", "ka", "ris", "k", "a", "r", "i", "s");
  }

  /**
   * A line of two syllables, the first with an empty coda, whose onsets
   * differ and whose nuclei differ: every key is new when it is counted.
   */
  lemma {:induction false} TwoSyllableLine(raw: string, a: string, b: string,
                                           o1: string, n1: string, o2: string, n2: string, c2: string)
    requires Strip(raw) == raw && raw != [] && SplitOn(raw, '-') == [a, b]
    requires Segments(Split(a)) == [o1, n1, ""] && Segments(Split(b)) == [o2, n2, c2]
    requires o1 != "" && n1 != "" && o2 != "" && n2 != "" && o1 != o2 && n1 != n2
    ensures Learn([raw]).numsSyllables == [Entry(2, 1)]
    ensures Learn([raw]).segments ==
            [[Row(None, [Entry(o1, 1)]), Row(Some(n1), [Entry(o2, 1)])],
             [Row(Some(o1), [Entry(n1, 1)]), Row(Some(o2), [Entry(n2, 1)])],
             [Row(Some(n1), [Entry("", 1)]), Row(Some(n2), [Entry(c2, 1)])]]
  {
    var st0 := Learner([[], [], []], None);
    LearnOneLine(raw, raw, [a, b]);
    TwoSyllables(st0, a, b);
    TwoNewSyllables(o1, n1, o2, n2, c2);
  }

  /** The tables after the two syllables of `TwoSyllableLine`, from empty tables. */
  lemma {:induction false} TwoNewSyllables(o1: string, n1: string, o2: string, n2: string, c2: string)
    requires o1 != "" && n1 != "" && o2 != "" && n2 != "" && o1 != o2 && n1 != n2
    ensures LearnSegments(LearnSegments(Learner([[], [], []], None), [o1, n1, ""]), [o2, n2, c2]).chains ==
            [[Row(None, [Entry(o1, 1)]), Row(Some(n1), [Entry(o2, 1)])],
             [Row(Some(o1), [Entry(n1, 1)]), Row(Some(o2), [Entry(n2, 1)])],
             [Row(Some(n1), [Entry("", 1)]), Row(Some(n2), [Entry(c2, 1)])]]
  {
    FirstNewSyllable(o1, n1);
    SecondNewSyllable(o1, n1, o2, n2, c2);
  }

  lemma {:induction false} FirstNewSyllable(o1: string, n1: string)
    requires o1 != "" && n1 != ""
    ensures LearnSegments(Learner([[], [], []], None), [o1, n1, ""]) ==
            Learner([[Row(None, [Entry(o1, 1)])], [Row(Some(o1), [Entry(n1, 1)])], [Row(Some(n1), [Entry("", 1)])]],
                    Some(n1))
  {
    NewRows(Learner([[], [], []], None), o1, n1, "", Some(o1), Some(n1));
    assert [] + [Row(None, [Entry(o1, 1)])] == [Row(None, [Entry(o1, 1)])];
    assert [] + [Row(Some(o1), [Entry(n1, 1)])] == [Row(Some(o1), [Entry(n1, 1)])];
    assert [] + [Row(Some(n1), [Entry("", 1)])] == [Row(Some(n1), [Entry("", 1)])];
  }

  lemma {:induction false} SecondNewSyllable(o1: string, n1: string, o2: string, n2: string, c2: string)
    requires n1 != "" && o2 != "" && n2 != "" && o1 != o2 && n1 != n2
    ensures LearnSegments(Learner([[Row(None, [Entry(o1, 1)])], [Row(Some(o1), [Entry(n1, 1)])],
                                   [Row(Some(n1), [Entry("", 1)])]], Some(n1)), [o2, n2, c2]).chains ==
            [[Row(None, [Entry(o1, 1)]), Row(Some(n1), [Entry(o2, 1)])],
             [Row(Some(o1), [Entry(n1, 1)]), Row(Some(o2), [Entry(n2, 1)])],
             [Row(Some(n1), [Entry("", 1)]), Row(Some(n2), [Entry(c2, 1)])]]
  {
    var c1 := [[Row(None, [Entry(o1, 1)])], [Row(Some(o1), [Entry(n1, 1)])], [Row(Some(n1), [Entry("", 1)])]];
    var r0 := Row(Some(n1), [Entry(o2, 1)]);
    var r1 := Row(Some(o2), [Entry(n2, 1)]);
    var r2 := Row(Some(n2), [Entry(c2, 1)]);
    NewRows(Learner(c1, Some(n1)), o2, n2, c2, Some(o2), Some(n2));
    assert c1[0] + [r0] == [c1[0][0], r0];
    assert c1[1] + [r1] == [c1[1][0], r1];
    assert c1[2] + [r2] == [c1[2][0], r2];
  }

  /** A corpus of one non-blank line. */
  lemma {:induction false} LearnOneLine(raw: string, line: string, sylls: seq<string>)
    requires Strip(raw) == line && line != [] && SplitOn(line, '-') == sylls
    ensures Learn([raw]).numsSyllables == [Entry(SyllableCount(line), 1)]
    ensures Learn([raw]).segments == LearnSyllables(Learner([[], [], []], None), sylls).chains
  {
    assert [raw][..0] == [];
    assert Find([], SyllableCount(line)) == 0;
    assert [] + [Entry(SyllableCount(line), 1)] == [Entry(SyllableCount(line), 1)];
  }

  /** A line of two syllables. */
  lemma {:induction false} TwoSyllables(st: Learner, a: string, b: string)
    requires |st.chains| == 3
    ensures LearnSyllables(st, [a, b]) ==
            LearnSegments(LearnSegments(st, Segments(Split(a))), Segments(Split(b)))
  {
    calc {
      LearnSyllables(st, [a, b]);
    == { assert [a, b][..1] == [a]; }
      LearnSegments(LearnSyllables(st, [a]), Segments(Split(b)));
    == { assert [a][..0] == []; }
      LearnSegments(LearnSegments(st, Segments(Split(a))), Segments(Split(b)));
    }
  }

  /** The key before each of three segments, and after them. */
  lemma {:induction false} ThreeKeys(prev: Option<string>, o: string, n: string, c: string)
    ensures KeyAfter(prev, [o, n, c][..0]) == prev
    ensures KeyAfter(prev, [o, n, c][..1]) == Advance(prev, o)
    ensures KeyAfter(prev, [o, n, c][..2]) == Advance(Advance(prev, o), n)
    ensures KeyAfter(prev, [o, n, c]) == Advance(Advance(Advance(prev, o), n), c)
  {
    var segs := [o, n, c];
    assert segs[..0] == [];
    assert segs[..1] == [o] && [o][..0] == [];
    assert segs[..2] == [o, n] && [o, n][..1] == [o];
    assert segs[..3][..2] == [o, n];
  }

  /**
   * A syllable whose three keys `k0`, `k1`, `k2` are all new to their
   * tables: each table gains one row, holding the syllable's segment of
   * that kind once.
   */
  lemma {:induction false} NewRows(st: Learner, o: string, n: string, c: string,
                                   k1: Option<string>, k2: Option<string>)
    requires |st.chains| == 3
    requires k1 == Advance(st.prev, o) && k2 == Advance(k1, n)
    requires forall i | 0 <= i < |st.chains[0]| :: st.chains[0][i].prev != st.prev
    requires forall i | 0 <= i < |st.chains[1]| :: st.chains[1][i].prev != k1
    requires forall i | 0 <= i < |st.chains[2]| :: st.chains[2][i].prev != k2
    ensures LearnSegments(st, [o, n, c]) ==
            Learner([st.chains[0] + [Row(st.prev, [Entry(o, 1)])],
                     st.chains[1] + [Row(k1, [Entry(n, 1)])],
                     st.chains[2] + [Row(k2, [Entry(c, 1)])]],
                    Advance(k2, c))
  {
    var segs := [o, n, c];
    var r := LearnSegments(st, segs);
    assert Segments(Parts(o, n, c)) == segs;
    LearnSyllableStep(st, Parts(o, n, c));
    ThreeKeys(st.prev, o, n, c);
    assert r.chains[0] == st.chains[0] + [Row(st.prev, [Entry(o, 1)])] by {
      BumpNew(st.chains[0], st.prev, o);
    }
    assert r.chains[1] == st.chains[1] + [Row(k1, [Entry(n, 1)])] by {
      BumpNew(st.chains[1], k1, n);
    }
    assert r.chains[2] == st.chains[2] + [Row(k2, [Entry(c, 1)])] by {
      BumpNew(st.chains[2], k2, c);
    }
    assert r.chains == [r.chains[0], r.chains[1], r.chains[2]];
  }

  lemma KaRisStrip()
    ensures Strip("ka-ris") == "ka-ris"
  {
    assert Lead("ka-ris", 0) == 0;
    assert Trail("ka-ris", 0, 6) == 6;
    assert "ka-ris"[0..6] == "ka-ris";
  }

  lemma KaRisSplitOn()
    ensures SplitOn("ka-ris", '-') == ["ka", "ris"]
  {
    assert "ka" + ['-'] + "ris" == "ka-ris";
    SplitOnTwo("ka", "ris", '-');
  }

  lemma {:induction false} SplitOnTwo(x: string, y: string, sep: char)
    requires sep !in x && sep !in y
    ensures SplitOn(x + [sep] + y, sep) == [x, y]
  {
    SplitOnFree(y, sep);
    SplitOnFirst(x, y, sep);
  }

  lemma {:induction false} KaSplit(s: string)
    requires s == "ka"
    ensures Split(s) == Parts("k", "a", "")
  {
    assert ConsonantRun(s, 0) == 1 by { assert ConsonantRun(s, 1) == 0; }
    assert VowelRun(s, 1) == 1 by { assert VowelRun(s, 2) == 0; }
  }

  lemma {:induction false} RisSplit(s: string)
    requires s == "ris"
    ensures Split(s) == Parts("r", "i", "s")
  {
    assert ConsonantRun(s, 0) == 1 by { assert ConsonantRun(s, 1) == 0; }
    assert VowelRun(s, 1) == 1 by { assert VowelRun(s, 2) == 0; }
    assert ConsonantRun(s, 2) == 1 by { assert ConsonantRun(s, 3) == 0; }
  }

  lemma {:induction false} KaRisSegments(sylls: seq<string>)
    requires sylls == ["ka", "ris"]
    requires Split("ka") == Parts("k", "a", "") && Split("ris") == Parts("r", "i", "s")
    ensures SegmentsOf(sylls) == ["k", "a", "", "r", "i", "s"]
  {
    assert sylls[..1] == ["ka"];
    assert sylls[..1][..0] == [];
    var ka := Segments(Split("ka"));
    assert ka == ["k", "a", ""];
    assert SegmentsOf(sylls[..1]) == [] + ka;
    assert SegmentsOf(sylls) == ka + Segments(Split("ris"));
  }

  lemma {:induction false} KaRisKeys(ka: seq<string>, ris: seq<string>)
    requires ka == ["k", "a", ""] && ris == ["r", "i", "s"]
    ensures KeyAfter(None, ka) == Some("a")
    ensures KeyAfter(None, ka + ris) == Some("s")
  {
    KeyAfterIsLastNonEmpty(None, ka);
    KeyAfterIsLastNonEmpty(None, ka + ris);
  }
}
