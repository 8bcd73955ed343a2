/**
 * The class `NameGenerator`: the constructor learns the tables from the
 * corpus lines in place, `GetKey` makes the weighted choice and
 * `GenerateName` walks the tables without changing them. Each is proved
 * against the functions of `Learning`, `Frequencies` and `Generation`.
 */
module NameGeneration {
  import opened Wrappers
  import opened Text
  import opened Syllables
  import opened Frequencies
  import opened Chains
  import opened Learning
  import opened Generation

  class NameGenerator {
    /** `self.segments`: the onset, nucleus and coda transition tables. */
    var segments: seq<Chain>
    /** `self.nums_syllables`: how many corpus words had each syllable count. */
    var numsSyllables: Freq<int>

    /** The invariant every generator keeps once built. */
    ghost predicate Valid()
      reads this
    {
      TablesOk(Tables(segments, numsSyllables))
    }

    /**
     * `__init__`: learn every line of the corpus, in order, into empty
     * tables. The tables are what `Learn` gives for the lines, so every count
     * and key obeys the lemmas of `Learning`.
     */
    constructor (lines: seq<string>)
      ensures Tables(segments, numsSyllables) == Learn(lines)
      ensures Valid()
    {
      segments := [[], [], []];
      numsSyllables := [];
      new;
      var n := 0;
      while n < |lines|
        invariant 0 <= n <= |lines|
        invariant Tables(segments, numsSyllables) == Learn(lines[..n])
        invariant Valid()
      {
        LearnNext(lines, n);
        AddLine(lines[n]);
        n := n + 1;
      }
      assert lines[..|lines|] == lines;
    }

    /**
     * The body of the constructor's loop over the corpus, for one line: a
     * blank line is skipped; otherwise its syllable count is incremented and
     * its syllables are learned in order, starting from the key `None`.
     */
    method AddLine(raw: string)
      requires Valid()
      modifies this
      ensures Tables(segments, numsSyllables) == LearnLine(old(Tables(segments, numsSyllables)), raw)
      ensures Valid()
    {
      ghost var before := Tables(segments, numsSyllables);
      LearnLineOk(before, raw);
      var line := Strip(raw);
      if line != [] {
        numsSyllables := Increment(numsSyllables, SyllableCount(line));
        AddSyllables(SplitOn(line, '-'));
      }
    }

    /**
     * The loop over the syllables of one line: each is split into onset,
     * nucleus and coda and learned, the key carrying over from one syllable
     * to the next. It is a step of `AddLine` only, which restores `Valid()`
     * once the line is done.
     */
    method AddSyllables(sylls: seq<string>)
      requires |segments| == 3
      modifies this
      ensures segments == LearnSyllables(Learner(old(segments), None), sylls).chains
      ensures numsSyllables == old(numsSyllables)
    {
      ghost var start := Learner(segments, None);
      var prev: Option<string> := None;
      var k := 0;
      assert sylls[..0] == [];
      while k < |sylls|
        invariant 0 <= k <= |sylls|
        invariant numsSyllables == old(numsSyllables)
        invariant Learner(segments, prev) == LearnSyllables(start, sylls[..k])
      {
        LearnSyllablesNext(start, sylls, k);
        prev := AddSyllable(Segments(Split(sylls[k])), prev);
        k := k + 1;
      }
      assert sylls[..|sylls|] == sylls;
    }

    /**
     * The innermost loop of `__init__`, over the onset, nucleus and coda of
     * one syllable: each is counted in its own table under the current key,
     * which then moves on to it unless it is empty. It is a step of
     * `AddSyllables` only: called with a key `Some("")`, which learning
     * never produces, it would break `Valid()`.
     */
    method AddSyllable(segs: seq<string>, prev: Option<string>) returns (next: Option<string>)
      requires |segments| == 3 && |segs| == 3
      modifies this
      ensures Learner(segments, next) == LearnSegments(Learner(old(segments), prev), segs)
      ensures numsSyllables == old(numsSyllables)
    {
      ghost var before := Learner(segments, prev);
      next := prev;
      var t := 0;
      assert segs[..0] == [];
      while t < 3
        invariant 0 <= t <= 3
        invariant numsSyllables == old(numsSyllables)
        invariant Learner(segments, next) == LearnSegments(before, segs[..t])
      {
        LearnSegmentsNext(before, segs, t);
        segments := segments[t := Bump(segments[t], next, segs[t])];
        if segs[t] != "" {
          next := Some(segs[t]);
        }
        t := t + 1;
      }
      assert segs[..3] == segs;
    }

    /**
     * `get_key`: the first key, in insertion order, whose running sum of
     * counts passes `index`, the value `randrange(sum)` returned; `None`
     * where `randrange(0)` raises on a table with no counts.
     */
    static method GetKey<K>(table: Freq<K>, index: nat) returns (r: Option<K>)
      requires Total(table) == 0 || index < Total(table)
      ensures r.None? <==> Total(table) == 0
      ensures r.Some? ==> r.value == Pick(table, index)
    {
      if Total(table) == 0 {
        return None;
      }
      var rest: nat := index;
      var i := 0;
      while i < |table|
        invariant 0 <= i <= |table|
        invariant rest < Total(table[i..])
        invariant Pick(table, index) == Pick(table[i..], rest)
      {
        assert table[i..][1..] == table[i + 1..];
        if rest < table[i].count {
          return Some(table[i].key);
        }
        rest := rest - table[i].count;
        i := i + 1;
      }
      assert false;
    }

    /**
     * `generate_name(numSyllables)`, drawing the `j`-th segment with
     * `rng(j, total)`. The tables are left as they are, and the result is
     * the one `Generate` describes.
     */
    method GenerateName(numSyllables: int, rng: (nat, nat) -> nat) returns (name: Option<string>)
      requires Valid() && RangeOk(rng)
      ensures name == Generate(segments, rng, numSyllables)
    {
      var segs := segments;
      assert ChainsOk(segs);
      var prev: Option<string> := None;
      var regionName := "";
      ghost var drawn: seq<string> := [];
      var i := 0;
      while i < numSyllables
        invariant 0 <= i && 3 * i <= Steps(numSyllables)
        invariant Walk(segs, rng, 3 * i) == Went(drawn, prev)
        invariant regionName == Concat(drawn)
      {
        var t := 0;
        while t < 3
          invariant 0 <= t <= 3
          invariant Walk(segs, rng, 3 * i + t) == Went(drawn, prev)
          invariant regionName == Concat(drawn)
        {
          var found := Lookup(segs[t], prev);
          if found.None? {
            WalkStops(segs, rng, i, t, prev, Steps(numSyllables));
            return None;
          }
          WalkOn(segs, rng, i, t, drawn, prev, found.value);
          var seg := GetKey(found.value, rng(3 * i + t, Total(found.value)));
          ConcatNext(drawn, seg.value);
          regionName := regionName + seg.value;
          drawn := drawn + [seg.value];
          if seg.value != "" {
            prev := Some(seg.value);
          }
          t := t + 1;
        }
        assert 3 * (i + 1) == 3 * i + 3;
        i := i + 1;
      }
      assert 3 * i == Steps(numSyllables);
      if |regionName| >= MaxLength {
        return None;
      }
      return Some(Title(regionName));
    }
  }

  /**
   * Lines 111-113 of the driver: draw a syllable count from the generator's
   * table and raise it to at least two.
   */
  method ChooseSyllables(g: NameGenerator, index: nat) returns (n: Option<int>)
    requires Total(g.numsSyllables) == 0 || index < Total(g.numsSyllables)
    ensures n == SyllablesToGenerate(g.numsSyllables, index)
  {
    var drawn := NameGenerator.GetKey(g.numsSyllables, index);
    if drawn.None? {
      return None;
    }
    var count := drawn.value;
    if count < 2 {
      count := 2;
    }
    return Some(count);
  }
}
