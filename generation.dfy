/**
 * What `generate_name` computes, as functions: the walk along the three
 * transition tables, the length cull and the title-casing; and the driver's
 * choice of a syllable count and of which results it keeps.
 *
 * `random.randrange` is an oracle `rng`: the value it returns for the
 * `j`-th segment of a name, when the table drawn from has total `n`, is
 * `rng(j, n)`, and it always lies in `[0, n)`.
 */
module Generation {
  import opened Wrappers
  import opened Text
  import opened Frequencies
  import opened Chains

  /** The random source keeps to the contract of `random.randrange(n)`. */
  ghost predicate RangeOk(rng: (nat, nat) -> nat) {
    forall j: nat, n: nat :: 0 < n ==> rng(j, n) < n
  }

  /** The state of the walk: stopped on a missing key, or the segments drawn so far and the key. */
  datatype Walked = DeadEnd | Went(drawn: seq<string>, prev: Option<string>)

  /**
   * The first `k` segments of a name. Segment `j` comes from table `j % 3`
   * (onset, nucleus, coda in turn), drawn from the frequency table under the
   * current key; a key missing from that table ends the walk.
   */
  function Walk(segs: seq<Chain>, rng: (nat, nat) -> nat, k: nat): (w: Walked)
    requires ChainsOk(segs) && RangeOk(rng)
    ensures w.Went? ==> |w.drawn| == k && IsKey(w.prev)
  {
    if k == 0 then Went([], None)
    else
      match Walk(segs, rng, k - 1)
      case DeadEnd => DeadEnd
      case Went(drawn, prev) =>
        match Lookup(segs[(k - 1) % 3], prev)
        case None => DeadEnd
        case Some(freqs) =>
          var seg := Pick(freqs, rng(k - 1, Total(freqs)));
          Went(drawn + [seg], Advance(prev, seg))
  }

  /** The segments glued together in order, as `region_name += segment` does. */
  function Concat(ss: seq<string>): (r: string)
  {
    if ss == [] then [] else Concat(ss[..|ss| - 1]) + ss[|ss| - 1]
  }

  /** The number of segments `generate_name` draws for `numSyllables` syllables. */
  function Steps(numSyllables: int): nat {
    if numSyllables > 0 then 3 * numSyllables else 0
  }

  /** Step `t` of syllable `i` draws from table `t`. */
  lemma {:induction false} StepKind(i: nat, t: nat)
    requires t < 3
    ensures (3 * i + t) % 3 == t
  {
  }

  /** Names of this length or more are culled. */
  const MaxLength: nat := 11

  /** `generate_name(numSyllables)`: `None` on a dead end or a long name, else the title-cased name. */
  function Generate(segs: seq<Chain>, rng: (nat, nat) -> nat, numSyllables: int): (r: Option<string>)
    requires ChainsOk(segs) && RangeOk(rng)
    ensures r.Some? ==> |r.value| < MaxLength
  {
    match Walk(segs, rng, Steps(numSyllables))
    case DeadEnd => None
    case Went(drawn, _) =>
      var name := Concat(drawn);
      if |name| >= MaxLength then None else Some(Title(name))
  }

  // ---------------------------------------------------------------------
  // The walk.

  /**
   * Step `t` of syllable `i`, when the key is in table `t`: the table has
   * counts, the draw is in range, and the walk goes on with the drawn segment.
   */
  lemma {:induction false} WalkOn(segs: seq<Chain>, rng: (nat, nat) -> nat, i: nat, t: nat,
                                  drawn: seq<string>, prev: Option<string>, freqs: Freq<string>)
    requires ChainsOk(segs) && RangeOk(rng) && t < 3
    requires Walk(segs, rng, 3 * i + t) == Went(drawn, prev)
    requires Lookup(segs[t], prev) == Some(freqs)
    ensures 0 < Total(freqs) && rng(3 * i + t, Total(freqs)) < Total(freqs)
    ensures var seg := Pick(freqs, rng(3 * i + t, Total(freqs)));
            Walk(segs, rng, 3 * i + t + 1) == Went(drawn + [seg], Advance(prev, seg))
  {
    StepKind(i, t);
  }

  /**
   * Step `t` of syllable `i`, when the key is missing from table `t`: the
   * walk stops, and every longer walk stops too.
   */
  lemma {:induction false} WalkStops(segs: seq<Chain>, rng: (nat, nat) -> nat, i: nat, t: nat,
                                     prev: Option<string>, k: nat)
    requires ChainsOk(segs) && RangeOk(rng) && t < 3
    requires Walk(segs, rng, 3 * i + t).Went? && Walk(segs, rng, 3 * i + t).prev == prev
    requires Lookup(segs[t], prev).None?
    requires 3 * i + t < k
    ensures Walk(segs, rng, k).DeadEnd?
  {
    StepKind(i, t);
    assert Walk(segs, rng, 3 * i + t + 1).DeadEnd?;
    DeadEndStays(segs, rng, 3 * i + t + 1, k);
  }

  /** Once the walk has stopped, it stays stopped. */
  lemma {:induction false} DeadEndStays(segs: seq<Chain>, rng: (nat, nat) -> nat, j: nat, k: nat)
    requires ChainsOk(segs) && RangeOk(rng)
    requires Walk(segs, rng, j).DeadEnd?
    ensures j <= k ==> Walk(segs, rng, k).DeadEnd?
  {
    if j <= k && Walk(segs, rng, k).Went? {
      WalkPrefix(segs, rng, j, k);
    }
  }

  lemma {:induction false} ConcatNext(ss: seq<string>, s: string)
    ensures Concat(ss + [s]) == Concat(ss) + s
  {
    assert (ss + [s])[..|ss|] == ss;
  }

  /** The key after each step is the one learning would have reached on the same segments. */
  lemma {:induction false} WalkKey(segs: seq<Chain>, rng: (nat, nat) -> nat, k: nat)
    requires ChainsOk(segs) && RangeOk(rng)
    ensures Walk(segs, rng, k).Went? ==> Walk(segs, rng, k).prev == KeyAfter(None, Walk(segs, rng, k).drawn)
  {
    if k > 0 {
      var w := Walk(segs, rng, k);
      WalkKey(segs, rng, k - 1);
      if w.Went? {
        var before := Walk(segs, rng, k - 1).drawn;
        assert w.drawn[..|w.drawn| - 1] == before;
      }
    }
  }

  /** A walk that gets through `k` steps got through every shorter walk, with the same first segments. */
  lemma {:induction false} WalkPrefix(segs: seq<Chain>, rng: (nat, nat) -> nat, j: nat, k: nat)
    requires ChainsOk(segs) && RangeOk(rng)
    requires j <= k && Walk(segs, rng, k).Went?
    ensures Walk(segs, rng, j).Went?
    ensures Walk(segs, rng, j).drawn == Walk(segs, rng, k).drawn[..j]
    decreases k
  {
    if j < k {
      var w := Walk(segs, rng, k);
      WalkPrefix(segs, rng, j, k - 1);
      var before := Walk(segs, rng, k - 1).drawn;
      assert w.drawn[..k - 1] == before;
      assert w.drawn[..j] == before[..j];
    } else {
      assert Walk(segs, rng, k).drawn[..k] == Walk(segs, rng, k).drawn;
    }
  }

  /**
   * The walk stops for good exactly when, at some step it reached, the key
   * was missing from the table of that step's kind.
   */
  lemma {:induction false} WalkDeadEnd(segs: seq<Chain>, rng: (nat, nat) -> nat, k: nat)
    requires ChainsOk(segs) && RangeOk(rng)
    ensures Walk(segs, rng, k).DeadEnd? <==>
            exists j | 0 <= j < k ::
              Walk(segs, rng, j).Went? && Lookup(segs[j % 3], Walk(segs, rng, j).prev).None?
  {
    if k > 0 {
      WalkDeadEnd(segs, rng, k - 1);
      var w := Walk(segs, rng, k - 1);
      if w.DeadEnd? {
        var j :| 0 <= j < k - 1 && Walk(segs, rng, j).Went? && Lookup(segs[j % 3], Walk(segs, rng, j).prev).None?;
        assert 0 <= j < k;
      } else if Lookup(segs[(k - 1) % 3], w.prev).None? {
        assert 0 <= k - 1 < k;
      } else {
        forall j | 0 <= j < k && Walk(segs, rng, j).Went?
          ensures Lookup(segs[j % 3], Walk(segs, rng, j).prev).Some?
        {
          if j < k - 1 {
            assert !(Walk(segs, rng, j).Went? && Lookup(segs[j % 3], Walk(segs, rng, j).prev).None?);
          }
        }
      }
    }
  }

  /**
   * Every segment of a completed walk was seen in the corpus after the key
   * in force when it was drawn: it is a candidate with a positive count in
   * the frequency table of that key, in the table of its kind.
   */
  lemma {:induction false} WalkFollowsChain(segs: seq<Chain>, rng: (nat, nat) -> nat, k: nat)
    requires ChainsOk(segs) && RangeOk(rng)
    requires Walk(segs, rng, k).Went?
    ensures var drawn := Walk(segs, rng, k).drawn;
            forall j | 0 <= j < k ::
              && Lookup(segs[j % 3], KeyAfter(None, drawn[..j])).Some?
              && Count(Lookup(segs[j % 3], KeyAfter(None, drawn[..j])).value, drawn[j]) > 0
  {
    var drawn := Walk(segs, rng, k).drawn;
    forall j | 0 <= j < k
      ensures Lookup(segs[j % 3], KeyAfter(None, drawn[..j])).Some?
      ensures Count(Lookup(segs[j % 3], KeyAfter(None, drawn[..j])).value, drawn[j]) > 0
    {
      WalkStep(segs, rng, j, k);
    }
  }

  /** Step `j` of a walk that got through `k > j` steps. */
  lemma {:induction false} WalkStep(segs: seq<Chain>, rng: (nat, nat) -> nat, j: nat, k: nat)
    requires ChainsOk(segs) && RangeOk(rng)
    requires j < k && Walk(segs, rng, k).Went?
    ensures var drawn := Walk(segs, rng, k).drawn;
            && Lookup(segs[j % 3], KeyAfter(None, drawn[..j])).Some?
            && Count(Lookup(segs[j % 3], KeyAfter(None, drawn[..j])).value, drawn[j]) > 0
  {
    var drawn := Walk(segs, rng, k).drawn;
    WalkPrefix(segs, rng, j + 1, k);
    WalkPrefix(segs, rng, j, k);
    var w := Walk(segs, rng, j);
    WalkKey(segs, rng, j);
    assert w.drawn == drawn[..j];
    var freqs := Lookup(segs[j % 3], w.prev).value;
    PickIsKey(freqs, rng(j, Total(freqs)));
    assert drawn[..j + 1][j] == drawn[j];
  }

  // ---------------------------------------------------------------------
  // The result.

  /**
   * `generate_name` returns `None` exactly on a dead end or when the
   * concatenation of the `3 * numSyllables` drawn segments has 11 or more
   * characters; otherwise it returns that concatenation title-cased, which
   * has at most 10 characters.
   */
  lemma {:induction false} GenerateResult(segs: seq<Chain>, rng: (nat, nat) -> nat, numSyllables: int)
    requires ChainsOk(segs) && RangeOk(rng)
    ensures var w := Walk(segs, rng, Steps(numSyllables));
            Generate(segs, rng, numSyllables).None? <==> w.DeadEnd? || |Concat(w.drawn)| >= MaxLength
    ensures var w := Walk(segs, rng, Steps(numSyllables));
            Generate(segs, rng, numSyllables).Some? ==>
              && |w.drawn| == Steps(numSyllables)
              && Generate(segs, rng, numSyllables).value == Title(Concat(w.drawn))
              && |Generate(segs, rng, numSyllables).value| < MaxLength
  {
  }

  /** With no syllables to draw, the name is the empty string. */
  lemma {:induction false} GenerateNoSyllables(segs: seq<Chain>, rng: (nat, nat) -> nat, numSyllables: int)
    requires ChainsOk(segs) && RangeOk(rng)
    requires numSyllables <= 0
    ensures Generate(segs, rng, numSyllables) == Some("")
  {
    assert Concat([]) == [];
  }

  // ---------------------------------------------------------------------
  // The driver: the syllable count and which results are kept.

  /** The syllable count the driver asks for: never below two. */
  function Clamp(n: int): (r: int)
    ensures r >= 2
    ensures n >= 2 ==> r == n
    ensures n < 2 ==> r == 2
  {
    if n < 2 then 2 else n
  }

  /**
   * `get_key(nums_syllables)` raised to at least 2, or `None` where
   * `randrange(0)` raises because no line was learned.
   */
  function SyllablesToGenerate(nums: Freq<int>, index: nat): (r: Option<int>)
    requires Total(nums) == 0 || index < Total(nums)
    ensures r.None? <==> Total(nums) == 0
  {
    if Total(nums) == 0 then None else Some(Clamp(Pick(nums, index)))
  }

  /**
   * The count is at least two and comes from a syllable count seen in the
   * corpus: it is that count, or two when that count is one.
   */
  lemma {:induction false} SyllablesToGenerateSeen(nums: Freq<int>, index: nat)
    requires Distinct(nums) && forall i | 0 <= i < |nums| :: nums[i].key >= 1
    requires 0 < Total(nums) && index < Total(nums)
    ensures var r := SyllablesToGenerate(nums, index);
            && r.Some? && r.value >= 2
            && (Count(nums, r.value) > 0 || (r.value == 2 && Count(nums, 1) > 0))
  {
    var i := PickLands(nums, index);
    PickIsKey(nums, index);
  }

  /** A corpus of single-syllable words only still yields two-syllable names. */
  lemma {:induction false} OnlyMonosyllables(nums: Freq<int>, index: nat)
    requires nums == [Entry(1, 5)] && index < 5
    ensures SyllablesToGenerate(nums, index) == Some(2)
  {
    assert Total(nums) == 5;
  }

  /** The driver keeps a result only when it is truthy: present and not empty. */
  predicate Accepted(name: Option<string>)
    ensures Accepted(name) ==> name.Some? && |name.value| >= 1
  {
    name.Some? && name.value != ""
  }

  /** A kept name has between one and ten characters. */
  lemma {:induction false} AcceptedLength(segs: seq<Chain>, rng: (nat, nat) -> nat, numSyllables: int)
    requires ChainsOk(segs) && RangeOk(rng)
    requires Accepted(Generate(segs, rng, numSyllables))
    ensures 1 <= |Generate(segs, rng, numSyllables).value| < MaxLength
  {
    GenerateResult(segs, rng, numSyllables);
  }
}
