/**
 * One of the three transition tables `segments[t]`: a dict from the
 * predecessor key (`None` at the start of a word, otherwise the last
 * non-empty segment) to the frequency table of the segments that followed it.
 */
module Chains {
  import opened Wrappers
  import opened Frequencies

  datatype Row = Row(prev: Option<string>, next: Freq<string>)

  type Chain = seq<Row>

  /** A predecessor key the learner can produce: `None` or a non-empty segment. */
  predicate IsKey(prev: Option<string>) {
    prev.None? || prev.value != ""
  }

  /**
   * The invariant the learned tables keep: keys are distinct and never `""`,
   * and each inner table is a non-empty dict with counts of at least one.
   */
  ghost predicate ChainOk(ch: Chain) {
    && (forall i, j | 0 <= i < j < |ch| :: ch[i].prev != ch[j].prev)
    && (forall i | 0 <= i < |ch| ::
          IsKey(ch[i].prev) && ch[i].next != [] && Distinct(ch[i].next) && Positive(ch[i].next))
  }

  /** The three tables, onset, nucleus and coda, each keeping `ChainOk`. */
  ghost predicate ChainsOk(segs: seq<Chain>) {
    |segs| == 3 && forall t | 0 <= t < 3 :: ChainOk(segs[t])
  }

  function FindRow(ch: Chain, prev: Option<string>): (i: nat)
    ensures i <= |ch|
    ensures i < |ch| ==> ch[i].prev == prev
    ensures forall j | 0 <= j < i :: ch[j].prev != prev
  {
    if ch == [] then 0
    else if ch[0].prev == prev then 0
    else 1 + FindRow(ch[1..], prev)
  }

  /**
   * `ch[prev]`, or `None` where Python raises `KeyError`. A key found in a
   * table that keeps `ChainOk` has a frequency table with a positive total.
   */
  function Lookup(ch: Chain, prev: Option<string>): (r: Option<Freq<string>>)
    ensures r.None? <==> forall i | 0 <= i < |ch| :: ch[i].prev != prev
    ensures r.Some? ==> exists i | 0 <= i < |ch| :: ch[i].prev == prev && r.value == ch[i].next
    ensures r.Some? && ChainOk(ch) ==>
              Total(r.value) > 0 && Distinct(r.value) && Positive(r.value)
  {
    var i := FindRow(ch, prev);
    if i < |ch| then Some(ch[i].next) else None
  }

  /** `sum` over every predecessor key of its frequency table's total. */
  function ChainTotal(ch: Chain): nat {
    if ch == [] then 0 else Total(ch[0].next) + ChainTotal(ch[1..])
  }

  /**
   * One observation `prev -> seg`: create `ch[prev] = {}` if `prev` is new,
   * then increment `ch[prev][seg]`. The table gains exactly one count and
   * keeps its invariant; `BumpLookup` says which entry changes.
   */
  function Bump(ch: Chain, prev: Option<string>, seg: string): (r: Chain)
    ensures ChainTotal(r) == ChainTotal(ch) + 1
    ensures ChainOk(ch) && IsKey(prev) ==> ChainOk(r)
  {
    var i := FindRow(ch, prev);
    if i < |ch| then
      var r := ch[i := Row(prev, Increment(ch[i].next, seg))];
      ChainTotalUpdate(ch, i, r[i]);
      r
    else
      var r := ch + [Row(prev, Increment([], seg))];
      ChainTotalAppend(ch, r[|ch|]);
      r
  }

  /**
   * Only the frequency table under `prev` changes, and it changes by one
   * increment of `seg` (starting from `{}` when `prev` was new).
   */
  lemma {:induction false} BumpLookup(ch: Chain, prev: Option<string>, seg: string)
    ensures Lookup(Bump(ch, prev, seg), prev) ==
            Some(Increment(match Lookup(ch, prev) case Some(f) => f case None => [], seg))
    ensures forall p | p != prev :: Lookup(Bump(ch, prev, seg), p) == Lookup(ch, p)
  {
    var r := Bump(ch, prev, seg);
    if FindRow(ch, prev) < |ch| {
      SamePrevsSameFind(ch, r);
    } else {
      FindRowAppend(ch, r[|ch|], prev);
      forall p | p != prev ensures Lookup(r, p) == Lookup(ch, p) {
        FindRowAppend(ch, r[|ch|], p);
      }
    }
  }

  /** A key the table does not have gets a new last row holding the segment once. */
  lemma {:induction false} BumpNew(ch: Chain, prev: Option<string>, seg: string)
    requires forall i | 0 <= i < |ch| :: ch[i].prev != prev
    ensures Bump(ch, prev, seg) == ch + [Row(prev, [Entry(seg, 1)])]
  {
    assert FindRow(ch, prev) == |ch|;
    assert Find([], seg) == 0;
    assert [] + [Entry(seg, 1)] == [Entry(seg, 1)];
  }

  lemma {:induction false} ChainTotalUpdate(ch: Chain, i: nat, row: Row)
    requires i < |ch|
    ensures ChainTotal(ch[i := row]) == ChainTotal(ch) - Total(ch[i].next) + Total(row.next)
  {
    if i > 0 {
      ChainTotalUpdate(ch[1..], i - 1, row);
      assert ch[i := row][1..] == ch[1..][i - 1 := row];
    }
  }

  lemma {:induction false} ChainTotalAppend(ch: Chain, row: Row)
    ensures ChainTotal(ch + [row]) == ChainTotal(ch) + Total(row.next)
  {
    if ch != [] {
      assert (ch + [row])[0] == ch[0];
      ChainTotalAppend(ch[1..], row);
      assert (ch + [row])[1..] == ch[1..] + [row];
    }
  }

  lemma {:induction false} SamePrevsSameFind(ch: Chain, r: Chain)
    requires |ch| == |r| && forall i | 0 <= i < |ch| :: r[i].prev == ch[i].prev
    ensures forall p :: FindRow(r, p) == FindRow(ch, p)
  {
    if ch != [] {
      SamePrevsSameFind(ch[1..], r[1..]);
    }
  }

  lemma {:induction false} FindRowAppend(ch: Chain, row: Row, p: Option<string>)
    ensures FindRow(ch + [row], p) ==
            if FindRow(ch, p) < |ch| then FindRow(ch, p) else if row.prev == p then |ch| else |ch| + 1
  {
    if ch != [] {
      assert (ch + [row])[0] == ch[0];
      FindRowAppend(ch[1..], row, p);
      assert (ch + [row])[1..] == ch[1..] + [row];
    }
  }

  /** The key rule shared by learning and generation: only a non-empty segment replaces the key. */
  function Advance(prev: Option<string>, seg: string): (r: Option<string>)
    ensures IsKey(prev) ==> IsKey(r)
    ensures r != prev ==> r == Some(seg) && seg != ""
  {
    if seg != "" then Some(seg) else prev
  }

  /** The key after a run of segments, one `Advance` per segment. */
  function KeyAfter(prev: Option<string>, segs: seq<string>): (r: Option<string>)
    ensures IsKey(prev) ==> IsKey(r)
  {
    if segs == [] then prev
    else Advance(KeyAfter(prev, segs[..|segs| - 1]), segs[|segs| - 1])
  }

  /** The position of the last non-empty segment, or -1 when there is none. */
  function LastNonEmpty(segs: seq<string>): (i: int)
    ensures -1 <= i < |segs|
    ensures i >= 0 ==> segs[i] != ""
    ensures forall j | i < j < |segs| :: segs[j] == ""
  {
    if segs == [] then -1
    else if segs[|segs| - 1] != "" then |segs| - 1
    else LastNonEmpty(segs[..|segs| - 1])
  }

  /** The key after a run is its last non-empty segment, or the key before it. */
  lemma {:induction false} KeyAfterIsLastNonEmpty(prev: Option<string>, segs: seq<string>)
    ensures KeyAfter(prev, segs) == if LastNonEmpty(segs) < 0 then prev else Some(segs[LastNonEmpty(segs)])
  {
    if segs != [] {
      KeyAfterIsLastNonEmpty(prev, segs[..|segs| - 1]);
    }
  }

  lemma {:induction false} KeyAfterConcat(prev: Option<string>, a: seq<string>, b: seq<string>)
    ensures KeyAfter(prev, a + b) == KeyAfter(KeyAfter(prev, a), b)
    decreases |b|
  {
    if b == [] {
      assert a + b == a;
    } else {
      assert (a + b)[..|a + b| - 1] == a + b[..|b| - 1];
      KeyAfterConcat(prev, a, b[..|b| - 1]);
    }
  }
}
