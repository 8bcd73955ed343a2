/**
 * A frequency table: a Python dict from a candidate to its occurrence
 * count, kept as the list of its items in insertion order, which is the
 * order `get_key` walks.
 */
module Frequencies {

  datatype Entry<K> = Entry(key: K, count: nat)

  type Freq<K> = seq<Entry<K>>

  /** No key appears twice, as in a dict. */
  ghost predicate Distinct<K>(t: Freq<K>) {
    forall i, j | 0 <= i < j < |t| :: t[i].key != t[j].key
  }

  /** Every count is at least one. */
  ghost predicate Positive<K>(t: Freq<K>) {
    forall i | 0 <= i < |t| :: t[i].count >= 1
  }

  /** `sum(dictionary.values())`. */
  function Total<K>(t: Freq<K>): nat
  {
    if t == [] then 0 else t[0].count + Total(t[1..])
  }

  /** The position of `k`, or `|t|` when `k` is not a key. */
  function Find<K(==)>(t: Freq<K>, k: K): (i: nat)
    ensures i <= |t|
    ensures i < |t| ==> t[i].key == k
    ensures forall j | 0 <= j < i :: t[j].key != k
  {
    if t == [] then 0
    else if t[0].key == k then 0
    else 1 + Find(t[1..], k)
  }

  /** `dictionary.get(k, 0)`. */
  function Count<K(==)>(t: Freq<K>, k: K): nat {
    var i := Find(t, k);
    if i < |t| then t[i].count else 0
  }

  /**
   * `if k in t: t[k] += 1 else: t[k] = 1`. The count of `k` goes up by one
   * and every other count stays; an existing key keeps its position and a
   * new key is appended at the end.
   */
  function Increment<K(==,!new)>(t: Freq<K>, k: K): (r: Freq<K>)
    ensures Count(r, k) == Count(t, k) + 1
    ensures forall k' | k' != k :: Count(r, k') == Count(t, k')
    ensures Find(t, k) < |t| ==> |r| == |t|
    ensures Find(t, k) == |t| ==> r == t + [Entry(k, 1)]
    ensures forall i | 0 <= i < |t| :: r[i].key == t[i].key
    ensures Total(r) == Total(t) + 1
    ensures Distinct(t) ==> Distinct(r)
    ensures Positive(t) ==> Positive(r)
  {
    var i := Find(t, k);
    if i < |t| then
      TotalUpdate(t, i, Entry(k, t[i].count + 1));
      var r := t[i := Entry(k, t[i].count + 1)];
      SameKeysSameFind(t, r);
      r
    else
      TotalAppend(t, Entry(k, 1));
      var r := t + [Entry(k, 1)];
      assert forall k' | k' != k :: Count(r, k') == Count(t, k') by {
        forall k' | k' != k ensures Count(r, k') == Count(t, k') {
          FindAppend(t, Entry(k, 1), k');
        }
      }
      FindAppend(t, Entry(k, 1), k);
      r
  }

  lemma {:induction false} TotalUpdate<K>(t: Freq<K>, i: nat, e: Entry<K>)
    requires i < |t|
    ensures Total(t[i := e]) == Total(t) - t[i].count + e.count
  {
    if i > 0 {
      TotalUpdate(t[1..], i - 1, e);
      assert t[i := e][1..] == t[1..][i - 1 := e];
    }
  }

  lemma {:induction false} TotalAppend<K>(t: Freq<K>, e: Entry<K>)
    ensures Total(t + [e]) == Total(t) + e.count
  {
    if t != [] {
      TotalAppend(t[1..], e);
      assert (t + [e])[1..] == t[1..] + [e];
    }
  }

  lemma {:induction false} TotalConcat<K>(a: Freq<K>, b: Freq<K>)
    ensures Total(a + b) == Total(a) + Total(b)
  {
    if a != [] {
      assert (a + b)[0] == a[0];
      TotalConcat(a[1..], b);
      assert (a + b)[1..] == a[1..] + b;
    } else {
      assert a + b == b;
    }
  }

  /** The sum is zero exactly when every count is zero. */
  lemma {:induction false} TotalZero<K>(t: Freq<K>)
    ensures Total(t) == 0 <==> forall i | 0 <= i < |t| :: t[i].count == 0
  {
    if t != [] {
      TotalZero(t[1..]);
      assert forall i | 1 <= i < |t| :: t[1..][i - 1] == t[i];
    }
  }

  lemma {:induction false} SameKeysSameFind<K>(t: Freq<K>, r: Freq<K>)
    requires |t| == |r| && forall i | 0 <= i < |t| :: r[i].key == t[i].key
    ensures forall k :: Find(r, k) == Find(t, k)
  {
    if t != [] {
      SameKeysSameFind(t[1..], r[1..]);
    }
  }

  lemma {:induction false} FindAppend<K>(t: Freq<K>, e: Entry<K>, k: K)
    ensures Find(t + [e], k) ==
            if Find(t, k) < |t| then Find(t, k) else if e.key == k then |t| else |t| + 1
  {
    if t != [] {
      assert (t + [e])[0] == t[0];
      FindAppend(t[1..], e, k);
      assert (t + [e])[1..] == t[1..] + [e];
    }
  }

  /**
   * The walk of `get_key` for a drawn index: the first key whose running
   * sum of counts exceeds the index.
   */
  function Pick<K>(t: Freq<K>, index: nat): (k: K)
    requires index < Total(t)
  {
    if index < t[0].count then t[0].key else Pick(t[1..], index - t[0].count)
  }

  /** The counts before position `i`. */
  function Before<K>(t: Freq<K>, i: nat): nat
    requires i <= |t|
  {
    Total(t[..i])
  }

  lemma {:induction false} BeforeStep<K>(t: Freq<K>, i: nat)
    requires i < |t|
    ensures Before(t, i + 1) == Before(t, i) + t[i].count
    ensures Before(t, |t|) == Total(t)
  {
    assert t[..i + 1] == t[..i] + [t[i]];
    TotalAppend(t[..i], t[i]);
    assert t[..|t|] == t;
  }

  /** The index picks position `i` exactly when it lies in `i`'s slice of the running sum. */
  lemma {:induction false} PickAt<K>(t: Freq<K>, index: nat, i: nat)
    requires i < |t| && Before(t, i) <= index < Before(t, i) + t[i].count
    ensures index < Total(t) && Pick(t, index) == t[i].key
  {
    BeforeStep(t, i);
    assert t[..|t|] == t[..i + 1] + t[i + 1..];
    TotalConcat(t[..i + 1], t[i + 1..]);
    if i > 0 {
      assert t[..i] == [t[0]] + t[1..][..i - 1];
      PickAt(t[1..], index - t[0].count, i - 1);
    }
  }

  /** Every index below the total lands in the slice of some position. */
  lemma {:induction false} PickLands<K>(t: Freq<K>, index: nat) returns (i: nat)
    requires index < Total(t)
    ensures i < |t| && Before(t, i) <= index < Before(t, i) + t[i].count
    ensures Pick(t, index) == t[i].key
  {
    if index < t[0].count {
      i := 0;
    } else {
      var j := PickLands(t[1..], index - t[0].count);
      i := j + 1;
      assert t[..i] == [t[0]] + t[1..][..j];
    }
  }

  /** A picked key is a key of the table with a positive count. */
  lemma {:induction false} PickIsKey<K>(t: Freq<K>, index: nat)
    requires index < Total(t) && Distinct(t)
    ensures Count(t, Pick(t, index)) > 0
  {
    var i := PickLands(t, index);
    var k := Pick(t, index);
    assert Find(t, k) == i;
  }

  /** The index values `0 .. Total(t)-1` that pick `k`. */
  ghost function Preimage<K>(t: Freq<K>, k: K): set<nat> {
    set index: nat | index < Total(t) && Pick(t, index) == k
  }

  /** Each key is picked by exactly as many index values as its count. */
  lemma {:induction false} PickPreimage<K>(t: Freq<K>, k: K)
    requires Distinct(t)
    ensures |Preimage(t, k)| == Count(t, k)
  {
    var i := Find(t, k);
    if i < |t| {
      BeforeStep(t, i);
      var lo, hi := Before(t, i), Before(t, i) + t[i].count;
      forall index: nat | lo <= index < hi ensures index in Preimage(t, k) {
        PickAt(t, index, i);
      }
      forall index | index in Preimage(t, k) ensures lo <= index < hi {
        var j := PickLands(t, index);
      }
      assert Preimage(t, k) == Range(lo, hi);
    } else {
      forall index | index in Preimage(t, k) ensures false {
        var j := PickLands(t, index);
      }
      assert Preimage(t, k) == {};
    }
  }

  /** The set `{lo, .., hi - 1}`. */
  ghost function Range(lo: nat, hi: nat): (r: set<nat>)
    ensures forall x :: x in r <==> lo <= x < hi
    ensures lo <= hi ==> |r| == hi - lo
    decreases hi - lo
  {
    if lo < hi then {lo} + Range(lo + 1, hi) else {}
  }
}
