/** Extraction windows over an ordered identifier list.

    Every extract script takes `ids[start:start + limit]` (a Python slice,
    which clamps out-of-range bounds instead of failing), computes the
    inclusive last index `end = start + len(window) - 1`, and names its
    output shard `<prefix>_<start>_<end>.jsonl`. The item-batch scraper then
    cuts its window into consecutive batches of `batch_size`.
 */
module Windows {
  import opened Wrappers
  import Text
  import Decimal

  /** How Python normalises one slice bound against a sequence of length `n`:
      a negative bound counts from the end, then the bound is clamped into
      `[0, n]`. */
  function ClampBound(i: int, n: nat): (c: nat)
    ensures c <= n
    ensures 0 <= i <= n ==> c == i
    ensures i > n ==> c == n
  {
    if i < 0 then (if i + n < 0 then 0 else i + n)
    else if i > n then n
    else i
  }

  /** Python `s[lo:hi]` (step 1): never fails; an empty result when the
      normalised bounds cross. */
  function PySlice<T>(s: seq<T>, lo: int, hi: int): seq<T> {
    var a := ClampBound(lo, |s|);
    var b := ClampBound(hi, |s|);
    if a < b then s[a..b] else []
  }

  /** `ids[start:start + limit]`. */
  function Window<T>(ids: seq<T>, start: int, limit: int): seq<T> {
    PySlice(ids, start, start + limit)
  }

  /** `end = start + len(window) - 1`: the inclusive index of the window's
      last element (`start - 1` for an empty window). */
  function WindowEnd(start: int, count: nat): int {
    start + count - 1
  }

  /** For a non-negative start and limit the window holds exactly the ids
      at positions `start, start + 1, ...`, as many as exist up to `limit`,
      so `end` is the index of its last element. */
  lemma WindowContents<T>(ids: seq<T>, start: int, limit: int)
    requires start >= 0 && limit >= 0
    ensures |Window(ids, start, limit)| == if start >= |ids| then 0 else Min(limit, |ids| - start)
    ensures forall k :: 0 <= k < |Window(ids, start, limit)| ==> Window(ids, start, limit)[k] == ids[start + k]
    ensures Window(ids, start, limit) != [] ==> ids[WindowEnd(start, |Window(ids, start, limit)|)] == Window(ids, start, limit)[|Window(ids, start, limit)| - 1]
  {
  }

  function Min(a: int, b: int): int {
    if a <= b then a else b
  }

  /** Adjacent windows concatenate to the window that covers both, which is
      what lets shards of one id list be produced in separate runs and merged
      by concatenation. */
  lemma WindowsConcatenate<T>(ids: seq<T>, start: int, a: int, b: int)
    requires start >= 0 && a >= 0 && b >= 0
    ensures Window(ids, start, a) + Window(ids, start + a, b) == Window(ids, start, a + b)
  {
    WindowContents(ids, start, a);
    WindowContents(ids, start + a, b);
    WindowContents(ids, start, a + b);
    var w1 := Window(ids, start, a);
    var w2 := Window(ids, start + a, b);
    var w := Window(ids, start, a + b);
    assert |w1 + w2| == |w|;
    forall k | 0 <= k < |w| ensures (w1 + w2)[k] == w[k] {
      if k >= |w1| {
        assert |w1| == a;
      }
    }
  }

  // ---------------------------------------------------------------------
  // Shard names

  /** `f"{prefix}_{start}_{end}.jsonl"`. */
  function ShardName(prefix: string, start: int, end: int): string {
    prefix + "_" + Decimal.IntToString(start) + "_" + Decimal.IntToString(end) + ".jsonl"
  }

  /** Reads the index range back out of a shard name with a known prefix. */
  function ParseShardName(prefix: string, name: string): Option<(int, int)> {
    if !Text.StartsWith(name, prefix + "_") || !Text.EndsWith(name, ".jsonl") || |name| < |prefix| + 1 + 6 then None
    else
      var parts := Text.Split(name[|prefix| + 1..|name| - 6], '_');
      if |parts| != 2 then None
      else
        var a :- Decimal.ParseInt(parts[0]);
        var b :- Decimal.ParseInt(parts[1]);
        Some((a, b))
  }

  lemma NoUnderscore(n: int)
    ensures '_' !in Decimal.IntToString(n)
  {
    var a := Decimal.IntToString(n);
    forall i | 0 <= i < |a| ensures a[i] != '_' {
    }
  }

  /** A shard name determines its inclusive index range. */
  lemma ShardNameRoundTrip(prefix: string, start: int, end: int)
    ensures ParseShardName(prefix, ShardName(prefix, start, end)) == Some((start, end))
  {
    var a := Decimal.IntToString(start);
    var b := Decimal.IntToString(end);
    var name := ShardName(prefix, start, end);
    var mid := a + "_" + b;
    assert name == (prefix + "_") + mid + ".jsonl";
    assert Text.StartsWith(name, prefix + "_");
    assert Text.EndsWith(name, ".jsonl");
    assert name[|prefix| + 1..|name| - 6] == mid;
    assert Text.JoinWith([a, b], '_') == mid;
    NoUnderscore(start);
    NoUnderscore(end);
    Text.SplitJoin([a, b], '_');
    assert Text.Split(mid, '_') == [a, b];
    Decimal.ParseIntToString(start);
    Decimal.ParseIntToString(end);
  }

  /** The worked example of a window: ids 10 to 14 of a 20-element list. */
  lemma TenToFourteen<T>(ids: seq<T>)
    requires |ids| == 20
    ensures Window(ids, 10, 5) == ids[10..15]
    ensures WindowEnd(10, |Window(ids, 10, 5)|) == 14
    ensures ShardName("data", 10, WindowEnd(10, |Window(ids, 10, 5)|)) == "data_10_14.jsonl"
  {
  }

  // ---------------------------------------------------------------------
  // Batches

  function Flatten<T>(bs: seq<seq<T>>): seq<T> {
    if bs == [] then [] else bs[0] + Flatten(bs[1..])
  }

  /** Flattening the images of a list peels off its first element's. */
  lemma FlattenMapCons<A, T>(xs: seq<A>, f: A -> seq<T>)
    requires xs != []
    ensures Flatten(Map(xs, f)) == f(xs[0]) + Flatten(Map(xs[1..], f))
  {
    assert Map(xs, f)[1..] == Map(xs[1..], f);
  }

  lemma MulSucc(a: int, d: int)
    ensures (a + 1) * d == a * d + d
  {
  }

  lemma {:induction false} MulMonotone(a: int, b: int, d: int)
    requires d > 0 && a <= b
    ensures a * d <= b * d
    decreases b - a
  {
    if a < b {
      MulMonotone(a + 1, b, d);
      MulSucc(a, d);
    }
  }

  /** Euclidean division has one quotient. */
  lemma DivUnique(n: int, d: int, q: int, r: int)
    requires d > 0 && 0 <= r < d && n == q * d + r
    ensures n / d == q
  {
    var q' := n / d;
    var r' := n % d;
    assert n == q' * d + r';
    if q' > q {
      MulMonotone(q + 1, q', d);
      MulSucc(q, d);
    } else if q' < q {
      MulMonotone(q' + 1, q, d);
      MulSucc(q', d);
    }
  }

  lemma DivStep(m: nat, size: nat)
    requires size > 0
    ensures (m + size) / size == m / size + 1
  {
    var q := m / size;
    var r := m % size;
    assert m == q * size + r;
    MulSucc(q, size);
    DivUnique(m + size, size, q + 1, r);
  }

  /** Consecutive pieces of `size` elements; only the last may be shorter. */
  function Batches<T>(s: seq<T>, size: nat): (bs: seq<seq<T>>)
    requires size > 0
    ensures Flatten(bs) == s
    ensures forall i :: 0 <= i < |bs| ==> 0 < |bs[i]| <= size
    ensures forall i :: 0 <= i < |bs| - 1 ==> |bs[i]| == size
    decreases |s|
  {
    if |s| == 0 then []
    else if |s| <= size then
      assert Flatten([s]) == s + Flatten([]);
      [s]
    else
      var rest := Batches(s[size..], size);
      var bs := [s[..size]] + rest;
      assert bs[1..] == rest;
      assert s == s[..size] + s[size..];
      bs
  }

  /** There are `ceil(len(s) / size)` batches, as many as `range(0, len(s), size)` has steps. */
  lemma {:induction false} BatchCount<T>(s: seq<T>, size: nat)
    requires size > 0
    ensures |Batches(s, size)| == (|s| + size - 1) / size
    decreases |s|
  {
    if |s| == 0 {
      DivUnique(size - 1, size, 0, size - 1);
    } else if |s| <= size {
      DivUnique(|s| + size - 1, size, 1, |s| - 1);
    } else {
      BatchCount(s[size..], size);
      DivStep(|s| - 1, size);
    }
  }


  /** Dropping the first `size` elements shifts every later slice by `size`. */
  lemma SliceShift<T>(s: seq<T>, size: nat, prev: int, m: int)
    requires size <= |s| && 0 <= prev && m == prev + size
    ensures PySlice(s, m, m + size) == PySlice(s[size..], prev, m)
  {
    var a := ClampBound(m, |s|);
    var b := ClampBound(m + size, |s|);
    if a < b {
      assert s[a..b] == s[size..][a - size..b - size];
    }
  }

  lemma LaterBatch<T>(s: seq<T>, size: nat, k: nat, prev: int, m: int)
    requires size > 0 && |s| > size && 0 < k < |Batches(s, size)| && 0 <= prev && m == prev + size
    requires Batches(s[size..], size)[k - 1] == PySlice(s[size..], prev, m)
    ensures Batches(s, size)[k] == PySlice(s, m, m + size)
  {
    LaterBatchIndex(s, size, k);
    SliceShift(s, size, prev, m);
  }

  lemma LaterBatchIndex<T>(s: seq<T>, size: nat, k: nat)
    requires size > 0 && |s| > size && 0 < k < |Batches(s, size)|
    ensures k - 1 < |Batches(s[size..], size)|
    ensures Batches(s, size)[k] == Batches(s[size..], size)[k - 1]
  {
    BatchesStep(s, size);
  }

  lemma BatchesStep<T>(s: seq<T>, size: nat)
    requires size > 0 && |s| > size
    ensures Batches(s, size) == [s[..size]] + Batches(s[size..], size)
  {
  }

  /** Batch `k` is the slice the source's loop takes at `i = k * size`. */
  lemma {:induction false} BatchIsSlice<T>(s: seq<T>, size: nat, k: nat)
    requires size > 0 && k < |Batches(s, size)|
    ensures Batches(s, size)[k] == PySlice(s, k * size, k * size + size)
    decreases k
  {
    if k > 0 {
      assert |s| > size;
      BatchesStep(s, size);
      BatchIsSlice(s[size..], size, k - 1);
      MulSucc(k - 1, size);
      MulMonotone(1, k, size);
      var prev := (k - 1) * size;
      var m := k * size;
      assert m == prev + size;
      assert Batches(s[size..], size)[k - 1] == PySlice(s[size..], prev, m);
      LaterBatch(s, size, k, prev, m);
      assert Batches(s, size)[k] == PySlice(s, m, m + size);
    } else {
      FirstBatch(s, size);
    }
  }

  lemma FirstBatch<T>(s: seq<T>, size: nat)
    requires size > 0 && |s| > 0
    ensures Batches(s, size)[0] == PySlice(s, 0, size)
  {
    if |s| > size {
      BatchesStep(s, size);
    }
  }

  /** The batches are exactly the slices the source's loop takes:
      `s[i:i + size]` for `i` in `range(0, len(s), size)`. */
  lemma BatchesAreSlices<T>(s: seq<T>, size: nat)
    requires size > 0
    ensures forall k :: 0 <= k < |Batches(s, size)| ==> Batches(s, size)[k] == PySlice(s, k * size, k * size + size)
  {
    forall k | 0 <= k < |Batches(s, size)| ensures Batches(s, size)[k] == PySlice(s, k * size, k * size + size) {
      BatchIsSlice(s, size, k);
    }
  }
}
