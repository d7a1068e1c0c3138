/** The batch boundaries of `process_batches`: `np.arange(begin, end, batchsize)`
    with `end` appended, and the default end used when `end == -1`. */
module Batches {
  import opened Slicing

  /** ceil(a / b) for a non-zero divisor (Dafny's `/` is Euclidean). */
  function CeilDiv(a: int, b: int): int
    requires b != 0
  {
    if b > 0 then (a + b - 1) / b else (-a - b - 1) / (-b)
  }

  /** Number of values of `np.arange(start, stop, step)` for integer arguments:
      ceil((stop - start) / step), or 0 when that is not positive. */
  function ArangeLen(start: int, stop: int, step: int): nat
    requires step != 0
  {
    var n := CeilDiv(stop - start, step);
    if n > 0 then n else 0
  }

  /** `np.arange(start, stop, step)` on integers: start, start + step, ...
      while the value stays on the near side of stop. */
  function Arange(start: int, stop: int, step: int): (r: seq<int>)
    requires step != 0
    ensures |r| == ArangeLen(start, stop, step)
    decreases if step > 0 then stop - start else start - stop
  {
    ArangeLenStep(start, stop, step);
    if (step > 0 && start < stop) || (step < 0 && start > stop) then
      [start] + Arange(start + step, stop, step)
    else
      []
  }

  /** Taking the first value off the progression shortens it by one. */
  lemma ArangeLenStep(start: int, stop: int, step: int)
    requires step != 0
    ensures (step > 0 && start < stop) || (step < 0 && start > stop) ==>
      ArangeLen(start, stop, step) == 1 + ArangeLen(start + step, stop, step)
    ensures !((step > 0 && start < stop) || (step < 0 && start > stop)) ==>
      ArangeLen(start, stop, step) == 0
  {
    var s := if step > 0 then step else -step;
    var d := if step > 0 then stop - start else start - stop;
    assert CeilDiv(stop - start, step) == (d + s - 1) / s;
    assert CeilDiv(stop - start - step, step) == (d - s + s - 1) / s;
    CeilDivBounds(d, s);
    if d > 0 {
      var q, m := (d - 1) / s, (d - 1) % s;
      assert d - 1 == q * s + m && 0 <= m < s;
      assert q >= 0;
      assert (q + 1) * s == q * s + s;
      DivUnique(d + s - 1, s, q + 1, m);
    }
  }

  /** `np.arange` lists the progression start + i * step. */
  lemma {:induction false} ArangeElements(start: int, stop: int, step: int)
    requires step != 0
    ensures forall i :: 0 <= i < |Arange(start, stop, step)| ==> Arange(start, stop, step)[i] == start + i * step
    decreases if step > 0 then stop - start else start - stop
  {
    if (step > 0 && start < stop) || (step < 0 && start > stop) {
      ArangeElements(start + step, stop, step);
      var r := Arange(start, stop, step);
      forall i | 1 <= i < |r|
        ensures r[i] == start + i * step
      {
        assert r[i] == Arange(start + step, stop, step)[i - 1];
        assert (i - 1) * step + step == i * step;
      }
    }
  }

  /** The end index used by `process_batches`: -1 stands for `len(app_list) + 1`. */
  function EffectiveEnd(end: int, len: nat): (r: int)
    ensures end != -1 ==> r == end
    ensures end == -1 ==> r > len
  {
    if end == -1 then len + 1 else end
  }

  /** Slicing up to the default end selects the same rows as slicing to the
      end of the list. */
  lemma DefaultEndSlicesToEnd(len: nat, start: int)
    ensures Window(len, start, EffectiveEnd(-1, len)) == Window(len, start, len)
  {
  }

  /** `np.append(np.arange(begin, end, batchsize), end)`. */
  function Boundaries(begin: int, end: int, batchsize: int): (b: seq<int>)
    requires batchsize != 0
    ensures |b| == ArangeLen(begin, end, batchsize) + 1
    ensures b[|b| - 1] == end
  {
    Arange(begin, end, batchsize) + [end]
  }

  lemma MulMonotone(a: int, b: int, s: int)
    requires a <= b && 0 <= s
    ensures a * s <= b * s
  {
  }

  /** The ceiling of d / s for positive s and d is the n with (n-1)s < d <= ns;
      for d <= 0 it is not positive. */
  lemma CeilDivBounds(d: int, s: int)
    requires s >= 1
    ensures d > 0 ==> CeilDiv(d, s) >= 1 && (CeilDiv(d, s) - 1) * s < d <= CeilDiv(d, s) * s
    ensures d <= 0 ==> CeilDiv(d, s) <= 0
  {
  }

  /** With a positive step, `np.arange` lists exactly the progression values
      that lie in [start, stop): all of them are in range and the next one is not. */
  lemma ArangePositiveStep(start: int, stop: int, step: int)
    requires step >= 1
    ensures var r := Arange(start, stop, step);
      (|r| == 0 <==> start >= stop)
      && (forall i :: 0 <= i < |r| ==> start <= r[i] < stop)
      && start + |r| * step >= stop
  {
    var r := Arange(start, stop, step);
    ArangeElements(start, stop, step);
    CeilDivBounds(stop - start, step);
    forall i | 0 <= i < |r|
      ensures start <= r[i] < stop
    {
      MulMonotone(0, i, step);
      MulMonotone(i, |r| - 1, step);
    }
  }

  /** With begin < end and a positive batch size, the boundaries start at begin,
      end at end, strictly increase, and all gaps are batchsize except the last,
      which is between 1 and batchsize. */
  lemma BoundariesShape(begin: int, end: int, batchsize: int)
    requires batchsize >= 1 && begin < end
    ensures var b := Boundaries(begin, end, batchsize);
      |b| >= 2 && b[0] == begin && b[|b| - 1] == end
      && (forall i :: 0 <= i < |b| - 1 ==> b[i] < b[i + 1])
      && (forall i :: 0 <= i < |b| - 2 ==> b[i + 1] - b[i] == batchsize)
      && 1 <= b[|b| - 1] - b[|b| - 2] <= batchsize
  {
    var b := Boundaries(begin, end, batchsize);
    var n := |b| - 1;
    CeilDivBounds(end - begin, batchsize);
    ArangePositiveStep(begin, end, batchsize);
    ArangeElements(begin, end, batchsize);
    assert b[n - 1] == begin + (n - 1) * batchsize;
    assert n * batchsize == (n - 1) * batchsize + batchsize;
    forall i | 0 <= i < n - 1
      ensures b[i + 1] - b[i] == batchsize
    {
      assert (i + 1) * batchsize == i * batchsize + batchsize;
    }
  }

  /** `len(batches) - 1`, the number of batches run, is ceil((end - begin) / batchsize),
      and 0 when begin >= end. */
  lemma BatchCount(begin: int, end: int, batchsize: int)
    requires batchsize >= 1
    ensures var n := |Boundaries(begin, end, batchsize)| - 1;
      (begin >= end ==> n == 0)
      && (begin < end ==> (n - 1) * batchsize < end - begin <= n * batchsize)
  {
  }

  lemma DivUnique(a: int, s: int, q: int, m: int)
    requires s >= 1 && a == q * s + m && 0 <= m < s
    ensures a / s == q
  {
    var q', m' := a / s, a % s;
    assert a == q' * s + m' && 0 <= m' < s;
    assert (q - q') * s == m' - m;
    if q > q' {
      MulMonotone(1, q - q', s);
    } else if q < q' {
      MulMonotone(1, q' - q, s);
    }
  }

  /** The boundaries are sorted, not just increasing step by step. */
  lemma BoundariesSorted(begin: int, end: int, batchsize: int)
    requires batchsize >= 1 && begin < end
    ensures var b := Boundaries(begin, end, batchsize);
      forall p, q :: 0 <= p <= q < |b| ==> b[p] <= b[q]
  {
    var b := Boundaries(begin, end, batchsize);
    var n := |b| - 1;
    ArangeElements(begin, end, batchsize);
    ArangePositiveStep(begin, end, batchsize);
    forall p, q | 0 <= p <= q < |b|
      ensures b[p] <= b[q]
    {
      if q < n {
        assert b[p] == begin + p * batchsize && b[q] == begin + q * batchsize;
        MulMonotone(p, q, batchsize);
      }
    }
  }

  /** The batch that holds j: i == (j - begin) / batchsize. */
  lemma BatchOfIndex(begin: int, end: int, batchsize: int, j: int)
    requires batchsize >= 1 && begin <= j < end
    ensures var b := Boundaries(begin, end, batchsize); var i := (j - begin) / batchsize;
      0 <= i < |b| - 1 && b[i] <= j < b[i + 1]
  {
    var b := Boundaries(begin, end, batchsize);
    var n := |b| - 1;
    var i := (j - begin) / batchsize;
    var m := (j - begin) % batchsize;
    ArangeElements(begin, end, batchsize);
    assert j - begin == i * batchsize + m && 0 <= m < batchsize;
    MulMonotone(0, i + 1, batchsize);
    assert (i + 1) * batchsize == i * batchsize + batchsize;
    CeilDivBounds(end - begin, batchsize);
    assert i < n by {
      if i >= n {
        MulMonotone(n, i, batchsize);
      }
    }
    assert b[i] == begin + i * batchsize;
    if i + 1 < n {
      assert b[i + 1] == begin + (i + 1) * batchsize;
    }
  }

  /** Every index j in [begin, end) lies in exactly one batch [b[i], b[i+1]),
      namely the one with i == (j - begin) / batchsize. */
  lemma BatchesPartition(begin: int, end: int, batchsize: int, j: int)
    requires batchsize >= 1 && begin <= j < end
    ensures var b := Boundaries(begin, end, batchsize); var i := (j - begin) / batchsize;
      0 <= i < |b| - 1 && b[i] <= j < b[i + 1]
      && forall k :: 0 <= k < |b| - 1 && b[k] <= j < b[k + 1] ==> k == i
  {
    BatchOfIndex(begin, end, batchsize, j);
    BoundariesSorted(begin, end, batchsize);
  }

  /** With the default end (`len(app_list) + 1`) and a range whose length is a
      multiple of batchsize, the last batch is [len, len + 1): it selects no rows. */
  lemma DefaultEndAddsEmptyBatch(len: nat, begin: int, batchsize: int)
    requires batchsize >= 1 && 0 <= begin <= len && (len - begin) % batchsize == 0
    ensures var b := Boundaries(begin, EffectiveEnd(-1, len), batchsize);
      |b| - 1 == (len - begin) / batchsize + 1
      && b[|b| - 2] == len && b[|b| - 1] == len + 1
      && Window(len, b[|b| - 2], b[|b| - 1]) == (len, len)
  {
    var q := (len - begin) / batchsize;
    assert len - begin == q * batchsize + (len - begin) % batchsize;
    var d := len + 1 - begin;
    assert (q + 1) * batchsize == q * batchsize + batchsize;
    DivUnique(d + batchsize - 1, batchsize, q + 1, 0);
    assert CeilDiv(d, batchsize) == q + 1;
    MulMonotone(0, q, batchsize);
    var b := Boundaries(begin, EffectiveEnd(-1, len), batchsize);
    ArangeElements(begin, EffectiveEnd(-1, len), batchsize);
    assert b[|b| - 2] == begin + q * batchsize;
  }

  /** Had the default end been `len(app_list)`, every batch of a non-empty range
      would select at least one row. */
  lemma LengthEndBatchesNonEmpty(len: nat, begin: int, batchsize: int)
    requires batchsize >= 1 && 0 <= begin < len
    ensures var b := Boundaries(begin, len, batchsize);
      forall i :: 0 <= i < |b| - 1 ==> Window(len, b[i], b[i + 1]).0 < Window(len, b[i], b[i + 1]).1
  {
    BoundariesShape(begin, len, batchsize);
    ArangePositiveStep(begin, len, batchsize);
  }

  /** A negative begin is not clipped before the boundaries are computed, so
      each batch is clipped separately: with begin -3, end 11 and batch size 5
      on ten rows the batches select nothing, rows 2..6 and rows 7..9, while
      `app_list[-3:11]` is rows 7..9 only. */
  lemma NegativeBeginRevisitsRows()
    ensures Boundaries(-3, 11, 5) == [-3, 2, 7, 11]
    ensures Window(10, -3, 2) == (7, 7)
    ensures Window(10, 2, 7) == (2, 7)
    ensures Window(10, 7, 11) == (7, 10)
    ensures Window(10, -3, 11) == (7, 10)
  {
  }
}
