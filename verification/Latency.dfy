/**
 The latency ring: the last maxSize positive samples of a proxy and their interpolated percentiles.
 Samples are real numbers; floating-point rounding is not modelled.
 */
module Latency {
  import Sorting

  function Less(a: real, b: real): bool { a <= b }

  /** sort.Float64s. */
  function SortedReals(s: seq<real>): (r: seq<real>)
    ensures |r| == |s| && multiset(r) == multiset(s)
  {
    Sorting.Sort(s, Less)
  }

  lemma SortedRealsAscend(s: seq<real>)
    ensures var r := SortedReals(s); forall i, j | 0 <= i < j < |r| :: r[i] <= r[j]
  {
    Sorting.SortSorts(s, Less);
    var r := SortedReals(s);
    forall i, j | 0 <= i < j < |r| ensures r[i] <= r[j] { assert Less(r[i], r[j]); }
  }

  function Clamped(p: real): real {
    if p <= 0.0 then 0.0 else if p >= 1.0 then 1.0 else p
  }

  /** The rank p selects among n sorted samples, clamped to [0, 1] first. */
  function RankOf(n: nat, p: real): real
    requires n > 0
  {
    (n - 1) as real * Clamped(p)
  }

  function Lerp(a: real, b: real, f: real): real {
    a + f * (b - a)
  }

  /** Linear interpolation at a fractional rank. */
  function At(vals: seq<real>, r: real): real
    requires vals != [] && 0.0 <= r
  {
    if r.Floor >= |vals| - 1 then vals[|vals| - 1]
    else Lerp(vals[r.Floor], vals[r.Floor + 1], r - r.Floor as real)
  }

  function PercentileOf(samples: seq<real>, p: real): real {
    if samples == [] then 0.0
    else
      RankBounds(|samples|, p);
      At(SortedReals(samples), RankOf(|samples|, p))
  }

  lemma RankBounds(n: nat, p: real)
    requires n > 0
    ensures 0.0 <= RankOf(n, p) <= (n - 1) as real
  {
    Scale((n - 1) as real, 0.0, Clamped(p));
    Scale((n - 1) as real, Clamped(p), 1.0);
  }

  lemma Scale(k: real, p: real, q: real)
    requires k >= 0.0 && p <= q
    ensures k * p <= k * q
  {
  }

  /** The contents of a ring whose next slot is idx, oldest first. */
  function Unrolled(slots: seq<real>, idx: nat, count: nat): seq<real>
    requires idx <= |slots| && count <= |slots|
  {
    if count < |slots| then slots[..count] else slots[idx..] + slots[..idx]
  }

  function NextIndex(idx: nat, size: nat): (next: nat)
    requires idx < size
    ensures next == if idx + 1 == size then 0 else idx + 1
  {
    (idx + 1) % size
  }

  /** One sample more at the end, for the first one if there is no room. */
  function Shifted(s: seq<real>, room: bool, x: real): seq<real> {
    (if room || s == [] then s else s[1..]) + [x]
  }

  lemma RingStep(slots: seq<real>, idx: nat, count: nat, x: real)
    requires idx < |slots| && count <= |slots| && (count < |slots| ==> idx == count)
    ensures var after := Unrolled(slots[idx := x], NextIndex(idx, |slots|),
              if count < |slots| then count + 1 else count);
            after == Shifted(Unrolled(slots, idx, count), count < |slots|, x)
  {
  }

  lemma NewestStep(history: seq<real>, n: nat, size: nat, x: real)
    requires size > 0 && n == if |history| < size then |history| else size
    ensures var m := if n < size then n + 1 else n;
            m <= |history| + 1 && m == (if |history| + 1 < size then |history| + 1 else size)
            && (history + [x])[|history + [x]| - m..] == Shifted(history[|history| - n..], n < size, x)
  {
  }

  class LatencySamples {
    const samples: array<real>
    var idx: nat
    var count: nat
    const maxSize: nat
    /** Every positive sample ever added, oldest first. */
    ghost var history: seq<real>

    /** The stored samples in the order they came. */
    ghost function InOrder(): seq<real>
      requires idx <= samples.Length && count <= samples.Length
      reads this, samples
    {
      Unrolled(samples[..], idx, count)
    }

    ghost predicate Valid()
      reads this, samples
    {
      && maxSize > 0 && samples.Length == maxSize
      && idx < maxSize && count <= maxSize && (count < maxSize ==> idx == count)
      && count == (if |history| < maxSize then |history| else maxSize)
      && InOrder() == history[|history| - count..]
    }

    constructor (maxSize: int)
      ensures Valid() && history == [] && fresh(samples)
      ensures this.maxSize == if maxSize <= 0 then 100 else maxSize
    {
      var size := if maxSize <= 0 then 100 else maxSize;
      samples := new real[size](_ => 0.0);
      this.maxSize := size;
      idx, count, history := 0, 0, [];
    }

    method Add(latency: real)
      requires Valid()
      modifies this, samples
      ensures Valid()
      ensures history == if latency <= 0.0 then old(history) else old(history) + [latency]
    {
      hide Unrolled, Shifted, NextIndex;
      if latency <= 0.0 { return; }
      ghost var slots, room, newest := samples[..], count < maxSize, history[|history| - count..];
      NewestStep(history, count, maxSize, latency);
      RingStep(slots, idx, count, latency);
      samples[idx] := latency;
      assert samples[..] == slots[idx := latency];
      idx := NextIndex(idx, maxSize);
      if count < maxSize { count := count + 1; }
      assert InOrder() == Shifted(newest, room, latency);
      history := history + [latency];
      assert history[|history| - count..] == Shifted(newest, room, latency);
    }

    /** The stored prefix, in slot order, that the percentile is taken over. */
    ghost function Stored(): seq<real>
      requires Valid()
      reads this, samples
    {
      samples[..count]
    }

    /** Whatever was added, the ring holds exactly the newest samples. */
    lemma StoredIsNewest()
      requires Valid()
      ensures multiset(Stored()) == multiset(history[|history| - count..])
    {
      if count == maxSize {
        assert samples[..count] == samples[..idx] + samples[idx..];
      }
    }

    method Percentile(p: real) returns (v: real)
      requires Valid()
      ensures v == PercentileOf(Stored(), p)
    {
      if count == 0 { return 0.0; }
      var vals := SortedReals(samples[..count]);
      v := Interpolate(vals, p);
    }
  }

  method Interpolate(vals: seq<real>, p: real) returns (v: real)
    requires vals != []
    ensures 0.0 <= RankOf(|vals|, p) && v == At(vals, RankOf(|vals|, p))
  {
    RankBounds(|vals|, p);
    if |vals| == 1 { return vals[0]; }
    var r := RankOf(|vals|, p);
    var i := r.Floor;
    if i >= |vals| - 1 { return vals[|vals| - 1]; }
    v := Lerp(vals[i], vals[i + 1], r - i as real);
  }

  // ---------------------------------------------------------------- percentiles

  /** Interpolating within one gap stays in the gap and is monotone. */
  lemma Between(a: real, b: real, f: real, g: real)
    requires a <= b && 0.0 <= f <= g <= 1.0
    ensures a <= Lerp(a, b, f) <= Lerp(a, b, g) <= b
  {
    Scale(b - a, 0.0, f);
    Scale(b - a, f, g);
    Scale(b - a, g, 1.0);
  }

  lemma AtBounds(vals: seq<real>, r: real)
    requires vals != [] && 0.0 <= r && forall i, j | 0 <= i < j < |vals| :: vals[i] <= vals[j]
    ensures var i := r.Floor;
            i < |vals| - 1 ==> vals[i] <= At(vals, r) <= vals[i + 1]
    ensures vals[0] <= At(vals, r) <= vals[|vals| - 1]
  {
    var i := r.Floor;
    if i < |vals| - 1 {
      var f := r - i as real;
      Between(vals[i], vals[i + 1], f, f);
    }
  }

  lemma AtMonotone(vals: seq<real>, r: real, s: real)
    requires vals != [] && 0.0 <= r <= s && forall i, j | 0 <= i < j < |vals| :: vals[i] <= vals[j]
    ensures At(vals, r) <= At(vals, s)
  {
    AtBounds(vals, r);
    AtBounds(vals, s);
    var i, k := r.Floor, s.Floor;
    if i < |vals| - 1 && k == i { Between(vals[i], vals[i + 1], r - i as real, s - i as real); }
  }

  /** Percentiles rise with p and lie between any bounds of the samples. */
  lemma PercentileMonotoneAndBounded(samples: seq<real>, p: real, q: real, lo: real, hi: real)
    requires samples != [] && p <= q && forall x | x in samples :: lo <= x <= hi
    ensures lo <= PercentileOf(samples, p) <= PercentileOf(samples, q) <= hi
  {
    var n, vals := |samples|, SortedReals(samples);
    SortedRealsAscend(samples);
    forall i | 0 <= i < n ensures lo <= vals[i] <= hi {
      assert vals[i] in multiset(vals);
      assert vals[i] in samples;
    }
    RankBounds(n, p);
    RankBounds(n, q);
    Scale((n - 1) as real, Clamped(p), Clamped(q));
    AtMonotone(vals, RankOf(n, p), RankOf(n, q));
    AtBounds(vals, RankOf(n, p));
    AtBounds(vals, RankOf(n, q));
  }

  /** The ends are hit: p = 0 gives the least sample, p = 1 the greatest. */
  lemma PercentileEnds(samples: seq<real>)
    requires samples != []
    ensures PercentileOf(samples, 0.0) in samples && forall x | x in samples :: PercentileOf(samples, 0.0) <= x
    ensures PercentileOf(samples, 1.0) in samples && forall x | x in samples :: x <= PercentileOf(samples, 1.0)
  {
    var n, vals := |samples|, SortedReals(samples);
    SortedRealsAscend(samples);
    assert RankOf(n, 0.0) == 0.0 && RankOf(n, 1.0) == (n - 1) as real;
    assert At(vals, 0.0) == vals[0] && At(vals, (n - 1) as real) == vals[n - 1];
    assert vals[0] in multiset(vals) && vals[n - 1] in multiset(vals);
    forall x | x in samples ensures vals[0] <= x <= vals[n - 1] {
      assert x in multiset(vals);
      var i :| 0 <= i < n && vals[i] == x;
    }
  }

  /** Order of the stored samples does not matter, so the ring's rotation is invisible. */
  lemma PercentileIgnoresOrder(a: seq<real>, b: seq<real>, p: real)
    requires multiset(a) == multiset(b)
    ensures PercentileOf(a, p) == PercentileOf(b, p)
  {
    assert |a| == |multiset(a)| == |multiset(b)| == |b|;
    SortedRealsAscend(a);
    SortedRealsAscend(b);
    AscendingUnique(SortedReals(a), SortedReals(b));
  }

  lemma AscendingUnique(a: seq<real>, b: seq<real>)
    requires multiset(a) == multiset(b)
    requires forall i, j | 0 <= i < j < |a| :: a[i] <= a[j]
    requires forall i, j | 0 <= i < j < |b| :: b[i] <= b[j]
    ensures a == b
  {
    Sorting.SortedUnique(a, b, Less);
  }

  /**
   The percentile itself: between the samples number k and k + 1 in ascending order, it lies as far along the gap as
   (n - 1) * p lies between k and k + 1. Outside [0, 1] it is the least or the greatest sample.
   */
  lemma PercentileExact(samples: seq<real>, sorted: seq<real>, p: real, k: nat)
    requires samples != [] && multiset(sorted) == multiset(samples)
    requires forall i, j | 0 <= i < j < |sorted| :: sorted[i] <= sorted[j]
    ensures |sorted| == |samples|
    ensures p <= 0.0 ==> PercentileOf(samples, p) == sorted[0]
    ensures p >= 1.0 ==> PercentileOf(samples, p) == sorted[|sorted| - 1]
    ensures var rank := (|samples| - 1) as real * p;
            0.0 <= p <= 1.0 && k + 1 < |samples| && k as real <= rank <= (k + 1) as real ==>
              PercentileOf(samples, p) == sorted[k] + (rank - k as real) * (sorted[k + 1] - sorted[k])
  {
    hide PercentileOf, At, RankOf;
    PercentileIsAt(samples, sorted, p);
    RankWithin(|samples|, p);
    LeastAndGreatest(sorted);
    var rank := (|samples| - 1) as real * p;
    if 0.0 <= p <= 1.0 && k + 1 < |samples| && k as real <= rank <= (k + 1) as real {
      assert RankOf(|samples|, p) == rank;
      assert PercentileOf(samples, p) == At(sorted, rank);
      Reached(sorted, rank, k);
    }
  }

  lemma PercentileIsAt(samples: seq<real>, sorted: seq<real>, p: real)
    requires samples != [] && multiset(sorted) == multiset(samples)
    requires forall i, j | 0 <= i < j < |sorted| :: sorted[i] <= sorted[j]
    ensures |sorted| == |samples| && 0.0 <= RankOf(|samples|, p)
    ensures PercentileOf(samples, p) == At(sorted, RankOf(|samples|, p))
  {
    hide At, RankOf, SortedReals;
    assert |sorted| == |multiset(sorted)| == |multiset(samples)| == |samples|;
    SortedRealsAscend(samples);
    AscendingUnique(SortedReals(samples), sorted);
    RankBounds(|samples|, p);
  }

  lemma RankWithin(n: nat, p: real)
    requires n > 0
    ensures p <= 0.0 ==> RankOf(n, p) == 0.0
    ensures p >= 1.0 ==> RankOf(n, p) == (n - 1) as real
    ensures 0.0 <= p <= 1.0 ==> RankOf(n, p) == (n - 1) as real * p
  {
  }

  lemma LeastAndGreatest(vals: seq<real>)
    requires vals != []
    ensures At(vals, 0.0) == vals[0] && At(vals, (|vals| - 1) as real) == vals[|vals| - 1]
  {
    if |vals| > 1 { assert 0.0.Floor == 0; }
  }

  lemma Reached(vals: seq<real>, r: real, k: nat)
    requires k + 1 < |vals| && k as real <= r <= (k + 1) as real
    ensures At(vals, r) == vals[k] + (r - k as real) * (vals[k + 1] - vals[k])
  {
    if r == (k + 1) as real {
      assert r.Floor == k + 1 && r - k as real == 1.0;
    } else {
      assert r.Floor == k;
    }
  }
}
