/** One poll's summary of a zone's drive temperatures, how the readers build
    it up one drive at a time, and the fallback used when nothing was read. */
module Readings {

  /** `avg` is exact: the source divides with IEEE-754 doubles, so its
      average can differ from this one in the last bits. While a reader is
      still accumulating, `avg` holds the running sum and, as long as
      `count == 0`, `min` and `max` stand for the +inf and -inf the source
      starts them at. */
  datatype Reading = Reading(min: int, max: int, avg: real, count: nat)

  /** A fresh accumulator (`Reading()` in the source). */
  const Empty: Reading := Reading(0, 0, 0.0, 0)

  /** The temperature reported when no drive could be read. */
  const FallbackTemp: int := 60

  const Fallback: Reading := Reading(FallbackTemp, FallbackTemp, FallbackTemp as real, 1)

  function Min(a: int, b: int): int { if a <= b then a else b }

  function Max(a: int, b: int): int { if a >= b then a else b }

  /** Reference definitions the readers are judged against. */
  function Sum(s: seq<int>): int
    decreases |s|
  {
    if |s| == 0 then 0 else Sum(s[..|s| - 1]) + s[|s| - 1]
  }

  function MinOf(s: seq<int>): int
    requires |s| > 0
    decreases |s|
  {
    if |s| == 1 then s[0] else Min(MinOf(s[..|s| - 1]), s[|s| - 1])
  }

  function MaxOf(s: seq<int>): int
    requires |s| > 0
    decreases |s|
  {
    if |s| == 1 then s[0] else Max(MaxOf(s[..|s| - 1]), s[|s| - 1])
  }

  /** One drive's temperature folded into the accumulator. */
  function Add(r: Reading, temp: int): Reading {
    Reading(if r.count == 0 then temp else Min(temp, r.min),
            if r.count == 0 then temp else Max(temp, r.max),
            r.avg + temp as real,
            r.count + 1)
  }

  /** The accumulator after folding `temps` in, first to last. */
  function Accumulated(temps: seq<int>): Reading
    decreases |temps|
  {
    if |temps| == 0 then Empty else Add(Accumulated(temps[..|temps| - 1]), temps[|temps| - 1])
  }

  /** The end of a read: divide the sum by the count, or fall back. */
  function Finish(r: Reading): (f: Reading)
    ensures f.count >= 1
  {
    if r.count > 0 then r.(avg := r.avg / r.count as real) else Fallback
  }

  /** The reading a poll of drives reporting `temps` produces. */
  function Aggregate(temps: seq<int>): (r: Reading)
    ensures r.count >= 1
  {
    Finish(Accumulated(temps))
  }

  lemma {:induction false} MinOfIsLeast(s: seq<int>)
    requires |s| > 0
    ensures MinOf(s) in s
    ensures forall i :: 0 <= i < |s| ==> MinOf(s) <= s[i]
    decreases |s|
  {
    if |s| > 1 {
      MinOfIsLeast(s[..|s| - 1]);
    }
  }

  lemma {:induction false} MaxOfIsGreatest(s: seq<int>)
    requires |s| > 0
    ensures MaxOf(s) in s
    ensures forall i :: 0 <= i < |s| ==> s[i] <= MaxOf(s)
    decreases |s|
  {
    if |s| > 1 {
      MaxOfIsGreatest(s[..|s| - 1]);
    }
  }

  /** A sum of `n` values, each at least `lo`, is at least `n * lo`. */
  lemma {:induction false} SumAtLeast(s: seq<int>, lo: int)
    requires forall i :: 0 <= i < |s| ==> lo <= s[i]
    ensures |s| * lo <= Sum(s)
    decreases |s|
  {
    if |s| > 0 {
      SumAtLeast(s[..|s| - 1], lo);
      assert |s| * lo == (|s| - 1) * lo + lo;
    }
  }

  /** A sum of `n` values, each at most `hi`, is at most `n * hi`. */
  lemma {:induction false} SumAtMost(s: seq<int>, hi: int)
    requires forall i :: 0 <= i < |s| ==> s[i] <= hi
    ensures Sum(s) <= |s| * hi
    decreases |s|
  {
    if |s| > 0 {
      SumAtMost(s[..|s| - 1], hi);
      assert |s| * hi == (|s| - 1) * hi + hi;
    }
  }

  /** Folding drive by drive keeps count, running sum, minimum and maximum. */
  lemma {:induction false} AccumulatedTracks(temps: seq<int>)
    ensures Accumulated(temps).count == |temps|
    ensures Accumulated(temps).avg == Sum(temps) as real
    ensures |temps| > 0 ==> Accumulated(temps).min == MinOf(temps)
    ensures |temps| > 0 ==> Accumulated(temps).max == MaxOf(temps)
    decreases |temps|
  {
    if |temps| > 0 {
      AccumulatedTracks(temps[..|temps| - 1]);
    }
  }

  /** What a reader returns: for drives reporting `temps`, the count, the
      extremes and the mean; with no drives, 60 degrees from one pseudo-drive. */
  lemma AggregateSummarizes(temps: seq<int>)
    ensures |temps| == 0 ==> Aggregate(temps) == Fallback
    ensures |temps| > 0 ==>
      var r := Aggregate(temps);
      && r.count == |temps|
      && r.avg == Sum(temps) as real / |temps| as real
      && r.min == MinOf(temps) && r.max == MaxOf(temps)
      && r.min in temps && r.max in temps
      && (forall i :: 0 <= i < |temps| ==> r.min <= temps[i] <= r.max)
      && r.min as real <= r.avg <= r.max as real
  {
    AccumulatedTracks(temps);
    if |temps| > 0 {
      MinOfIsLeast(temps);
      MaxOfIsGreatest(temps);
      SumAtLeast(temps, MinOf(temps));
      SumAtMost(temps, MaxOf(temps));
      MeanBetween(Sum(temps), |temps|, MinOf(temps), MaxOf(temps));
    }
  }

  lemma MeanBetween(sum: int, n: int, lo: int, hi: int)
    requires n > 0 && n * lo <= sum <= n * hi
    ensures lo as real <= sum as real / n as real <= hi as real
  {
  }
}
