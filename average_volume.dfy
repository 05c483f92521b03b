/** The rolling average volume pass over a symbol's candles, which are stored
    newest first (index 0 is the latest day). */
module AverageVolume {
  import opened Candles

  function Volumes(candles: seq<StockCandle>): (v: seq<real>)
    ensures |v| == |candles|
    ensures forall i :: 0 <= i < |candles| ==> v[i] == candles[i].volume
  {
    seq(|candles|, i requires 0 <= i < |candles| => candles[i].volume)
  }

  /** v[lo] + ... + v[hi - 1]. */
  function WindowSum(v: seq<real>, lo: int, hi: int): real
    requires 0 <= lo <= hi <= |v|
    decreases hi - lo
  {
    if lo == hi then 0.0 else v[lo] + WindowSum(v, lo + 1, hi)
  }

  /** The average written at `index`: over the `numDays` days ending at it,
      or, for the oldest `numDays` candles, over every day from it to the
      oldest one. */
  function WindowAverage(v: seq<real>, index: int, numDays: int): real
    requires numDays >= 1 && 0 <= index < |v|
  {
    if index >= |v| - numDays then Mean(WindowSum(v, index, |v|), |v| - index)
    else Mean(WindowSum(v, index, index + numDays), numDays)
  }

  /** A total volume divided by a day count. */
  function Mean(total: real, days: int): real
    requires days >= 1
  {
    total / days as real
  }

  /** Both cases of WindowAverage are the mean over min(numDays, n - index)
      days ending at `index`. */
  lemma WindowAverageIsTrailingMean(v: seq<real>, index: int, numDays: int)
    requires numDays >= 1 && 0 <= index < |v|
    ensures index + Min(numDays, |v| - index) <= |v|
    ensures WindowAverage(v, index, numDays)
         == WindowSum(v, index, index + Min(numDays, |v| - index)) / Min(numDays, |v| - index) as real
  {
  }

  /** Extending a window at its old end adds the new day's volume. */
  lemma {:induction false} WindowSumLast(v: seq<real>, lo: int, hi: int)
    requires 0 <= lo < hi <= |v|
    ensures WindowSum(v, lo, hi) == WindowSum(v, lo, hi - 1) + v[hi - 1]
    decreases hi - lo
  {
    if lo + 1 < hi {
      WindowSumLast(v, lo + 1, hi);
    }
  }

  lemma {:induction false} WindowSumOfConstant(v: seq<real>, lo: int, hi: int, x: real)
    requires 0 <= lo <= hi <= |v|
    requires forall i :: lo <= i < hi ==> v[i] == x
    ensures WindowSum(v, lo, hi) == (hi - lo) as real * x
    decreases hi - lo
  {
    if lo < hi {
      WindowSumOfConstant(v, lo + 1, hi, x);
    }
  }

  lemma {:induction false} WindowSumNonNegative(v: seq<real>, lo: int, hi: int)
    requires 0 <= lo <= hi <= |v|
    requires forall i :: lo <= i < hi ==> v[i] >= 0.0
    ensures WindowSum(v, lo, hi) >= 0.0
    decreases hi - lo
  {
    if lo < hi {
      WindowSumNonNegative(v, lo + 1, hi);
    }
  }

  /** A symbol whose volume never changes has that volume as its average on
      every day, the partial windows included. */
  lemma ConstantVolumeAverage(v: seq<real>, index: int, numDays: int, x: real)
    requires numDays >= 1 && 0 <= index < |v|
    requires forall i :: 0 <= i < |v| ==> v[i] == x
    ensures WindowAverage(v, index, numDays) == x
  {
    if index >= |v| - numDays {
      WindowSumOfConstant(v, index, |v|, x);
    } else {
      WindowSumOfConstant(v, index, index + numDays, x);
    }
  }

  /** Non-negative volumes give a non-negative average. */
  lemma AverageNonNegative(v: seq<real>, index: int, numDays: int)
    requires numDays >= 1 && 0 <= index < |v|
    requires forall i :: 0 <= i < |v| ==> v[i] >= 0.0
    ensures WindowAverage(v, index, numDays) >= 0.0
  {
    if index >= |v| - numDays {
      WindowSumNonNegative(v, index, |v|);
    } else {
      WindowSumNonNegative(v, index, index + numDays);
    }
  }

  /** One step of the growing window: add the new day. */
  lemma GrowWindow(v: seq<real>, index: int, numDays: int)
    requires numDays >= 1 && 0 <= index < |v| && index >= |v| - numDays
    ensures WindowAverage(v, index, numDays) == Mean(WindowSum(v, index + 1, |v|) + v[index], |v| - index)
  {
  }

  /** One step of the sliding window: drop the oldest day, add the new one. */
  lemma SlideWindow(v: seq<real>, index: int, numDays: int)
    requires numDays >= 1 && 0 <= index && index + numDays < |v|
    ensures WindowSum(v, index + 1, index + 1 + numDays) - v[index + numDays] + v[index]
         == WindowSum(v, index, index + numDays)
  {
    WindowSumLast(v, index + 1, index + 1 + numDays);
  }

  /** Candle `c` is `o` with the average of day `k` written in. */
  ghost predicate Averaged(c: StockCandle, o: StockCandle, v: seq<real>, k: int, numDays: int)
    requires numDays >= 1 && 0 <= k < |v|
  {
    c == o.(averageVolume := WindowAverage(v, k, numDays), averageVolumeDays := numDays)
  }

  /** The pass: walking from the oldest candle toward the newest, keep a
      running total of the window, first growing it for up to `numDays`
      candles, then sliding it (subtract the day that leaves, add the day that
      enters). Only the two average fields of each candle are written. */
  method SetAverageVolumes(candles: array<StockCandle>, numDays: int)
    requires numDays >= 1
    modifies candles
    ensures forall i :: 0 <= i < candles.Length ==>
              candles[i] == old(candles[i]).(averageVolume := WindowAverage(Volumes(old(candles[..])), i, numDays),
                                             averageVolumeDays := numDays)
  {
    ghost var o := candles[..];
    ghost var v := Volumes(o);
    var n := candles.Length;
    var totalVolume := 0.0;
    var index := n - 1;
    var i := 0;
    while i < numDays && index >= 0
      invariant 0 <= i <= numDays && index == n - 1 - i && -1 <= index
      invariant totalVolume == WindowSum(v, index + 1, n)
      invariant forall k :: 0 <= k <= index ==> candles[k] == o[k]
      invariant forall k :: index < k < n ==> Averaged(candles[k], o[k], v, k, numDays)
    {
      GrowWindow(v, index, numDays);
      totalVolume := totalVolume + candles[index].volume;
      candles[index] := candles[index].(averageVolume := Mean(totalVolume, i + 1),
                                        averageVolumeDays := numDays);
      i, index := i + 1, index - 1;
    }

    SlideAverageVolumes(candles, numDays, index, totalVolume, o, v);
  }

  /** The second loop of the pass: from `start` down to the newest candle,
      slide the `numDays`-day window one day and write its mean. */
  method SlideAverageVolumes(candles: array<StockCandle>, numDays: int, start: int, total: real,
                             ghost o: seq<StockCandle>, ghost v: seq<real>)
    requires numDays >= 1 && |v| == |o| == candles.Length
    requires forall k :: 0 <= k < |o| ==> v[k] == o[k].volume
    requires -1 <= start < candles.Length
    requires 0 <= start ==> start + numDays < candles.Length && total == WindowSum(v, start + 1, start + 1 + numDays)
    requires forall k :: 0 <= k <= start ==> candles[k] == o[k]
    requires forall k :: start < k < candles.Length ==> Averaged(candles[k], o[k], v, k, numDays)
    modifies candles
    ensures forall k :: 0 <= k < candles.Length ==> Averaged(candles[k], o[k], v, k, numDays)
  {
    var n := candles.Length;
    var index := start;
    var totalVolume := total;
    while index >= 0
      invariant -1 <= index < n
      invariant 0 <= index ==> index + numDays < n && totalVolume == WindowSum(v, index + 1, index + 1 + numDays)
      invariant forall k :: 0 <= k <= index ==> candles[k] == o[k]
      invariant forall k :: index < k < n ==> Averaged(candles[k], o[k], v, k, numDays)
    {
      var leaving := candles[index + numDays];
      assert leaving.volume == v[index + numDays] by {
        assert Averaged(leaving, o[index + numDays], v, index + numDays, numDays);
      }
      SlideWindow(v, index, numDays);
      totalVolume := totalVolume - leaving.volume;
      totalVolume := totalVolume + candles[index].volume;
      candles[index] := candles[index].(averageVolume := Mean(totalVolume, numDays),
                                        averageVolumeDays := numDays);
      index := index - 1;
    }
  }
}
