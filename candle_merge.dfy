/** The k-way merge of per-symbol candle series into frames, one frame per
    timestamp. Each series is stored newest first, so a cursor starts at the
    oldest candle (the last index) and walks toward index 0; the frames are
    produced oldest first and reversed at the end, so that frame 0 is the
    newest. */
module CandleMerge {
  import opened Candles

  /** All candles of one timestamp. */
  datatype Frame = Frame(time: int, candles: seq<StockCandle>)

  /** Frame times strictly decrease from index 0: newest first. */
  predicate Descending(frames: seq<Frame>)
  {
    forall i, j :: 0 <= i < j < |frames| ==> frames[i].time > frames[j].time
  }

  /** Where a merged candle came from: the input series and its index there. */
  datatype Source = Source(series: int, offset: int)

  predicate ValidSource(inputs: seq<seq<StockCandle>>, src: Source)
  {
    0 <= src.series < |inputs| && 0 <= src.offset < |inputs[src.series]|
  }

  function At(inputs: seq<seq<StockCandle>>, src: Source): StockCandle
    requires ValidSource(inputs, src)
  {
    inputs[src.series][src.offset]
  }

  /** Strictly newest first: closing times strictly decrease with the index. */
  predicate NewestFirst(series: seq<StockCandle>)
  {
    forall a, b :: 0 <= a < b < |series| ==> series[a].closeTime > series[b].closeTime
  }

  predicate AllNewestFirst(inputs: seq<seq<StockCandle>>)
  {
    forall s :: 0 <= s < |inputs| ==> NewestFirst(inputs[s])
  }

  /** Sources listed in strictly increasing series order, so no series
      contributes twice. */
  predicate StrictSeries(srcs: seq<Source>)
  {
    forall j1, j2 :: 0 <= j1 < j2 < |srcs| ==> srcs[j1].series < srcs[j2].series
  }

  /** A frame as the merge emits it: non-empty, every candle at the frame's
      time and copied from the input position its source names. */
  predicate FrameFrom(inputs: seq<seq<StockCandle>>, fr: Frame, srcs: seq<Source>)
  {
    && |srcs| == |fr.candles| > 0
    && StrictSeries(srcs)
    && (forall j :: 0 <= j < |srcs| ==> ValidSource(inputs, srcs[j]) && fr.candles[j] == At(inputs, srcs[j]))
    && (forall j :: 0 <= j < |fr.candles| ==> fr.candles[j].closeTime == fr.time)
  }

  /** Every source named already lies above its series' cursor. */
  predicate BehindCursors(cursors: seq<int>, srcs: seq<Source>)
  {
    forall j :: 0 <= j < |srcs| ==> 0 <= srcs[j].series < |cursors| && cursors[srcs[j].series] < srcs[j].offset
  }

  /** No input position is named twice anywhere in the output. */
  ghost predicate Unique(origin: seq<seq<Source>>)
  {
    forall f1, j1, f2, j2 ::
      (0 <= f1 < |origin| && 0 <= j1 < |origin[f1]| && 0 <= f2 < |origin| && 0 <= j2 < |origin[f2]|
       && origin[f1][j1] == origin[f2][j2]) ==> f1 == f2 && j1 == j2
  }

  /** In emission order a series' offsets strictly decrease. */
  ghost predicate OffsetsDecrease(origin: seq<seq<Source>>)
  {
    forall f1, f2, j1, j2 ::
      (0 <= f1 < f2 < |origin| && 0 <= j1 < |origin[f1]| && 0 <= j2 < |origin[f2]|
       && origin[f1][j1].series == origin[f2][j2].series) ==> origin[f1][j1].offset > origin[f2][j2].offset
  }

  ghost predicate Covered(origin: seq<seq<Source>>, src: Source)
  {
    exists f :: 0 <= f < |origin| && src in origin[f]
  }

  predicate CursorsInRange(inputs: seq<seq<StockCandle>>, cursors: seq<int>)
  {
    |cursors| == |inputs| && forall i :: 0 <= i < |inputs| ==> -1 <= cursors[i] < |inputs[i]|
  }

  /** Number of candles not merged yet: cursor + 1 per series. */
  function Remaining(cursors: seq<int>): int
    decreases |cursors|
  {
    if cursors == [] then 0 else Remaining(cursors[..|cursors| - 1]) + cursors[|cursors| - 1] + 1
  }

  function TotalLength(inputs: seq<seq<StockCandle>>): nat
    decreases |inputs|
  {
    if inputs == [] then 0 else TotalLength(inputs[..|inputs| - 1]) + |inputs[|inputs| - 1]|
  }

  function TotalSize(frames: seq<Frame>): nat
    decreases |frames|
  {
    if frames == [] then 0 else TotalSize(frames[..|frames| - 1]) + |frames[|frames| - 1].candles|
  }

  function Reversed(s: seq<Frame>): (r: seq<Frame>)
    ensures |r| == |s|
    ensures forall k :: 0 <= k < |s| ==> r[k] == s[|s| - 1 - k]
    decreases |s|
  {
    if s == [] then [] else [s[|s| - 1]] + Reversed(s[..|s| - 1])
  }

  ////// Arithmetic of the counters

  lemma {:induction false} RemainingNonNegative(inputs: seq<seq<StockCandle>>, cursors: seq<int>)
    requires CursorsInRange(inputs, cursors)
    ensures Remaining(cursors) >= 0
    decreases |cursors|
  {
    if cursors != [] {
      RemainingNonNegative(inputs[..|inputs| - 1], cursors[..|cursors| - 1]);
    }
  }

  /** With every cursor on the oldest candle nothing is merged yet. */
  lemma {:induction false} RemainingInitial(inputs: seq<seq<StockCandle>>, cursors: seq<int>)
    requires |cursors| == |inputs| && forall i :: 0 <= i < |inputs| ==> cursors[i] == |inputs[i]| - 1
    ensures Remaining(cursors) == TotalLength(inputs)
    decreases |cursors|
  {
    if cursors != [] {
      RemainingInitial(inputs[..|inputs| - 1], cursors[..|cursors| - 1]);
    }
  }

  /** With every cursor past index 0 everything is merged. */
  lemma {:induction false} RemainingExhausted(cursors: seq<int>)
    requires forall i :: 0 <= i < |cursors| ==> cursors[i] == -1
    ensures Remaining(cursors) == 0
    decreases |cursors|
  {
    if cursors != [] {
      RemainingExhausted(cursors[..|cursors| - 1]);
    }
  }

  /** Moving one cursor by one merges exactly one candle. */
  lemma {:induction false} RemainingDecrement(cursors: seq<int>, i: int)
    requires 0 <= i < |cursors|
    ensures Remaining(cursors[i := cursors[i] - 1]) == Remaining(cursors) - 1
    decreases |cursors|
  {
    var n := |cursors|;
    var next := cursors[i := cursors[i] - 1];
    if i == n - 1 {
      assert next[..n - 1] == cursors[..n - 1];
    } else {
      assert next[..n - 1] == cursors[..n - 1][i := cursors[i] - 1];
      RemainingDecrement(cursors[..n - 1], i);
    }
  }

  lemma {:induction false} TotalSizeConcat(a: seq<Frame>, b: seq<Frame>)
    ensures TotalSize(a + b) == TotalSize(a) + TotalSize(b)
    decreases |b|
  {
    if b != [] {
      assert (a + b)[..|a + b| - 1] == a + b[..|b| - 1];
      TotalSizeConcat(a, b[..|b| - 1]);
    } else {
      assert a + b == a;
    }
  }

  /** Reversing the frames keeps the total number of candles. */
  lemma {:induction false} TotalSizeReversed(frames: seq<Frame>)
    ensures TotalSize(Reversed(frames)) == TotalSize(frames)
    decreases |frames|
  {
    if frames != [] {
      var n := |frames|;
      assert Reversed(frames) == [frames[n - 1]] + Reversed(frames[..n - 1]);
      TotalSizeConcat([frames[n - 1]], Reversed(frames[..n - 1]));
      TotalSizeReversed(frames[..n - 1]);
      assert TotalSize([frames[n - 1]]) == |frames[n - 1].candles| by {
        assert [frames[n - 1]][..0] == [];
      }
    }
  }

  ////// One round of the merge

  /** Series `i` contributes to the frame at `minTime`: it is at or after
      the first live series, still live, and its cursor candle has that time. */
  predicate HitAt(inputs: seq<seq<StockCandle>>, cursors: seq<int>, start: int, minTime: int, i: int)
    requires CursorsInRange(inputs, cursors) && 0 <= i < |cursors|
  {
    start <= i && 0 <= cursors[i] && inputs[i][cursors[i]].closeTime == minTime
  }

  /** `start` is the first series whose cursor is still live. */
  predicate FirstLiveAt(cursors: seq<int>, start: int)
  {
    && 0 <= start < |cursors| && cursors[start] >= 0
    && forall i :: 0 <= i < start ==> cursors[i] < 0
  }

  /** `minTime` is the earliest cursor time, attained by series `at`. */
  predicate IsMinimum(inputs: seq<seq<StockCandle>>, cursors: seq<int>, start: int, minTime: int, at: int)
    requires CursorsInRange(inputs, cursors)
  {
    && 0 <= start <= at < |cursors| && cursors[at] >= 0 && inputs[at][cursors[at]].closeTime == minTime
    && forall i :: start <= i < |cursors| && cursors[i] >= 0 ==> minTime <= inputs[i][cursors[i]].closeTime
  }

  /** What one frame collection produces: each hit series' cursor candle,
      in series order, with exactly the hit cursors moved by one. */
  predicate Collected(inputs: seq<seq<StockCandle>>, cursors: seq<int>, start: int, minTime: int,
                      candles: seq<StockCandle>, next: seq<int>, sources: seq<Source>)
    requires CursorsInRange(inputs, cursors)
  {
    && CursorsInRange(inputs, next)
    && (forall i :: 0 <= i < |cursors| ==>
          next[i] == if HitAt(inputs, cursors, start, minTime, i) then cursors[i] - 1 else cursors[i])
    && |sources| == |candles|
    && StrictSeries(sources)
    && (forall j :: 0 <= j < |sources| ==>
          && 0 <= sources[j].series < |cursors|
          && HitAt(inputs, cursors, start, minTime, sources[j].series)
          && sources[j].offset == cursors[sources[j].series]
          && candles[j] == inputs[sources[j].series][sources[j].offset])
    && (forall i :: 0 <= i < |cursors| && HitAt(inputs, cursors, start, minTime, i) ==> Source(i, cursors[i]) in sources)
    && Remaining(next) + |candles| == Remaining(cursors)
  }

  /** The merge loop's invariant, over the cursors and the frames emitted so
      far (oldest first). */
  ghost predicate MergeInvariant(inputs: seq<seq<StockCandle>>, cursors: seq<int>, acc: seq<Frame>, origin: seq<seq<Source>>)
  {
    && CursorsInRange(inputs, cursors)
    && |origin| == |acc|
    && (forall f :: 0 <= f < |acc| ==> FrameFrom(inputs, acc[f], origin[f]) && BehindCursors(cursors, origin[f]))
    && OffsetsDecrease(origin)
    && (forall src :: ValidSource(inputs, src) && cursors[src.series] < src.offset ==> Covered(origin, src))
    && TotalSize(acc) + Remaining(cursors) == TotalLength(inputs)
    && (AllNewestFirst(inputs) ==> OrderedSoFar(inputs, cursors, acc))
  }

  /** Emitted times increase, and every candle still under a cursor is later
      than the last frame. */
  ghost predicate OrderedSoFar(inputs: seq<seq<StockCandle>>, cursors: seq<int>, acc: seq<Frame>)
    requires CursorsInRange(inputs, cursors)
  {
    && (forall f1, f2 :: 0 <= f1 < f2 < |acc| ==> acc[f1].time < acc[f2].time)
    && (|acc| > 0 ==> forall i :: 0 <= i < |cursors| && cursors[i] >= 0 ==> acc[|acc| - 1].time < inputs[i][cursors[i]].closeTime)
  }

  /** The old frames stay traced and behind the moved cursors. */
  lemma OldFramesStay(inputs: seq<seq<StockCandle>>, cursors: seq<int>, next: seq<int>,
                      acc: seq<Frame>, origin: seq<seq<Source>>, fr: Frame, sources: seq<Source>)
    requires CursorsInRange(inputs, cursors) && |next| == |cursors| && |origin| == |acc|
    requires forall i :: 0 <= i < |cursors| ==> next[i] <= cursors[i]
    requires forall f :: 0 <= f < |acc| ==> FrameFrom(inputs, acc[f], origin[f]) && BehindCursors(cursors, origin[f])
    requires FrameFrom(inputs, fr, sources) && BehindCursors(next, sources)
    ensures forall f :: 0 <= f < |acc| + 1 ==>
              FrameFrom(inputs, (acc + [fr])[f], (origin + [sources])[f]) && BehindCursors(next, (origin + [sources])[f])
  {
    forall f | 0 <= f < |acc| + 1
      ensures FrameFrom(inputs, (acc + [fr])[f], (origin + [sources])[f]) && BehindCursors(next, (origin + [sources])[f])
    {
      if f < |acc| {
        assert (acc + [fr])[f] == acc[f] && (origin + [sources])[f] == origin[f];
      }
    }
  }

  /** A newly emitted frame names each series below the offsets it had
      named before. */
  lemma OffsetsKeepDecreasing(origin: seq<seq<Source>>, cursors: seq<int>, sources: seq<Source>)
    requires OffsetsDecrease(origin)
    requires forall f :: 0 <= f < |origin| ==> BehindCursors(cursors, origin[f])
    requires forall j :: 0 <= j < |sources| ==> 0 <= sources[j].series < |cursors| && sources[j].offset == cursors[sources[j].series]
    ensures OffsetsDecrease(origin + [sources])
  {
    var o: seq<seq<Source>> := origin + [sources];
    forall f1: int, f2: int, j1: int, j2: int |
      0 <= f1 < f2 < |o| && 0 <= j1 < |o[f1]| && 0 <= j2 < |o[f2]| && o[f1][j1].series == o[f2][j2].series
      ensures o[f1][j1].offset > o[f2][j2].offset
    {
      assert o[f1] == origin[f1];
      if f2 < |origin| {
        assert o[f2] == origin[f2];
      } else {
        assert o[f2] == sources;
        assert BehindCursors(cursors, origin[f1]);
      }
    }
  }

  lemma CoveredAppend(origin: seq<seq<Source>>, sources: seq<Source>, src: Source)
    requires Covered(origin, src) || src in sources
    ensures Covered(origin + [sources], src)
  {
    var o: seq<seq<Source>> := origin + [sources];
    if src in sources {
      assert src in o[|origin|];
    } else {
      var f :| 0 <= f < |origin| && src in origin[f];
      assert o[f] == origin[f];
    }
  }

  lemma CoverageStep(inputs: seq<seq<StockCandle>>, cursors: seq<int>, origin: seq<seq<Source>>,
                     start: int, minTime: int, candles: seq<StockCandle>, next: seq<int>, sources: seq<Source>)
    requires CursorsInRange(inputs, cursors)
    requires forall src :: ValidSource(inputs, src) && cursors[src.series] < src.offset ==> Covered(origin, src)
    requires Collected(inputs, cursors, start, minTime, candles, next, sources)
    ensures forall src :: ValidSource(inputs, src) && next[src.series] < src.offset ==> Covered(origin + [sources], src)
  {
    forall src | ValidSource(inputs, src) && next[src.series] < src.offset
      ensures Covered(origin + [sources], src)
    {
      var i := src.series;
      if cursors[i] < src.offset {
        CoveredAppend(origin, sources, src);
      } else {
        assert HitAt(inputs, cursors, start, minTime, i) && src == Source(i, cursors[i]);
        CoveredAppend(origin, sources, src);
      }
    }
  }

  lemma OrderStep(inputs: seq<seq<StockCandle>>, cursors: seq<int>, acc: seq<Frame>,
                  start: int, minTime: int, at: int, candles: seq<StockCandle>, next: seq<int>, sources: seq<Source>)
    requires CursorsInRange(inputs, cursors) && AllNewestFirst(inputs)
    requires OrderedSoFar(inputs, cursors, acc)
    requires FirstLiveAt(cursors, start) && IsMinimum(inputs, cursors, start, minTime, at)
    requires Collected(inputs, cursors, start, minTime, candles, next, sources)
    ensures OrderedSoFar(inputs, next, acc + [Frame(minTime, candles)])
  {
    var a := acc + [Frame(minTime, candles)];
    forall f1: int, f2: int | 0 <= f1 < f2 < |a| ensures a[f1].time < a[f2].time {
      assert a[f1] == acc[f1];
      if f2 < |acc| {
        assert a[f2] == acc[f2];
      } else if f1 < |acc| - 1 {
        assert acc[f1].time < acc[|acc| - 1].time;
      }
    }
    forall i: int | 0 <= i < |next| && next[i] >= 0 ensures minTime < inputs[i][next[i]].closeTime {
      if HitAt(inputs, cursors, start, minTime, i) {
        assert NewestFirst(inputs[i]);
        assert inputs[i][cursors[i] - 1].closeTime > inputs[i][cursors[i]].closeTime;
      } else {
        assert start <= i;
      }
    }
  }

  /** The frame of one round is well formed and lies behind the moved
      cursors; it is non-empty because the series attaining the minimum
      contributes to it. */
  lemma NewFrame(inputs: seq<seq<StockCandle>>, cursors: seq<int>,
                 start: int, minTime: int, at: int, candles: seq<StockCandle>, next: seq<int>, sources: seq<Source>)
    requires CursorsInRange(inputs, cursors) && IsMinimum(inputs, cursors, start, minTime, at)
    requires Collected(inputs, cursors, start, minTime, candles, next, sources)
    ensures FrameFrom(inputs, Frame(minTime, candles), sources) && BehindCursors(next, sources)
  {
    assert HitAt(inputs, cursors, start, minTime, at);
    assert Source(at, cursors[at]) in sources;
  }

  /** One round of the merge keeps the loop invariant. */
  lemma MergeStep(inputs: seq<seq<StockCandle>>, cursors: seq<int>, acc: seq<Frame>, origin: seq<seq<Source>>,
                  start: int, minTime: int, at: int, candles: seq<StockCandle>, next: seq<int>, sources: seq<Source>)
    requires MergeInvariant(inputs, cursors, acc, origin)
    requires FirstLiveAt(cursors, start) && IsMinimum(inputs, cursors, start, minTime, at)
    requires Collected(inputs, cursors, start, minTime, candles, next, sources)
    ensures MergeInvariant(inputs, next, acc + [Frame(minTime, candles)], origin + [sources])
  {
    var fr := Frame(minTime, candles);
    NewFrame(inputs, cursors, start, minTime, at, candles, next, sources);
    OldFramesStay(inputs, cursors, next, acc, origin, fr, sources);
    OffsetsKeepDecreasing(origin, cursors, sources);
    CoverageStep(inputs, cursors, origin, start, minTime, candles, next, sources);
    assert (acc + [fr])[..|acc|] == acc;
    if AllNewestFirst(inputs) {
      OrderStep(inputs, cursors, acc, start, minTime, at, candles, next, sources);
    }
  }

  ////// The three inner loops of a round

  /** The first series whose cursor is still live, or -1 when every series
      is exhausted. */
  method FirstLive(cursors: seq<int>) returns (start: int)
    ensures start == -1 ==> forall i :: 0 <= i < |cursors| ==> cursors[i] < 0
    ensures start != -1 ==> FirstLiveAt(cursors, start)
  {
    var i := 0;
    while i < |cursors|
      invariant 0 <= i <= |cursors|
      invariant forall k :: 0 <= k < i ==> cursors[k] < 0
    {
      if cursors[i] >= 0 {
        return i;
      }
      i := i + 1;
    }
    return -1;
  }

  /** The earliest closing time under a live cursor. */
  method MinimumTime(inputs: seq<seq<StockCandle>>, cursors: seq<int>, start: int) returns (minTime: int, ghost at: int)
    requires CursorsInRange(inputs, cursors) && FirstLiveAt(cursors, start)
    ensures IsMinimum(inputs, cursors, start, minTime, at)
  {
    minTime := inputs[start][cursors[start]].closeTime;
    at := start;
    for i := start to |cursors|
      invariant start <= at < |cursors| && cursors[at] >= 0 && inputs[at][cursors[at]].closeTime == minTime
      invariant forall k :: start <= k < i && cursors[k] >= 0 ==> minTime <= inputs[k][cursors[k]].closeTime
    {
      if cursors[i] >= 0 {
        var currentTime := inputs[i][cursors[i]].closeTime;
        if currentTime < minTime {
          minTime := currentTime;
          at := i;
        }
      }
    }
  }

  /** Takes, in series order, every cursor candle at `minTime` and moves
      its cursor one step toward the newest candle. */
  method CollectFrame(inputs: seq<seq<StockCandle>>, cursors: seq<int>, start: int, minTime: int)
      returns (candles: seq<StockCandle>, next: seq<int>, ghost sources: seq<Source>)
    requires CursorsInRange(inputs, cursors) && 0 <= start <= |cursors|
    ensures Collected(inputs, cursors, start, minTime, candles, next, sources)
  {
    candles, next, sources := [], cursors, [];
    for i := start to |cursors|
      invariant CursorsInRange(inputs, next)
      invariant forall k :: 0 <= k < |cursors| ==>
                  next[k] == if k < i && HitAt(inputs, cursors, start, minTime, k) then cursors[k] - 1 else cursors[k]
      invariant |sources| == |candles|
      invariant StrictSeries(sources)
      invariant forall j :: 0 <= j < |sources| ==>
                  && start <= sources[j].series < i
                  && HitAt(inputs, cursors, start, minTime, sources[j].series)
                  && sources[j].offset == cursors[sources[j].series]
                  && candles[j] == inputs[sources[j].series][sources[j].offset]
      invariant forall k :: 0 <= k < i && HitAt(inputs, cursors, start, minTime, k) ==> Source(k, cursors[k]) in sources
      invariant Remaining(next) + |candles| == Remaining(cursors)
    {
      if next[i] >= 0 {
        var currentTime := inputs[i][next[i]].closeTime;
        if currentTime == minTime {
          candles := candles + [inputs[i][next[i]]];
          sources := sources + [Source(i, next[i])];
          RemainingDecrement(next, i);
          next := next[i := next[i] - 1];
        }
      }
    }
  }

  /** Two-index swap reversal, as std::reverse does it on the vector. */
  method Reverse(s: seq<Frame>) returns (r: seq<Frame>)
    ensures r == Reversed(s)
  {
    r := s;
    var lo, hi := 0, |s| - 1;
    while lo < hi
      invariant 0 <= lo && hi == |s| - 1 - lo && lo <= |s| - lo
      invariant |r| == |s|
      invariant forall k :: 0 <= k < |s| && (k < lo || k > hi) ==> r[k] == s[|s| - 1 - k]
      invariant forall k :: lo <= k <= hi ==> r[k] == s[k]
    {
      r := r[lo := r[hi]][hi := r[lo]];
      lo, hi := lo + 1, hi - 1;
    }
  }

  ////// The merge

  /** The merged frames, newest first, together with the input positions
      of every frame's candles, listed in the order the frames were emitted
      (frame f of the result is entry |merged| - 1 - f of `origin`). */
  method MergeStockCandles(inputs: seq<seq<StockCandle>>) returns (merged: seq<Frame>, ghost origin: seq<seq<Source>>)
    ensures |origin| == |merged|
    ensures forall f :: 0 <= f < |merged| ==> FrameFrom(inputs, merged[f], origin[|merged| - 1 - f])
    ensures Unique(origin)
    ensures forall src :: ValidSource(inputs, src) ==> Covered(origin, src)
    ensures TotalSize(merged) == TotalLength(inputs)
    ensures AllNewestFirst(inputs) ==> Descending(merged)
  {
    var indexes := OldestCursors(inputs);
    var acc, cursors;
    ghost var accOrigin;
    acc, accOrigin, cursors := EmitFrames(inputs, indexes);
    merged := Reverse(acc);
    origin := accOrigin;
    MergeDone(inputs, cursors, acc, origin, merged);
  }

  /** One cursor per series, on its oldest candle (-1 for an empty series). */
  method OldestCursors(inputs: seq<seq<StockCandle>>) returns (indexes: seq<int>)
    ensures |indexes| == |inputs| && forall k :: 0 <= k < |inputs| ==> indexes[k] == |inputs[k]| - 1
  {
    indexes := [];
    for i := 0 to |inputs|
      invariant |indexes| == i && forall k :: 0 <= k < i ==> indexes[k] == |inputs[k]| - 1
    {
      indexes := indexes + [|inputs[i]| - 1];
    }
  }

  /** The main loop of the merge: while some cursor is live, emit the frame
      of the earliest remaining close time and move the cursors past it. */
  method EmitFrames(inputs: seq<seq<StockCandle>>, start: seq<int>)
    returns (acc: seq<Frame>, ghost accOrigin: seq<seq<Source>>, indexes: seq<int>)
    requires |start| == |inputs| && forall k :: 0 <= k < |inputs| ==> start[k] == |inputs[k]| - 1
    ensures MergeInvariant(inputs, indexes, acc, accOrigin)
    ensures forall i :: 0 <= i < |indexes| ==> indexes[i] < 0
  {
    MergeStart(inputs, start);
    acc, accOrigin, indexes := [], [], start;
    RemainingNonNegative(inputs, indexes);
    while true
      invariant MergeInvariant(inputs, indexes, acc, accOrigin)
      decreases Remaining(indexes)
    {
      var start := FirstLive(indexes);
      if start == -1 {
        break;
      }
      var minTime, at := MinimumTime(inputs, indexes, start);
      var candles, next, sources := CollectFrame(inputs, indexes, start, minTime);
      MergeStep(inputs, indexes, acc, accOrigin, start, minTime, at, candles, next, sources);
      RemainingNonNegative(inputs, next);
      acc := acc + [Frame(minTime, candles)];
      accOrigin := accOrigin + [sources];
      indexes := next;
    }
  }

  /** The cursors start on the oldest candle of every series, with nothing
      emitted yet. */
  lemma MergeStart(inputs: seq<seq<StockCandle>>, cursors: seq<int>)
    requires |cursors| == |inputs| && forall i :: 0 <= i < |inputs| ==> cursors[i] == |inputs[i]| - 1
    ensures MergeInvariant(inputs, cursors, [], [])
  {
    RemainingInitial(inputs, cursors);
  }

  /** Once every cursor is exhausted, the reversed frames have every
      property of the merge's result. */
  lemma MergeDone(inputs: seq<seq<StockCandle>>, cursors: seq<int>, acc: seq<Frame>, origin: seq<seq<Source>>,
                  merged: seq<Frame>)
    requires MergeInvariant(inputs, cursors, acc, origin)
    requires forall i :: 0 <= i < |cursors| ==> cursors[i] < 0
    requires merged == Reversed(acc)
    ensures |origin| == |merged|
    ensures forall f :: 0 <= f < |merged| ==> FrameFrom(inputs, merged[f], origin[|merged| - 1 - f])
    ensures Unique(origin)
    ensures forall src :: ValidSource(inputs, src) ==> Covered(origin, src)
    ensures TotalSize(merged) == TotalLength(inputs)
    ensures AllNewestFirst(inputs) ==> Descending(merged)
  {
    RemainingExhausted(cursors);
    TotalSizeReversed(acc);
    FramesReversed(inputs, acc, origin, merged);
    UniqueFromOrder(origin);
    if AllNewestFirst(inputs) {
      TimesReversed(acc, merged);
    }
  }

  /** `back` holds the frames of `acc` in the opposite order. */
  predicate Backwards(acc: seq<Frame>, back: seq<Frame>)
  {
    |back| == |acc| && forall k :: 0 <= k < |acc| ==> back[k] == acc[|acc| - 1 - k]
  }

  lemma FramesReversed(inputs: seq<seq<StockCandle>>, acc: seq<Frame>, origin: seq<seq<Source>>, back: seq<Frame>)
    requires |origin| == |acc| && Backwards(acc, back)
    requires forall f :: 0 <= f < |acc| ==> FrameFrom(inputs, acc[f], origin[f])
    ensures forall f :: 0 <= f < |back| ==> FrameFrom(inputs, back[f], origin[|back| - 1 - f])
  {
    var n := |acc|;
    forall f | 0 <= f < n ensures FrameFrom(inputs, back[f], origin[n - 1 - f]) {
      assert back[f] == acc[n - 1 - f];
    }
  }

  /** Increasing times read backwards strictly decrease. */
  lemma TimesReversed(acc: seq<Frame>, back: seq<Frame>)
    requires Backwards(acc, back)
    requires forall f1, f2 :: 0 <= f1 < f2 < |acc| ==> acc[f1].time < acc[f2].time
    ensures Descending(back)
  {
    var n := |acc|;
    forall f1, f2 | 0 <= f1 < f2 < n ensures back[f1].time > back[f2].time {
      assert back[f1] == acc[n - 1 - f1] && back[f2] == acc[n - 1 - f2];
    }
  }

  /** Strict series order within a frame and decreasing offsets across
      frames leave no position named twice. */
  lemma UniqueFromOrder(origin: seq<seq<Source>>)
    requires forall f :: 0 <= f < |origin| ==> StrictSeries(origin[f])
    requires OffsetsDecrease(origin)
    ensures Unique(origin)
  {
    forall f1: int, j1: int, f2: int, j2: int |
      0 <= f1 < |origin| && 0 <= j1 < |origin[f1]| && 0 <= f2 < |origin| && 0 <= j2 < |origin[f2]|
      && origin[f1][j1] == origin[f2][j2]
      ensures f1 == f2 && j1 == j2
    {
      if f1 == f2 {
        assert StrictSeries(origin[f1]);
      }
    }
  }

  /** In frames whose times strictly decrease and whose candles carry their
      frame's time, two candles share a frame exactly when their closing
      times are equal. */
  lemma SameTimeSameFrame(frames: seq<Frame>)
    requires forall f, j :: 0 <= f < |frames| && 0 <= j < |frames[f].candles| ==> frames[f].candles[j].closeTime == frames[f].time
    requires Descending(frames)
    ensures forall f1, j1, f2, j2 ::
              (0 <= f1 < |frames| && 0 <= j1 < |frames[f1].candles| && 0 <= f2 < |frames| && 0 <= j2 < |frames[f2].candles|)
              ==> (frames[f1].candles[j1].closeTime == frames[f2].candles[j2].closeTime <==> f1 == f2)
  {
    forall f1: int, j1: int, f2: int, j2: int |
      0 <= f1 < |frames| && 0 <= j1 < |frames[f1].candles| && 0 <= f2 < |frames| && 0 <= j2 < |frames[f2].candles|
      ensures frames[f1].candles[j1].closeTime == frames[f2].candles[j2].closeTime <==> f1 == f2
    {
      if f1 < f2 {
        assert frames[f1].time > frames[f2].time;
      } else if f2 < f1 {
        assert frames[f2].time > frames[f1].time;
      }
    }
  }
}
