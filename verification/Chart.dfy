/** Chart compaction, and the map between minutes and pixels, over exact numbers. */
module Chart {
  import opened Prelude

  datatype ChartCandle = ChartCandle(time: int, open: real, high: real, low: real, close: real,
                                     volume: real, closed: bool)

  datatype Bucket = Bucket(candle: ChartCandle, sampleCount: nat)

  // -------------------------------------------------------------------------
  // Aggregates

  function MaxHigh(cs: seq<ChartCandle>): (m: real)
    requires cs != []
    ensures forall c | c in cs :: c.high <= m
    ensures exists c :: c in cs && c.high == m
  {
    var n := |cs| - 1;
    assert cs[n] in cs;
    if n == 0 then cs[0].high
    else
      assert forall c :: c in cs <==> c == cs[n] || c in cs[..n];
      var before := MaxHigh(cs[..n]);
      if before < cs[n].high then cs[n].high else before
  }

  function MinLow(cs: seq<ChartCandle>): (m: real)
    requires cs != []
    ensures forall c | c in cs :: m <= c.low
    ensures exists c :: c in cs && c.low == m
  {
    var n := |cs| - 1;
    assert cs[n] in cs;
    if n == 0 then cs[0].low
    else
      assert forall c :: c in cs <==> c == cs[n] || c in cs[..n];
      var before := MinLow(cs[..n]);
      if cs[n].low < before then cs[n].low else before
  }

  function SumVolume(cs: seq<ChartCandle>): real {
    if cs == [] then 0.0 else SumVolume(cs[..|cs| - 1]) + cs[|cs| - 1].volume
  }

  predicate AllClosed(cs: seq<ChartCandle>) {
    forall c | c in cs :: c.closed
  }

  /** One candle that stands for a group. */
  function Aggregate(cs: seq<ChartCandle>): ChartCandle
    requires cs != []
  {
    ChartCandle(cs[0].time, cs[0].open, MaxHigh(cs), MinLow(cs), cs[|cs| - 1].close, SumVolume(cs), AllClosed(cs))
  }

  function Candles(buckets: seq<Bucket>): (cs: seq<ChartCandle>)
    ensures |cs| == |buckets| && forall i | 0 <= i < |cs| :: cs[i] == buckets[i].candle
  {
    seq(|buckets|, i requires 0 <= i < |buckets| => buckets[i].candle)
  }

  function Samples(buckets: seq<Bucket>): nat {
    if buckets == [] then 0 else Samples(buckets[..|buckets| - 1]) + buckets[|buckets| - 1].sampleCount
  }

  // -------------------------------------------------------------------------
  // Compaction

  function CeilDiv(n: nat, d: nat): nat
    requires d >= 1
  {
    (n + d - 1) / d
  }

  function Step(n: nat, maxCount: nat): (step: nat)
    requires maxCount >= 1
    ensures step >= 1
  {
    if n <= maxCount then 1 else CeilDiv(n, maxCount)
  }

  /** Consecutive groups of `step` candles, the last one possibly shorter. */
  function Compacted(cs: seq<ChartCandle>, step: nat): seq<Bucket>
    requires step >= 1
  {
    if cs == [] then []
    else if |cs| <= step then [Bucket(Aggregate(cs), |cs|)]
    else [Bucket(Aggregate(cs[..step]), step)] + Compacted(cs[step..], step)
  }

  /** `compactCandles`. */
  method CompactCandles(candles: seq<ChartCandle>, maxCount: nat) returns (compacted: seq<Bucket>)
    requires maxCount >= 1
    ensures compacted == Compacted(candles, Step(|candles|, maxCount))
    ensures |compacted| <= maxCount && Samples(compacted) == |candles|
    ensures candles != [] ==> compacted != [] && Aggregate(Candles(compacted)) == Aggregate(candles)
    ensures candles != [] ==> exists s :: Grouped(compacted, candles, s) && FitsWith(|candles|, maxCount, s)
  {
    hide Compacted;
    hide Samples;
    hide Aggregate;
    hide Candles;
    hide Grouped;
    hide FitsWith;
    CompactCandlesKeepsTheChart(candles, maxCount);
    if candles != [] {
      CompactedToLeastGroups(candles, maxCount);
    }
    if |candles| <= maxCount {
      CompactedSingly(candles);
      return seq(|candles|, i requires 0 <= i < |candles| => Bucket(candles[i], 1));
    }
    var step := CeilDiv(|candles|, maxCount);
    StepCovers(|candles|, maxCount);
    compacted := [];
    var index := 0;
    assert candles[0..] == candles;
    while index < |candles|
      invariant 0 <= index
      invariant compacted + Compacted(candles[Min(index, |candles|)..], step) == Compacted(candles, step)
      decreases |candles| - index
    {
      var group := candles[index..Min(index + step, |candles|)];
      CompactedGroup(candles, index, step);
      compacted := compacted + [Bucket(Aggregate(group), |group|)];
      index := index + step;
    }
    CompactedNothing(step);
    assert candles[|candles|..] == [];
  }

  lemma CompactedNothing(step: nat)
    requires step >= 1
    ensures Compacted([], step) == []
  {
  }

  lemma CompactedGroup(cs: seq<ChartCandle>, index: nat, step: nat)
    requires step >= 1 && index < |cs|
    ensures var next := Min(index + step, |cs|);
      Compacted(cs[index..], step) == [Bucket(Aggregate(cs[index..next]), next - index)] + Compacted(cs[next..], step)
  {
    hide Aggregate;
    var next, rest := Min(index + step, |cs|), cs[index..];
    if |rest| <= step {
      assert cs[index..next] == rest && cs[next..] == [];
    } else {
      assert cs[index..next] == rest[..step] && rest[step..] == cs[next..];
    }
  }

  lemma {:induction false} CompactedSingly(cs: seq<ChartCandle>)
    ensures Compacted(cs, 1) == seq(|cs|, i requires 0 <= i < |cs| => Bucket(cs[i], 1))
  {
    hide Aggregate;
    if cs != [] {
      AggregateOne(cs[0]);
      assert cs[..1] == [cs[0]];
      CompactedSingly(cs[1..]);
      if |cs| == 1 {
        assert cs == [cs[0]];
      }
    }
  }

  lemma AggregateOne(c: ChartCandle)
    ensures Aggregate([c]) == c
  {
    assert [c][..0] == [];
    assert SumVolume([c]) == c.volume;
    assert c in [c];
  }

  lemma StepCovers(n: nat, maxCount: nat)
    requires maxCount >= 1
    ensures n <= maxCount * Step(n, maxCount)
    ensures n >= 1 ==> CeilDiv(n, maxCount) >= 1
  {
    var q := CeilDiv(n, maxCount);
    assert n + maxCount - 1 == q * maxCount + (n + maxCount - 1) % maxCount;
    assert q * maxCount == maxCount * q;
    assert q == 0 ==> q * maxCount == 0;
  }

  // -------------------------------------------------------------------------
  // Size, samples and aggregates

  lemma {:induction false} CompactedSize(cs: seq<ChartCandle>, step: nat, maxCount: nat)
    requires step >= 1 && |cs| <= maxCount * step
    ensures |Compacted(cs, step)| <= maxCount
    ensures Samples(Compacted(cs, step)) == |cs|
    ensures forall b | b in Compacted(cs, step) :: 1 <= b.sampleCount <= step
  {
    hide Aggregate;
    if |cs| > step {
      assert maxCount <= 1 ==> maxCount * step <= step;
      assert maxCount * step == (maxCount - 1) * step + step;
      CompactedSize(cs[step..], step, maxCount - 1);
      SamplesConcat([Bucket(Aggregate(cs[..step]), step)], Compacted(cs[step..], step));
    }
  }

  lemma {:induction false} SamplesConcat(a: seq<Bucket>, b: seq<Bucket>)
    ensures Samples(a + b) == Samples(a) + Samples(b)
  {
    if b == [] {
      assert a + b == a;
    } else {
      SamplesConcat(a, b[..|b| - 1]);
      assert (a + b)[..|a + b| - 1] == a + b[..|b| - 1];
    }
  }

  lemma {:induction false} SumConcat(a: seq<ChartCandle>, b: seq<ChartCandle>)
    ensures SumVolume(a + b) == SumVolume(a) + SumVolume(b)
  {
    if b == [] {
      assert a + b == a;
    } else {
      SumConcat(a, b[..|b| - 1]);
      assert (a + b)[..|a + b| - 1] == a + b[..|b| - 1];
    }
  }

  function Joined(a: ChartCandle, b: ChartCandle): ChartCandle {
    ChartCandle(a.time, a.open, if a.high < b.high then b.high else a.high, if b.low < a.low then b.low else a.low,
                b.close, a.volume + b.volume, a.closed && b.closed)
  }

  lemma AggregateConcat(a: seq<ChartCandle>, b: seq<ChartCandle>)
    requires a != [] && b != []
    ensures Aggregate(a + b) == Joined(Aggregate(a), Aggregate(b))
  {
    var ab := a + b;
    EndsConcat(a, b);
    assert Aggregate(ab).time == Aggregate(a).time && Aggregate(ab).open == Aggregate(a).open;
    assert Aggregate(ab).close == Aggregate(b).close;
    assert Aggregate(ab).high == MaxHigh(ab) && Aggregate(ab).low == MinLow(ab);
    assert Aggregate(ab).volume == SumVolume(ab) && Aggregate(ab).closed == AllClosed(ab);
    hide MaxHigh, MinLow, SumVolume, AllClosed;
    SumConcat(a, b);
    HighConcat(a, b);
    LowConcat(a, b);
    ClosedConcat(a, b);
  }

  lemma EndsConcat<T>(a: seq<T>, b: seq<T>)
    requires a != [] && b != []
    ensures var ab := a + b; ab != [] && ab[0] == a[0] && ab[|ab| - 1] == b[|b| - 1]
  {
  }

  lemma ClosedConcat(a: seq<ChartCandle>, b: seq<ChartCandle>)
    ensures AllClosed(a + b) <==> AllClosed(a) && AllClosed(b)
  {
    assert forall c :: c in a + b <==> c in a || c in b;
  }

  lemma HighConcat(a: seq<ChartCandle>, b: seq<ChartCandle>)
    requires a != [] && b != []
    ensures MaxHigh(a + b) == if MaxHigh(a) < MaxHigh(b) then MaxHigh(b) else MaxHigh(a)
  {
    assert forall c :: c in a + b <==> c in a || c in b;
    hide MaxHigh;
  }

  lemma LowConcat(a: seq<ChartCandle>, b: seq<ChartCandle>)
    requires a != [] && b != []
    ensures MinLow(a + b) == if MinLow(b) < MinLow(a) then MinLow(b) else MinLow(a)
  {
    assert forall c :: c in a + b <==> c in a || c in b;
    hide MinLow;
  }

  /** Compaction conserves the whole chart's open, high, low, close, volume and closedness. */
  lemma {:induction false} CompactionConserves(cs: seq<ChartCandle>, step: nat)
    requires step >= 1 && cs != []
    ensures Compacted(cs, step) != []
    ensures Aggregate(Candles(Compacted(cs, step))) == Aggregate(cs)
  {
    hide Aggregate;
    if |cs| <= step {
      AggregateOne(Aggregate(cs));
      assert Candles(Compacted(cs, step)) == [Aggregate(cs)];
    } else {
      var first, rest := cs[..step], cs[step..];
      CompactionConserves(rest, step);
      AggregateConcat(first, rest);
      assert cs == first + rest;
      var later := Candles(Compacted(rest, step));
      assert Candles(Compacted(cs, step)) == [Aggregate(first)] + later;
      AggregateConcat([Aggregate(first)], later);
      AggregateOne(Aggregate(first));
    }
  }

  /** For any n candles and any limit: at most the limit of buckets, whose samples add up to n and
      whose aggregate is that of the input. */
  lemma CompactCandlesKeepsTheChart(cs: seq<ChartCandle>, maxCount: nat)
    requires maxCount >= 1
    ensures var out := Compacted(cs, Step(|cs|, maxCount));
      && |out| <= maxCount
      && Samples(out) == |cs|
      && (cs != [] ==> out != [] && Aggregate(Candles(out)) == Aggregate(cs))
  {
    StepCovers(|cs|, maxCount);
    CompactedSize(cs, Step(|cs|, maxCount), maxCount);
    if cs != [] {
      CompactionConserves(cs, Step(|cs|, maxCount));
    }
  }

  // -------------------------------------------------------------------------
  // Groups

  /** The bucket stands for the group: its first time and open, its last close, its highest high and lowest low,
      its whole volume, and closed if all of it is. */
  ghost predicate Summarizes(b: Bucket, group: seq<ChartCandle>) {
    && group != [] && b.sampleCount == |group|
    && b.candle.time == group[0].time && b.candle.open == group[0].open
    && b.candle.close == group[|group| - 1].close
    && (forall c | c in group :: b.candle.low <= c.low && c.high <= b.candle.high)
    && (exists c :: c in group && c.high == b.candle.high)
    && (exists c :: c in group && c.low == b.candle.low)
    && b.candle.volume == SumVolume(group)
    && (b.candle.closed <==> forall c | c in group :: c.closed)
  }

  /** The buckets stand for consecutive groups of `s` candles that make up the input; only the last may be
      shorter. */
  ghost predicate Grouped(buckets: seq<Bucket>, cs: seq<ChartCandle>, s: nat) {
    && s >= 1
    && (|buckets| - 1) * s < |cs| <= |buckets| * s
    && forall i | 0 <= i < |buckets| ::
         0 <= i * s <= Min((i + 1) * s, |cs|) && Summarizes(buckets[i], cs[i * s..Min((i + 1) * s, |cs|)])
  }

  /** One candle a group when the input fits, and otherwise the least size that fits. */
  ghost predicate FitsWith(n: nat, maxCount: nat, s: nat) {
    if n <= maxCount then s == 1 else (s - 1) * maxCount < n <= s * maxCount
  }

  lemma AggregateSummarizes(group: seq<ChartCandle>)
    requires group != []
    ensures Summarizes(Bucket(Aggregate(group), |group|), group)
  {
    hide SumVolume;
  }

  /** Volumes add up: this and its value on one candle determine the total. */
  lemma VolumeAddsUp(a: seq<ChartCandle>, b: seq<ChartCandle>, c: ChartCandle)
    ensures SumVolume([]) == 0.0 && SumVolume([c]) == c.volume && SumVolume(a + b) == SumVolume(a) + SumVolume(b)
  {
    assert [c][..0] == [];
    SumConcat(a, b);
  }

  lemma {:induction false} CompactedGroups(cs: seq<ChartCandle>, s: nat)
    requires s >= 1 && cs != []
    ensures Grouped(Compacted(cs, s), cs, s)
  {
    hide Aggregate;
    hide Summarizes;
    if |cs| <= s {
      AggregateSummarizes(cs);
      assert cs[0..|cs|] == cs;
      assert 0 * s == 0 && 1 * s == s;
    } else {
      CompactedGroups(cs[s..], s);
      AggregateSummarizes(cs[..s]);
      GroupedCons(Bucket(Aggregate(cs[..s]), s), Compacted(cs[s..], s), cs, s);
    }
  }

  lemma GroupedCons(first: Bucket, later: seq<Bucket>, cs: seq<ChartCandle>, s: nat)
    requires s >= 1 && |cs| > s && Summarizes(first, cs[..s]) && Grouped(later, cs[s..], s)
    ensures Grouped([first] + later, cs, s)
  {
    hide Summarizes;
    var out, rest := [first] + later, cs[s..];
    assert |out| * s == |later| * s + s && (|out| - 1) * s == (|later| - 1) * s + s;
    forall i | 0 <= i < |out|
      ensures 0 <= i * s <= Min((i + 1) * s, |cs|) && Summarizes(out[i], cs[i * s..Min((i + 1) * s, |cs|)])
    {
      assert (i + 1) * s == i * s + s;
      if i == 0 {
        assert 0 * s == 0 && 1 * s == s;
      } else {
        assert i * s == (i - 1) * s + s;
        var from, to := (i - 1) * s, Min((i - 1 + 1) * s, |rest|);
        assert Summarizes(later[i - 1], rest[from..to]);
        assert rest[from..to] == cs[from + s..to + s];
      }
    }
  }

  /** Compaction, said of its output: the input in consecutive groups of one size `s`, which is one when the input
      fits, and otherwise the least size for which at most `maxCount` groups are enough. */
  lemma CompactedToLeastGroups(cs: seq<ChartCandle>, maxCount: nat)
    requires maxCount >= 1 && cs != []
    ensures exists s :: Grouped(Compacted(cs, Step(|cs|, maxCount)), cs, s) && FitsWith(|cs|, maxCount, s)
  {
    hide *;
    var s := Step(|cs|, maxCount);
    CompactedGroups(cs, s);
    StepIsLeast(|cs|, maxCount);
  }

  lemma StepIsLeast(n: nat, maxCount: nat)
    requires maxCount >= 1
    ensures FitsWith(n, maxCount, Step(n, maxCount))
  {
    StepCovers(n, maxCount);
    if n > maxCount {
      var q := CeilDiv(n, maxCount);
      assert n + maxCount - 1 == q * maxCount + (n + maxCount - 1) % maxCount;
      assert (q - 1) * maxCount == q * maxCount - maxCount;
    }
  }

  // -------------------------------------------------------------------------
  // Time

  predicate GapFree(cs: seq<ChartCandle>) {
    forall i | 0 < i < |cs| :: cs[i].time == cs[i - 1].time + 60_000
  }

  function CandleDuration(b: Bucket): int {
    (if b.sampleCount == 0 then 1 else b.sampleCount) * 60_000
  }

  function EndOf(b: Bucket): int {
    b.candle.time + CandleDuration(b)
  }

  lemma {:induction false} GapFreeTime(cs: seq<ChartCandle>, i: nat)
    requires GapFree(cs) && i < |cs|
    ensures cs[i].time == cs[0].time + i * 60_000
  {
    if i > 0 {
      GapFreeTime(cs, i - 1);
    }
  }

  lemma AggregateTime(cs: seq<ChartCandle>)
    requires cs != []
    ensures Aggregate(cs).time == cs[0].time
  {
  }

  /** On gap-free input the buckets tile time: each ends where the next starts, the first starts
      with the first candle and the last ends a minute after the last candle opened. */
  lemma {:induction false} BucketsTileTime(cs: seq<ChartCandle>, step: nat)
    requires step >= 1 && cs != [] && GapFree(cs)
    ensures var out := Compacted(cs, step);
      && out != [] && out[0].candle.time == cs[0].time
      && EndOf(out[|out| - 1]) == cs[|cs| - 1].time + 60_000
      && Tiles(out)
  {
    hide Aggregate;
    if |cs| <= step {
      AggregateTime(cs);
      GapFreeTime(cs, |cs| - 1);
    } else {
      var rest := cs[step..];
      GapFreeTail(cs, step);
      hide GapFree;
      AggregateTime(cs[..step]);
      BucketsTileTime(rest, step);
      TileStep(Bucket(Aggregate(cs[..step]), step), Compacted(rest, step));
    }
  }

  lemma GapFreeTail(cs: seq<ChartCandle>, step: nat)
    requires GapFree(cs) && step < |cs|
    ensures GapFree(cs[step..]) && cs[step..][0].time == cs[0].time + step * 60_000
    ensures cs[step..][|cs| - step - 1] == cs[|cs| - 1]
  {
    GapFreeTime(cs, step);
  }

  predicate Tiles(buckets: seq<Bucket>) {
    forall i | 0 < i < |buckets| :: EndOf(buckets[i - 1]) == buckets[i].candle.time
  }

  lemma TileStep(first: Bucket, later: seq<Bucket>)
    requires later != [] && Tiles(later) && EndOf(first) == later[0].candle.time
    ensures Tiles([first] + later)
    ensures ([first] + later)[0] == first && ([first] + later)[|later|] == later[|later| - 1]
  {
    var out := [first] + later;
    forall i | 0 < i < |out| ensures EndOf(out[i - 1]) == out[i].candle.time {
      assert out[i] == later[i - 1];
      assert i > 1 ==> out[i - 1] == later[i - 2];
    }
  }

  // -------------------------------------------------------------------------
  // Pixels

  datatype Frame = Frame(rangeStart: int, rangeEnd: int, width: real, left: real, right: real)

  predicate Drawable(f: Frame) {
    f.rangeStart <= f.rangeEnd && f.width - f.left - f.right > 0.0
  }

  function Duration(f: Frame): int {
    f.rangeEnd - f.rangeStart + 60_000
  }

  function XForTime(time: real, f: Frame): real
    requires Drawable(f)
  {
    f.left + ((time - f.rangeStart as real) / Duration(f) as real) * (f.width - f.left - f.right)
  }

  function XForCandle(b: Bucket, f: Frame): real
    requires Drawable(f)
  {
    XForTime(b.candle.time as real + CandleDuration(b) as real / 2.0, f)
  }

  /** The moment drawn at a pixel column. */
  function MomentAt(x: real, f: Frame): real
    requires Drawable(f)
  {
    f.rangeStart as real + ((x - f.left) / (f.width - f.left - f.right)) * Duration(f) as real
  }

  /** The minute under a pointer, clamped to the plot area. */
  function HoveredOpenTime(pointerX: real, f: Frame): int
    requires Drawable(f)
  {
    var low := if pointerX < f.left then f.left else pointerX;
    var x := if low > f.width - f.right then f.width - f.right else low;
    (MomentAt(x, f) / 60_000.0).Floor * 60_000
  }

  lemma ScaleBack(part: real, whole: real, span: real)
    requires 0.0 <= part < whole && span > 0.0
    ensures 0.0 <= (part / whole) * span <= span
    ensures ((part / whole) * span) / span * whole == part
  {
    var ratio := part / whole;
    assert ratio * whole == part;
    assert 0.0 <= ratio <= 1.0;
    assert (ratio * span) / span == ratio;
  }

  /** Where a moment of the range is drawn, and which moment is drawn there. */
  lemma DrawnInside(moment: real, f: Frame)
    requires Drawable(f)
    requires f.rangeStart as real <= moment < f.rangeStart as real + Duration(f) as real
    ensures f.left <= XForTime(moment, f) <= f.width - f.right
    ensures MomentAt(XForTime(moment, f), f) == moment
  {
    var part, whole, span := moment - f.rangeStart as real, Duration(f) as real, f.width - f.left - f.right;
    ScaleBack(part, whole, span);
    var shift := (part / whole) * span;
    assert XForTime(moment, f) == f.left + shift;
    assert XForTime(moment, f) - f.left == shift;
  }

  /** Drawing a moment of a minute and hovering over its pixel gives the minute back. */
  lemma HoverInvertsDrawing(openTime: int, offset: real, f: Frame)
    requires Drawable(f) && openTime % 60_000 == 0 && 0.0 <= offset < 60_000.0
    requires f.rangeStart <= openTime <= f.rangeEnd
    ensures HoveredOpenTime(XForTime(openTime as real + offset, f), f) == openTime
  {
    hide XForTime;
    hide MomentAt;
    DrawnInside(openTime as real + offset, f);
    FloorMinute(openTime, offset);
  }

  /** Time runs from the left edge of the plot to the right one, strictly, and a bucket is drawn midway between
      where it starts and where it ends. */
  lemma TimeRunsRight(f: Frame, a: real, b: real, bucket: Bucket)
    requires Drawable(f) && a < b
    ensures XForTime(a, f) < XForTime(b, f)
    ensures XForTime(f.rangeStart as real, f) == f.left
    ensures XForTime((f.rangeEnd + 60_000) as real, f) == f.width - f.right
    ensures XForCandle(bucket, f) * 2.0
         == XForTime(bucket.candle.time as real, f) + XForTime(EndOf(bucket) as real, f)
  {
    hide *;
    DrawnOrder(f, a, b);
    DrawnEdges(f);
    DrawnMidway(f, bucket);
  }

  lemma DrawnOrder(f: Frame, a: real, b: real)
    requires Drawable(f) && a < b
    ensures XForTime(a, f) < XForTime(b, f)
  {
    var span, whole, start := f.width - f.left - f.right, Duration(f) as real, f.rangeStart as real;
    var from, to := a - start, b - start;
    ScaleIsLinear(from, to, whole, span);
    var x, y := (from / whole) * span, (to / whole) * span;
    assert XForTime(a, f) == f.left + x && XForTime(b, f) == f.left + y;
  }

  lemma DrawnEdges(f: Frame)
    requires Drawable(f)
    ensures XForTime(f.rangeStart as real, f) == f.left
    ensures XForTime((f.rangeEnd + 60_000) as real, f) == f.width - f.right
  {
    var span, whole := f.width - f.left - f.right, Duration(f) as real;
    ScaleIsLinear(0.0, whole, whole, span);
    assert (f.rangeEnd + 60_000) as real - f.rangeStart as real == whole;
  }

  lemma DrawnMidway(f: Frame, bucket: Bucket)
    requires Drawable(f)
    ensures XForCandle(bucket, f) * 2.0
         == XForTime(bucket.candle.time as real, f) + XForTime(EndOf(bucket) as real, f)
  {
    var span, whole, start := f.width - f.left - f.right, Duration(f) as real, f.rangeStart as real;
    var from, to := bucket.candle.time as real - start, EndOf(bucket) as real - start;
    ScaleMidpoint(from, to, whole, span);
    assert bucket.candle.time as real + CandleDuration(bucket) as real / 2.0 - start == (from + to) / 2.0;
    var x, y, m := (from / whole) * span, (to / whole) * span, (((from + to) / 2.0) / whole) * span;
    assert XForCandle(bucket, f) == f.left + m;
  }

  lemma ScaleIsLinear(a: real, b: real, whole: real, span: real)
    requires a < b && whole > 0.0 && span > 0.0
    ensures (a / whole) * span < (b / whole) * span
    ensures (0.0 / whole) * span == 0.0 && (whole / whole) * span == span
  {
    assert a / whole < b / whole;
  }

  lemma ScaleMidpoint(a: real, b: real, whole: real, span: real)
    requires whole > 0.0
    ensures (((a + b) / 2.0) / whole) * span * 2.0 == (a / whole) * span + (b / whole) * span
  {
    assert ((a + b) / 2.0) / whole * 2.0 == a / whole + b / whole;
  }

  /** The minute under a pointer: the first one at or left of the plot; it is in the range exactly when the pointer
      is left of the right edge, where it is the minute after the last. */
  lemma HoverStaysInRange(pointerX: real, f: Frame)
    requires Drawable(f) && f.rangeStart % 60_000 == 0 && f.rangeEnd % 60_000 == 0
    ensures f.rangeStart <= HoveredOpenTime(pointerX, f) <= f.rangeEnd + 60_000
    ensures HoveredOpenTime(pointerX, f) <= f.rangeEnd <==> pointerX < f.width - f.right
    ensures pointerX <= f.left ==> HoveredOpenTime(pointerX, f) == f.rangeStart
  {
    var span, whole := f.width - f.left - f.right, Duration(f) as real;
    var low := if pointerX < f.left then f.left else pointerX;
    var x := if low > f.width - f.right then f.width - f.right else low;
    var moment := MomentAt(x, f);
    RatioBounds(x - f.left, span, whole);
    assert f.rangeStart as real <= moment <= (f.rangeEnd + 60_000) as real;
    FloorBounds(moment, f.rangeStart, f.rangeEnd);
  }

  lemma RatioBounds(part: real, span: real, whole: real)
    requires 0.0 <= part <= span && span > 0.0 && whole > 0.0
    ensures 0.0 <= (part / span) * whole <= whole
    ensures (part / span) * whole == whole <==> part == span
    ensures part == 0.0 ==> (part / span) * whole == 0.0
  {
    var ratio := part / span;
    assert ratio * span == part;
    assert 0.0 <= ratio <= 1.0;
    if part < span {
      assert ratio < 1.0;
      assert ratio * whole < 1.0 * whole;
    }
  }

  lemma FloorBounds(moment: real, start: int, end: int)
    requires start % 60_000 == 0 && end % 60_000 == 0 && start <= end
    requires start as real <= moment <= (end + 60_000) as real
    ensures var minute := (moment / 60_000.0).Floor * 60_000;
      && start <= minute <= end + 60_000
      && (minute <= end <==> moment < (end + 60_000) as real)
      && (moment == start as real ==> minute == start)
  {
    var scaled := moment / 60_000.0;
    assert scaled * 60_000.0 == moment;
    assert (start / 60_000) as real * 60_000.0 == start as real;
    assert (end / 60_000 + 1) as real * 60_000.0 == (end + 60_000) as real;
    assert (start / 60_000) as real <= scaled <= (end / 60_000 + 1) as real;
  }

  lemma FloorMinute(openTime: int, offset: real)
    requires openTime % 60_000 == 0 && 0.0 <= offset < 60_000.0
    ensures ((openTime as real + offset) / 60_000.0).Floor * 60_000 == openTime
  {
    var minute := openTime / 60_000;
    assert openTime == minute * 60_000;
    var scaled := (openTime as real + offset) / 60_000.0;
    assert scaled * 60_000.0 == openTime as real + offset;
    assert minute as real <= scaled < minute as real + 1.0;
  }

  function Distance(b: Bucket, x: real, f: Frame): real
    requires Drawable(f)
  {
    if XForCandle(b, f) < x then x - XForCandle(b, f) else XForCandle(b, f) - x
  }

  lemma DistanceIsGap(b: Bucket, x: real, f: Frame)
    requires Drawable(f)
    ensures Distance(b, x, f) >= 0.0
    ensures XForCandle(b, f) == x + Distance(b, x, f) || XForCandle(b, f) == x - Distance(b, x, f)
  {
    hide XForCandle;
  }

  /** The reduce of the hover: the first of the candles nearest to the pointer. */
  function NearestCandle(buckets: seq<Bucket>, x: real, f: Frame): (nearest: nat)
    requires Drawable(f) && buckets != []
    ensures nearest < |buckets|
    ensures forall i | 0 <= i < |buckets| :: Distance(buckets[nearest], x, f) <= Distance(buckets[i], x, f)
    ensures forall i | 0 <= i < nearest :: Distance(buckets[nearest], x, f) < Distance(buckets[i], x, f)
  {
    var n := |buckets| - 1;
    if n == 0 then 0
    else
      var before := buckets[..n];
      var closest := NearestCandle(before, x, f);
      assert forall i | 0 <= i < n :: before[i] == buckets[i];
      assert forall i | 0 <= i < n :: Distance(buckets[closest], x, f) <= Distance(buckets[i], x, f) by {
        forall i | 0 <= i < n ensures Distance(buckets[closest], x, f) <= Distance(buckets[i], x, f) {
          assert Distance(before[closest], x, f) <= Distance(before[i], x, f);
        }
      }
      assert forall i | 0 <= i < closest :: Distance(buckets[closest], x, f) < Distance(buckets[i], x, f) by {
        forall i | 0 <= i < closest ensures Distance(buckets[closest], x, f) < Distance(buckets[i], x, f) {
          assert Distance(before[closest], x, f) < Distance(before[i], x, f);
        }
      }
      if Distance(buckets[n], x, f) < Distance(buckets[closest], x, f) then n else closest
  }
}
