/**
 The traffic sampler: two time-windowed buffers trimmed with moving heads and compacted now and
 then. It is proved against the full log of points since the last clear. Numbers are exact and
 every reading of the clock is a parameter.
 */
module TrafficSampler {
  import opened Wrappers

  datatype Point = Point(up: real, down: real, timestamp: real)

  datatype CompressedPoint = CompressedPoint(mean: Point, samples: nat)

  datatype SamplingConfig = SamplingConfig(rawDataMinutes: real, compressedDataMinutes: real, compressionRatio: int)

  function Milliseconds(minutes: real): real {
    minutes * 60.0 * 1000.0
  }

  // ----- time order -----

  ghost predicate IsSorted(points: seq<Point>) {
    forall i, j | 0 <= i < j < |points| :: points[i].timestamp <= points[j].timestamp
  }

  /** The points after the cutoff, in order. */
  function Newer(points: seq<Point>, cutoff: real): seq<Point> {
    if points == [] then []
    else
      var last := points[|points| - 1];
      Newer(points[..|points| - 1], cutoff) + (if last.timestamp > cutoff then [last] else [])
  }

  lemma {:induction false} NewerIsSuffix(points: seq<Point>, start: nat, cutoff: real)
    requires start <= |points|
    requires forall i | 0 <= i < start :: points[i].timestamp <= cutoff
    requires forall i | start <= i < |points| :: points[i].timestamp > cutoff
    ensures Newer(points, cutoff) == points[start..]
  {
    if points != [] {
      var front, last := points[..|points| - 1], points[|points| - 1];
      forall i | 0 <= i < |front|
        ensures front[i] == points[i]
      {
      }
      NewerIsSuffix(front, if start < |points| then start else |front|, cutoff);
      assert start < |points| ==> points[start..] == front[start..] + [last];
    }
  }

  // ----- compression -----

  function Total(points: seq<Point>, field: Point -> real): real {
    if points == [] then 0.0 else Total(points[..|points| - 1], field) + field(points[|points| - 1])
  }

  function Mean(points: seq<Point>): CompressedPoint
    requires points != []
  {
    var n := |points| as real;
    CompressedPoint(
      Point(Total(points, (p: Point) => p.up) / n, Total(points, (p: Point) => p.down) / n,
            Total(points, (p: Point) => p.timestamp) / n),
      |points|)
  }

  lemma {:induction false} TotalOfParts(a: seq<Point>, b: seq<Point>, field: Point -> real)
    ensures Total(a + b, field) == Total(a, field) + Total(b, field)
    ensures forall p: Point :: Total([p], field) == field(p)
  {
    assert forall p: Point :: [p][..0] == [];
    if b == [] {
      assert a + b == a;
    } else {
      var front, last := b[..|b| - 1], b[|b| - 1];
      TotalOfParts(a, front, field);
      assert (a + b)[..|a + b| - 1] == a + front;
    }
  }

  /** The traffic that compressed points stand for: each mean as often as it has samples. */
  function Weight(means: seq<CompressedPoint>, field: Point -> real): real {
    if means == [] then 0.0
    else
      var last := means[|means| - 1];
      Weight(means[..|means| - 1], field) + field(last.mean) * last.samples as real
  }

  lemma MeanConserves(points: seq<Point>)
    requires points != []
    ensures Mean(points).samples == |points|
    ensures Mean(points).mean.up * |points| as real == Total(points, (p: Point) => p.up)
    ensures Mean(points).mean.down * |points| as real == Total(points, (p: Point) => p.down)
    ensures Mean(points).mean.timestamp * |points| as real == Total(points, (p: Point) => p.timestamp)
  {
  }

  lemma NoWeight(field: Point -> real)
    ensures Weight(Means([]), field) == 0.0 == Total([], field)
  {
  }

  lemma WeightOneMore(front: seq<CompressedPoint>, last: CompressedPoint, field: Point -> real)
    ensures Weight(front + [last], field) == Weight(front, field) + field(last.mean) * last.samples as real
  {
    assert (front + [last])[..|front|] == front;
  }

  lemma {:induction false} WeightIsTotal(groups: seq<seq<Point>>, field: Point -> real)
    requires forall i | 0 <= i < |groups| :: groups[i] != []
    requires forall i | 0 <= i < |groups| ::
               Mean(groups[i]).samples == |groups[i]|
               && field(Mean(groups[i]).mean) * |groups[i]| as real == Total(groups[i], field)
    ensures Weight(Means(groups), field) == Total(Flatten(groups), field)
  {
    hide Mean, Means, Total, Weight;
    if groups == [] {
      NoWeight(field);
    } else {
      var front, last := groups[..|groups| - 1], groups[|groups| - 1];
      assert forall i | 0 <= i < |front| :: front[i] == groups[i];
      WeightIsTotal(front, field);
      assert groups == front + [last];
      MeansAppended(front, last);
      WeightOneMore(Means(front), Mean(last), field);
      TotalOfParts(Flatten(front), last, field);
    }
  }

  /** Compression loses no traffic and mixes no direction: the means weigh what their points total. */
  lemma CompressionConserves(groups: seq<seq<Point>>)
    requires forall i | 0 <= i < |groups| :: groups[i] != []
    ensures Weight(Means(groups), (p: Point) => p.up) == Total(Flatten(groups), (p: Point) => p.up)
    ensures Weight(Means(groups), (p: Point) => p.down) == Total(Flatten(groups), (p: Point) => p.down)
    ensures Weight(Means(groups), (p: Point) => p.timestamp) == Total(Flatten(groups), (p: Point) => p.timestamp)
  {
    hide Mean, Means, Weight, Total, Flatten;
    forall i | 0 <= i < |groups|
      ensures Mean(groups[i]).samples == |groups[i]|
      ensures Mean(groups[i]).mean.up * |groups[i]| as real == Total(groups[i], (p: Point) => p.up)
      ensures Mean(groups[i]).mean.down * |groups[i]| as real == Total(groups[i], (p: Point) => p.down)
      ensures Mean(groups[i]).mean.timestamp * |groups[i]| as real == Total(groups[i], (p: Point) => p.timestamp)
    {
      MeanConserves(groups[i]);
    }
    WeightIsTotal(groups, (p: Point) => p.up);
    WeightIsTotal(groups, (p: Point) => p.down);
    WeightIsTotal(groups, (p: Point) => p.timestamp);
  }

  function Flatten(groups: seq<seq<Point>>): seq<Point> {
    if groups == [] then [] else Flatten(groups[..|groups| - 1]) + groups[|groups| - 1]
  }

  lemma FlattenAppended(groups: seq<seq<Point>>, last: seq<Point>)
    ensures Flatten(groups + [last]) == Flatten(groups) + last
  {
    assert (groups + [last])[..|groups|] == groups;
  }

  /** The log cut into consecutive groups of `size` points, with the incomplete rest. */
  ghost predicate AreGroups(log: seq<Point>, size: nat, groups: seq<seq<Point>>, rest: seq<Point>) {
    && log == Flatten(groups) + rest
    && forall i | 0 <= i < |groups| :: |groups[i]| == size
  }

  function Means(groups: seq<seq<Point>>): (means: seq<CompressedPoint>)
    requires forall i | 0 <= i < |groups| :: groups[i] != []
    ensures |means| == |groups| && forall i | 0 <= i < |means| :: means[i] == Mean(groups[i])
  {
    seq(|groups|, i requires 0 <= i < |groups| => Mean(groups[i]))
  }

  function MeanPoints(compressed: seq<CompressedPoint>): (points: seq<Point>)
    ensures |points| == |compressed| && forall i | 0 <= i < |points| :: points[i] == compressed[i].mean
  {
    seq(|compressed|, i requires 0 <= i < |compressed| => compressed[i].mean)
  }

  lemma {:induction false} TotalBounds(points: seq<Point>, low: real, high: real)
    requires forall p | p in points :: low <= p.timestamp <= high
    ensures low * |points| as real <= Total(points, (p: Point) => p.timestamp) <= high * |points| as real
  {
    if points != [] {
      var front := points[..|points| - 1];
      TotalBounds(front, low, high);
      assert points[|points| - 1] in points;
      assert low * |points| as real == low * |front| as real + low;
      assert high * |points| as real == high * |front| as real + high;
    }
  }

  /** A mean lies between any bounds of its points. */
  lemma MeanBounds(points: seq<Point>, low: real, high: real)
    requires points != [] && forall p | p in points :: low <= p.timestamp <= high
    ensures low <= Mean(points).mean.timestamp <= high
  {
    TotalBounds(points, low, high);
    Quotients(Total(points, (p: Point) => p.timestamp), |points| as real, low, high);
  }

  lemma Quotients(total: real, n: real, low: real, high: real)
    requires n > 0.0 && low * n <= total <= high * n
    ensures low <= total / n <= high
  {
    var q := total / n;
    assert q * n == total;
    Scaled(low - q, n);
    Scaled(q - high, n);
  }

  lemma Scaled(a: real, n: real)
    requires n > 0.0
    ensures a * n > 0.0 <==> a > 0.0
  {
  }

  lemma {:induction false} GroupIsInLog(groups: seq<seq<Point>>, i: nat, p: Point)
    requires i < |groups| && p in groups[i]
    ensures p in Flatten(groups)
  {
    if i < |groups| - 1 {
      GroupIsInLog(groups[..|groups| - 1], i, p);
    }
  }

  lemma {:induction false} GroupsAreOrdered(groups: seq<seq<Point>>, rest: seq<Point>, i: nat, j: nat, p: Point, q: Point)
    requires IsSorted(Flatten(groups) + rest) && i < j < |groups| && p in groups[i] && q in groups[j]
    ensures p.timestamp <= q.timestamp
  {
    var front, last := groups[..|groups| - 1], groups[|groups| - 1];
    var log := Flatten(groups) + rest;
    assert log == Flatten(front) + (last + rest);
    if j < |groups| - 1 {
      GroupsAreOrdered(front, last + rest, i, j, p, q);
    } else {
      GroupIsInLog(front, i, p);
      var a :| 0 <= a < |Flatten(front)| && Flatten(front)[a] == p;
      var b :| 0 <= b < |last| && last[b] == q;
      assert log[a] == p && log[|Flatten(front)| + b] == q;
    }
  }

  /** The means of a time-sorted log are time-sorted. */
  lemma MeansAreSorted(log: seq<Point>, size: nat, groups: seq<seq<Point>>, rest: seq<Point>)
    requires size > 0 && IsSorted(log) && AreGroups(log, size, groups, rest)
    ensures IsSorted(MeanPoints(Means(groups)))
  {
    forall i, j | 0 <= i < j < |groups|
      ensures Mean(groups[i]).mean.timestamp <= Mean(groups[j]).mean.timestamp
    {
      EarlierMean(groups, rest, i, j);
    }
  }

  lemma EarlierMean(groups: seq<seq<Point>>, rest: seq<Point>, i: nat, j: nat)
    requires IsSorted(Flatten(groups) + rest) && i < j < |groups| && groups[i] != [] && groups[j] != []
    ensures Mean(groups[i]).mean.timestamp <= Mean(groups[j]).mean.timestamp
  {
    var low, high := Lowest(groups[i]), Highest(groups[j]);
    forall q | q in groups[j]
      ensures Mean(groups[i]).mean.timestamp <= q.timestamp <= high
    {
      forall p | p in groups[i]
        ensures low <= p.timestamp <= q.timestamp
      {
        GroupsAreOrdered(groups, rest, i, j, p, q);
      }
      MeanBounds(groups[i], low, q.timestamp);
    }
    MeanBounds(groups[j], Mean(groups[i]).mean.timestamp, high);
  }

  function Lowest(points: seq<Point>): (low: real)
    requires points != []
    ensures forall p | p in points :: low <= p.timestamp
  {
    var last := points[|points| - 1].timestamp;
    if |points| == 1 then last
    else
      var low := Lowest(points[..|points| - 1]);
      if low < last then low else last
  }

  function Highest(points: seq<Point>): (high: real)
    requires points != []
    ensures forall p | p in points :: p.timestamp <= high
  {
    var last := points[|points| - 1].timestamp;
    if |points| == 1 then last
    else
      var high := Highest(points[..|points| - 1]);
      if high > last then high else last
  }

  // ----- sorting -----

  function Inserted(points: seq<Point>, p: Point): seq<Point> {
    if points == [] || points[|points| - 1].timestamp <= p.timestamp then points + [p]
    else Inserted(points[..|points| - 1], p) + [points[|points| - 1]]
  }

  /** The points by time, equal times in their given order. */
  function SortedByTime(points: seq<Point>): seq<Point> {
    if points == [] then [] else Inserted(SortedByTime(points[..|points| - 1]), points[|points| - 1])
  }

  lemma {:induction false} InsertedSorts(points: seq<Point>, p: Point)
    requires IsSorted(points)
    ensures IsSorted(Inserted(points, p)) && multiset(Inserted(points, p)) == multiset(points) + multiset{p}
  {
    hide IsSorted;
    if points == [] || points[|points| - 1].timestamp <= p.timestamp {
      SortedUpToLast(points);
      AppendedIsSorted(points, p);
    } else {
      var front, last := points[..|points| - 1], points[|points| - 1];
      SortedUpToLast(points);
      InsertedSorts(front, p);
      assert points == front + [last];
      forall q | q in Inserted(front, p)
        ensures q.timestamp <= last.timestamp
      {
        assert q in multiset(Inserted(front, p));
      }
      AppendedIsSorted(Inserted(front, p), last);
    }
  }

  lemma SortedUpToLast(points: seq<Point>)
    requires IsSorted(points)
    ensures points != [] ==> IsSorted(points[..|points| - 1])
    ensures points != [] ==> forall q | q in points :: q.timestamp <= points[|points| - 1].timestamp
  {
  }

  lemma AppendedIsSorted(points: seq<Point>, p: Point)
    requires IsSorted(points) && forall q | q in points :: q.timestamp <= p.timestamp
    ensures IsSorted(points + [p])
  {
  }

  lemma SortedAt(points: seq<Point>, i: nat, j: nat)
    requires IsSorted(points) && i <= j < |points|
    ensures points[i].timestamp <= points[j].timestamp
  {
  }

  lemma {:induction false} SortedByTimeSorts(points: seq<Point>)
    ensures IsSorted(SortedByTime(points)) && multiset(SortedByTime(points)) == multiset(points)
  {
    hide Inserted;
    if points != [] {
      SortedByTimeSorts(points[..|points| - 1]);
      InsertedSorts(SortedByTime(points[..|points| - 1]), points[|points| - 1]);
      assert points == points[..|points| - 1] + [points[|points| - 1]];
    }
  }

  /** The points of one moment, in order. */
  function At(points: seq<Point>, time: real): seq<Point> {
    if points == [] then []
    else
      var last := points[|points| - 1];
      At(points[..|points| - 1], time) + (if last.timestamp == time then [last] else [])
  }

  lemma AtOneMore(front: seq<Point>, last: Point, time: real)
    ensures At(front + [last], time) == At(front, time) + (if last.timestamp == time then [last] else [])
  {
    assert (front + [last])[..|front|] == front;
  }

  lemma InsertedOneMore(points: seq<Point>, p: Point)
    ensures Inserted(points, p) ==
              if points == [] || points[|points| - 1].timestamp <= p.timestamp then points + [p]
              else Inserted(points[..|points| - 1], p) + [points[|points| - 1]]
  {
  }

  lemma {:induction false} InsertedIsStable(points: seq<Point>, p: Point, time: real)
    ensures At(Inserted(points, p), time) == At(points + [p], time)
  {
    hide At, Inserted;
    AtOneMore(points, p, time);
    InsertedOneMore(points, p);
    if points != [] && points[|points| - 1].timestamp > p.timestamp {
      var front, last := points[..|points| - 1], points[|points| - 1];
      assert points == front + [last];
      InsertedIsStable(front, p, time);
      AtOneMore(front, p, time);
      AtOneMore(front, last, time);
      AtOneMore(Inserted(front, p), last, time);
    }
  }

  /** Points of equal time keep their order. */
  lemma {:induction false} SortedByTimeIsStable(points: seq<Point>, time: real)
    ensures At(SortedByTime(points), time) == At(points, time)
  {
    if points != [] {
      var front, last := points[..|points| - 1], points[|points| - 1];
      SortedByTimeIsStable(front, time);
      InsertedIsStable(SortedByTime(front), last, time);
      AtOneMore(SortedByTime(front), last, time);
    }
  }

  // ----- the sampler -----

  /** The first index from `head` on whose point is newer than the cutoff. */
  method FirstNewer(points: seq<Point>, head: nat, cutoff: real) returns (start: nat)
    requires head <= |points|
    ensures head <= start <= |points|
    ensures forall i | head <= i < start :: points[i].timestamp <= cutoff
    ensures start < |points| ==> points[start].timestamp > cutoff
  {
    start := head;
    while start < |points| && points[start].timestamp <= cutoff
      invariant head <= start <= |points|
      invariant forall i | head <= i < start :: points[i].timestamp <= cutoff
    {
      start := start + 1;
    }
  }

  ghost predicate IsSuffix<T>(all: seq<T>, buffer: seq<T>) {
    |buffer| <= |all| && buffer == all[|all| - |buffer|..]
  }

  lemma SuffixOfSuffix<T>(all: seq<T>, buffer: seq<T>, head: nat)
    requires head <= |buffer| && IsSuffix(all, buffer)
    ensures IsSuffix(all, buffer[head..])
  {
  }

  lemma SuffixGrows<T>(all: seq<T>, buffer: seq<T>, x: T)
    requires IsSuffix(all, buffer)
    ensures IsSuffix(all + [x], buffer + [x])
  {
  }

  lemma SuffixAt<T>(all: seq<T>, buffer: seq<T>, i: nat)
    requires IsSuffix(all, buffer) && i < |buffer|
    ensures |buffer| <= |all| && buffer[i] == all[|all| - |buffer| + i]
  {
  }

  lemma SuffixFrom<T>(all: seq<T>, buffer: seq<T>, start: nat)
    requires IsSuffix(all, buffer) && start <= |buffer|
    ensures |buffer| <= |all| && buffer[start..] == all[|all| - |buffer| + start..]
  {
  }

  /** The first `count` points are all at or before the limit. */
  ghost predicate IsPast(points: seq<Point>, count: nat, limit: Option<real>) {
    && count <= |points|
    && forall i | 0 <= i < count :: IsBy(points[i], limit)
  }

  ghost predicate IsBy(p: Point, limit: Option<real>) {
    limit.Some? && p.timestamp <= limit.value
  }

  /** `buffer` ends the sequence `all`, and whatever lies before its head is past. */
  ghost predicate IsWindow(all: seq<Point>, buffer: seq<Point>, head: nat, limit: Option<real>) {
    && IsSuffix(all, buffer) && head <= |buffer| <= |all|
    && IsPast(all, |all| - (|buffer| - head), limit)
  }

  /** A sorted window whose past lies before the cutoff shows exactly the newer points of the whole. */
  lemma WindowIsExact(all: seq<Point>, buffer: seq<Point>, head: nat, limit: Option<real>, start: nat, cutoff: real)
    requires IsWindow(all, buffer, head, limit) && IsSorted(all)
    requires head <= start <= |buffer|
    requires forall i | head <= i < start :: buffer[i].timestamp <= cutoff
    requires start < |buffer| ==> buffer[start].timestamp > cutoff
    requires limit.Some? ==> limit.value <= cutoff
    ensures buffer[start..] == Newer(all, cutoff)
  {
    hide IsSorted, Newer, IsSuffix;
    var offset := |all| - |buffer|;
    forall i | 0 <= i < offset + start
      ensures all[i].timestamp <= cutoff
    {
      if i >= offset + head {
        SuffixAt(all, buffer, i - offset);
      } else {
        assert IsBy(all[i], limit);
      }
    }
    forall i | offset + start <= i < |all|
      ensures all[i].timestamp > cutoff
    {
      SuffixAt(all, buffer, start);
      SortedAt(all, offset + start, i);
    }
    NewerIsSuffix(all, offset + start, cutoff);
    SuffixFrom(all, buffer, start);
  }

  function Latest(a: real, b: real): real {
    if a >= b then a else b
  }

  lemma {:induction false} NewerOfNewer(points: seq<Point>, a: real, b: real)
    ensures Newer(Newer(points, a), b) == Newer(points, Latest(b, a))
  {
    if points != [] {
      var front, last := points[..|points| - 1], points[|points| - 1];
      NewerOfNewer(front, a, b);
      NewerOneMore(Newer(front, a), last, b);
      assert Newer(front, a) + [] == Newer(front, a);
    }
  }

  lemma NewerOneMore(front: seq<Point>, last: Point, cutoff: real)
    ensures Newer(front + [last], cutoff) == Newer(front, cutoff) + (if last.timestamp > cutoff then [last] else [])
  {
    assert (front + [last])[..|front|] == front;
  }

  /** Of two limits the later one. */
  function Later(a: Option<real>, b: real): Option<real> {
    if a.Some? && a.value > b then a else Some(b)
  }

  lemma WindowMoves(all: seq<Point>, buffer: seq<Point>, head: nat, head': nat, limit: Option<real>, cutoff: real)
    requires IsWindow(all, buffer, head, limit) && head <= head' <= |buffer|
    requires forall i | head <= i < head' :: buffer[i].timestamp <= cutoff
    ensures IsWindow(all, buffer, head', Later(limit, cutoff))
    ensures IsWindow(all, buffer[head'..], 0, Later(limit, cutoff))
  {
    hide IsSuffix;
    var offset := |all| - |buffer|;
    forall i | 0 <= i < offset + head'
      ensures IsBy(all[i], Later(limit, cutoff))
    {
      if i >= offset + head {
        SuffixAt(all, buffer, i - offset);
      } else {
        assert IsBy(all[i], limit);
      }
    }
    SuffixOfSuffix(all, buffer, head');
  }

  lemma WindowGrows(all: seq<Point>, buffer: seq<Point>, head: nat, limit: Option<real>, p: Point)
    requires IsWindow(all, buffer, head, limit)
    ensures IsWindow(all + [p], buffer + [p], head, limit)
  {
    hide IsSuffix;
    SuffixGrows(all, buffer, p);
    forall i | 0 <= i < |all| - (|buffer| - head)
      ensures IsBy((all + [p])[i], limit)
    {
      assert IsBy(all[i], limit);
    }
  }

  function Max(a: int, b: int): int {
    if a >= b then a else b
  }

  predicate NotAfter(clock: Option<real>, now: real) {
    clock.Some? ==> clock.value <= now
  }

  /** The cutoff that the latest reading of the clock gave. */
  function CutoffAt(clock: Option<real>, minutes: real): Option<real> {
    if clock.Some? then Some(clock.value - Milliseconds(minutes)) else None
  }

  lemma LaterCutoff(clock: Option<real>, now: real, minutes: real)
    ensures CutoffAt(Later(clock, now), minutes) == Later(CutoffAt(clock, minutes), now - Milliseconds(minutes))
  {
  }

  lemma ShorterRange(clock: Option<real>, now: real, window: real, minutes: real)
    requires NotAfter(clock, now) && minutes <= window
    ensures CutoffAt(clock, window).Some? ==> CutoffAt(clock, window).value <= now - Milliseconds(minutes)
  {
  }

  function NotNewer(points: seq<Point>, cutoff: real): seq<Point> {
    if points == [] then []
    else
      var last := points[|points| - 1];
      NotNewer(points[..|points| - 1], cutoff) + (if last.timestamp <= cutoff then [last] else [])
  }

  /** Every point is newer than the cutoff or not, and is kept once on its side. */
  lemma {:induction false} CutoffParts(points: seq<Point>, cutoff: real)
    ensures multiset(Newer(points, cutoff)) + multiset(NotNewer(points, cutoff)) == multiset(points)
    ensures forall p | p in Newer(points, cutoff) :: p.timestamp > cutoff
    ensures forall p | p in NotNewer(points, cutoff) :: p.timestamp <= cutoff
  {
    if points != [] {
      CutoffParts(points[..|points| - 1], cutoff);
      assert points == points[..|points| - 1] + [points[|points| - 1]];
    }
  }

  lemma LiveIsExact(log: seq<Point>, buffer: seq<Point>, head: nat, start: nat, cutoff: real)
    requires IsSorted(log) && IsSuffix(log, buffer)
    requires head <= start <= |buffer|
    requires forall i | head <= i < start :: buffer[i].timestamp <= cutoff
    requires start < |buffer| ==> buffer[start].timestamp > cutoff
    ensures buffer[start..] == Newer(buffer[head..], cutoff)
  {
    hide IsSorted, Newer, IsSuffix;
    var live := buffer[head..];
    forall i | start - head <= i < |live|
      ensures live[i].timestamp > cutoff
    {
      SuffixAt(log, buffer, start);
      SuffixAt(log, buffer, head + i);
      SortedAt(log, |log| - |buffer| + start, |log| - |buffer| + head + i);
    }
    NewerIsSuffix(live, start - head, cutoff);
    assert live[start - head..] == buffer[start..];
  }

  lemma MeansAppended(groups: seq<seq<Point>>, last: seq<Point>)
    requires last != [] && forall i | 0 <= i < |groups| :: groups[i] != []
    ensures Means(groups + [last]) == Means(groups) + [Mean(last)]
    ensures MeanPoints(Means(groups + [last])) == MeanPoints(Means(groups)) + [Mean(last).mean]
  {
  }

  lemma NothingYet(limit: Option<real>)
    ensures IsWindow([], [], 0, limit) && Flatten([]) == [] && Means([]) == [] && MeanPoints([]) == []
    ensures IsSuffix<CompressedPoint>([], [])
  {
    hide Mean;
  }

  class TrafficDataSampler {
    const config: SamplingConfig
    var rawBuffer: seq<Point>
    var rawHead: nat
    var compressedBuffer: seq<CompressedPoint>
    var compressedHead: nat
    var compressionQueue: seq<Point>
    ghost var log: seq<Point>
    ghost var groups: seq<seq<Point>>
    ghost var rawClock: Option<real>
    ghost var compressedClock: Option<real>
    ghost var steady: bool

    /** How many points a group has: a ratio below one compresses every point on its own. */
    ghost function GroupSize(): nat {
      if config.compressionRatio <= 1 then 1 else config.compressionRatio
    }

    /** The raw buffer is a window on the log. */
    ghost predicate RawIsWindow()
      reads this
    {
      IsWindow(log, rawBuffer, rawHead, CutoffAt(rawClock, config.rawDataMinutes))
    }

    /** As long as the clock has not gone back, the live part of a sorted log is what its latest cutoff leaves. */
    ghost predicate LiveIsRecent()
      reads this
    {
      && (rawClock.None? ==> log == [])
      && rawHead <= |rawBuffer|
      && (steady && IsSorted(log) ==> rawBuffer[rawHead..] == Newer(log, RawCutoff()))
    }

    ghost function RawCutoff(): real
      reads this
    {
      (if rawClock.Some? then rawClock.value else 0.0) - Milliseconds(config.rawDataMinutes)
    }

    /** The compressed buffer is a window on the means of all full groups. */
    ghost predicate CompressedIsWindow()
      reads this
    {
      && (forall i | 0 <= i < |groups| :: |groups[i]| == GroupSize())
      && IsWindow(MeanPoints(Means(groups)), MeanPoints(compressedBuffer), compressedHead,
                  CutoffAt(compressedClock, config.compressedDataMinutes))
      && IsSuffix(Means(groups), compressedBuffer)
    }

    /** As long as the clock has not gone back, the live part of sorted means is what the latest cutoff leaves. */
    ghost predicate CompressedIsRecent()
      reads this
    {
      && (forall i | 0 <= i < |groups| :: |groups[i]| == GroupSize())
      && compressedHead <= |compressedBuffer|
      && (steady && IsSorted(MeanPoints(Means(groups))) ==>
            MeanPoints(compressedBuffer)[compressedHead..] == Newer(MeanPoints(Means(groups)), CompressedCutoff()))
    }

    ghost function CompressedCutoff(): real
      reads this
    {
      (if compressedClock.Some? then compressedClock.value else 0.0) - Milliseconds(config.compressedDataMinutes)
    }

    ghost predicate Valid()
      reads this
    {
      && AreGroups(log, GroupSize(), groups, compressionQueue) && |compressionQueue| < GroupSize()
      && RawIsWindow() && LiveIsRecent() && CompressedIsWindow() && CompressedIsRecent()
    }

    /** How many raw points are still in the window. */
    function Live(): int
      reads this
    {
      |rawBuffer| - rawHead
    }

    function LiveCompressed(): int
      reads this
    {
      |compressedBuffer| - compressedHead
    }

    constructor (config: SamplingConfig)
      ensures Valid() && this.config == config && log == [] && rawClock.None? && compressedClock.None? && steady
    {
      hide IsWindow, IsSuffix, Mean, Means, Flatten, Milliseconds;
      this.config := config;
      rawBuffer, rawHead, compressedBuffer, compressedHead, compressionQueue := [], 0, [], 0, [];
      log, groups, rawClock, compressedClock, steady := [], [], None, None, true;
      NothingYet(None);
    }

    method Clear()
      requires Valid()
      modifies this
      ensures Valid() && log == [] && rawClock.None? && compressedClock.None? && steady
    {
      hide IsWindow, IsSuffix, Mean, Means, Flatten, Milliseconds;
      NothingYet(None);
      rawBuffer, rawHead, compressedBuffer, compressedHead, compressionQueue := [], 0, [], 0, [];
      log, groups, rawClock, compressedClock, steady := [], [], None, None, true;
    }

    // ----- adding -----

    method AddRaw(point: Point, now: real)
      requires RawIsWindow()
      modifies this`rawBuffer, this`rawHead, this`log, this`rawClock, this`steady
      ensures RawIsWindow() && LiveIsRecent()
      ensures steady <==> old(steady) && NotAfter(old(rawClock), now)
      ensures log == old(log) + [point] && rawClock == Later(old(rawClock), now)
      ensures |rawBuffer| <= Max(Live() + 512, 2 * Live())
    {
      hide IsSuffix, IsPast, CutoffAt, IsSorted, Newer, Milliseconds;
      var cutoff := now - Milliseconds(config.rawDataMinutes);
      WindowGrows(log, rawBuffer, rawHead, CutoffAt(rawClock, config.rawDataMinutes), point);
      rawBuffer, log := rawBuffer + [point], log + [point];
      var head := FirstNewer(rawBuffer, rawHead, cutoff);
      WindowMoves(log, rawBuffer, rawHead, head, CutoffAt(rawClock, config.rawDataMinutes), cutoff);
      LaterCutoff(rawClock, now, config.rawDataMinutes);
      if NotAfter(rawClock, now) && IsSorted(log) {
        ShorterRange(rawClock, now, config.rawDataMinutes, config.rawDataMinutes);
        WindowIsExact(log, rawBuffer, rawHead, CutoffAt(rawClock, config.rawDataMinutes), head, cutoff);
      }
      steady := steady && NotAfter(rawClock, now);
      rawHead, rawClock := head, Later(rawClock, now);
      if rawHead > 512 && 2 * rawHead > |rawBuffer| {
        rawBuffer, rawHead := rawBuffer[rawHead..], 0;
      }
    }

    method CompressData()
      requires CompressedIsWindow() && AreGroups(log, GroupSize(), groups, compressionQueue)
      requires |compressionQueue| == GroupSize()
      modifies this`compressedBuffer, this`compressionQueue, this`groups
      ensures CompressedIsWindow() && AreGroups(log, GroupSize(), groups, compressionQueue)
      ensures compressionQueue == [] && groups == old(groups) + [old(compressionQueue)]
    {
      hide IsWindow, IsSuffix, Mean, Means, Flatten, CutoffAt;
      var compressed := Mean(compressionQueue);
      WindowGrows(MeanPoints(Means(groups)), MeanPoints(compressedBuffer), compressedHead,
                  CutoffAt(compressedClock, config.compressedDataMinutes), compressed.mean);
      FlattenAppended(groups, compressionQueue);
      MeansAppended(groups, compressionQueue);
      SuffixGrows(Means(groups), compressedBuffer, compressed);
      assert MeanPoints(compressedBuffer + [compressed]) == MeanPoints(compressedBuffer) + [compressed.mean];
      compressedBuffer, groups := compressedBuffer + [compressed], groups + [compressionQueue];
      compressionQueue := [];
    }

    method TrimCompressed(now: real)
      requires CompressedIsWindow()
      modifies this`compressedBuffer, this`compressedHead, this`compressedClock, this`steady
      ensures CompressedIsWindow() && CompressedIsRecent() && compressedClock == Later(old(compressedClock), now)
      ensures steady <==> old(steady) && NotAfter(old(compressedClock), now)
      ensures |compressedBuffer| <= Max(LiveCompressed() + 256, 2 * LiveCompressed())
    {
      hide IsSuffix, IsPast, CutoffAt, Mean, Means, IsSorted, Newer, Milliseconds;
      var means, cutoff := MeanPoints(compressedBuffer), now - Milliseconds(config.compressedDataMinutes);
      var head := FirstNewer(means, compressedHead, cutoff);
      WindowMoves(MeanPoints(Means(groups)), means, compressedHead, head,
                  CutoffAt(compressedClock, config.compressedDataMinutes), cutoff);
      LaterCutoff(compressedClock, now, config.compressedDataMinutes);
      if NotAfter(compressedClock, now) && IsSorted(MeanPoints(Means(groups))) {
        ShorterRange(compressedClock, now, config.compressedDataMinutes, config.compressedDataMinutes);
        WindowIsExact(MeanPoints(Means(groups)), means, compressedHead,
                      CutoffAt(compressedClock, config.compressedDataMinutes), head, cutoff);
      }
      steady := steady && NotAfter(compressedClock, now);
      compressedHead, compressedClock := head, Later(compressedClock, now);
      CompactCompressed();
    }

    /** Drop the dead part of the compressed buffer once it outweighs the rest. */
    method CompactCompressed()
      requires CompressedIsWindow() && CompressedIsRecent()
      modifies this`compressedBuffer, this`compressedHead
      ensures CompressedIsWindow() && CompressedIsRecent()
      ensures |compressedBuffer| <= Max(LiveCompressed() + 256, 2 * LiveCompressed())
    {
      hide IsSuffix, IsPast, CutoffAt, Mean, Means, IsSorted, Newer, Milliseconds;
      if compressedHead > 256 && 2 * compressedHead > |compressedBuffer| {
        var means := MeanPoints(compressedBuffer);
        assert means[compressedHead..] == MeanPoints(compressedBuffer[compressedHead..]);
        SuffixOfSuffix(Means(groups), compressedBuffer, compressedHead);
        SuffixOfSuffix(MeanPoints(Means(groups)), means, compressedHead);
        compressedBuffer, compressedHead := compressedBuffer[compressedHead..], 0;
      }
    }

    /** The log grows by the point; each buffer stays a window whose dead part is bounded. */
    method AddDataPoint(point: Point, now: real, later: real)
      requires Valid()
      modifies this
      ensures Valid() && log == old(log) + [point]
      ensures steady <==> old(steady) && NotAfter(old(rawClock), now) && NotAfter(old(compressedClock), later)
      ensures rawClock == Later(old(rawClock), now) && compressedClock == Later(old(compressedClock), later)
      ensures |rawBuffer| <= Max(Live() + 512, 2 * Live())
      ensures |compressedBuffer| <= Max(LiveCompressed() + 256, 2 * LiveCompressed())
    {
      hide IsWindow, Flatten, CutoffAt, Means, IsSorted, Newer, Milliseconds;
      AddRaw(point, now);
      compressionQueue := compressionQueue + [point];
      if |compressionQueue| >= config.compressionRatio {
        CompressData();
      }
      TrimCompressed(later);
    }

    // ----- queries -----

    /**
     Within the raw window, and with time never going back, a query shows exactly the logged
     points newer than its cutoff, in order. A longer one is sorted by time and consists of the
     logged points that are also within the raw window, and exactly the group means between the
     cutoff and that window; one longer than the compressed window shows no more means than that holds.
     */
    method GetDataForTimeRange(minutes: real, now: real, later: real) returns (points: seq<Point>)
      requires Valid()
      ensures minutes <= config.rawDataMinutes && IsSorted(log) && NotAfter(rawClock, now) ==>
                points == Newer(log, now - 60000.0 * minutes)
      ensures minutes > config.rawDataMinutes ==> IsSorted(points)
      ensures config.rawDataMinutes < minutes <= config.compressedDataMinutes && IsSorted(log) && steady
              && NotAfter(compressedClock, now) ==>
                var cutoff, upper := now - 60000.0 * minutes, later - 60000.0 * config.rawDataMinutes;
                multiset(points) == multiset(NotNewer(Newer(MeanPoints(Means(groups)), cutoff), upper))
                                    + multiset(Newer(log, Latest(cutoff, RawCutoff())))
      ensures config.rawDataMinutes < minutes && IsSorted(log) && steady ==>
                var cutoff, upper := now - 60000.0 * minutes, later - 60000.0 * config.rawDataMinutes;
                multiset(points) == multiset(NotNewer(Newer(MeanPoints(Means(groups)), Latest(cutoff, CompressedCutoff())), upper))
                                    + multiset(Newer(log, Latest(cutoff, RawCutoff())))
    {
      hide IsSorted, Newer, Flatten, NotNewer, SortedByTime, Means, IsPast, IsSuffix, CutoffAt;
      var cutoff := now - Milliseconds(minutes);
      var rawStart := FirstNewer(rawBuffer, rawHead, cutoff);
      var rawData := rawBuffer[rawStart..];
      if minutes <= config.rawDataMinutes {
        if IsSorted(log) && NotAfter(rawClock, now) {
          ShorterRange(rawClock, now, config.rawDataMinutes, minutes);
          WindowIsExact(log, rawBuffer, rawHead, CutoffAt(rawClock, config.rawDataMinutes), rawStart, cutoff);
        }
        return rawData;
      }
      var compressedCutoffUpper := later - Milliseconds(config.rawDataMinutes);
      var means := MeanPoints(compressedBuffer);
      var compressedStart := FirstNewer(means, compressedHead, cutoff);
      var compressedData := NotNewer(means[compressedStart..], compressedCutoffUpper);
      points := SortedByTime(compressedData + rawData);
      SortedByTimeSorts(compressedData + rawData);
      if IsSorted(log) && steady {
        MeansAreSorted(log, GroupSize(), groups, compressionQueue);
        LiveIsExact(MeanPoints(Means(groups)), means, compressedHead, compressedStart, cutoff);
        NewerOfNewer(MeanPoints(Means(groups)), CompressedCutoff(), cutoff);
        LiveIsExact(log, rawBuffer, rawHead, rawStart, cutoff);
        NewerOfNewer(log, RawCutoff(), cutoff);
      }
      if minutes <= config.compressedDataMinutes && IsSorted(log) && NotAfter(compressedClock, now) {
        MeansAreSorted(log, GroupSize(), groups, compressionQueue);
        ShorterRange(compressedClock, now, config.compressedDataMinutes, minutes);
        WindowIsExact(MeanPoints(Means(groups)), means, compressedHead,
                      CutoffAt(compressedClock, config.compressedDataMinutes), compressedStart, cutoff);
      }
    }
  }
}
