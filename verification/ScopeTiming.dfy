/** Logic-analyser recordings: runs of constant level, and a two-pointer count of overlapping intervals. */
module ScopeTiming {
  /** One sample of every channel. */
  datatype Row = Row(time: real, values: seq<int>)
  datatype Segment = Segment(value: int, start: real, end: real)
  datatype Interval = Interval(start: real, end: real)

  ghost predicate HasChannel(rows: seq<Row>, channel: nat) {
    forall i :: 0 <= i < |rows| ==> channel < |rows[i].values|
  }

  ghost predicate TimeOrdered(rows: seq<Row>) {
    forall i, j :: 0 <= i < j < |rows| ==> rows[i].time <= rows[j].time
  }

  // ---------- Segments ----------

  /**
  The segments are the maximal runs of equal value: `cuts` holds the first row of each, the level
  changes at every cut and only there, and each segment but the last ends when the next begins.
  */
  ghost predicate Tiled(segs: seq<Segment>, cuts: seq<nat>, rows: seq<Row>, channel: nat)
    requires HasChannel(rows, channel)
    decreases |segs|
  {
    && |segs| == |cuts| > 0
    && var n := |segs| - 1;
       var (last, cut) := (segs[n], cuts[n]);
       && cut < |rows| && last.start == rows[cut].time
       && (forall i :: cut <= i < |rows| ==> rows[i].values[channel] == last.value)
       && if n == 0 then cut == 0
          else segs[n - 1].value != last.value && segs[n - 1].end == last.start
               && Tiled(segs[..n], cuts[..n], rows[..cut], channel)
  }

  lemma TiledStarts(row: Row, channel: nat)
    requires channel < |row.values|
    ensures HasChannel([row], channel)
    ensures Tiled([Segment(row.values[channel], row.time, row.time)], [0], [row], channel)
  {}

  lemma TiledExtends(segs: seq<Segment>, cuts: seq<nat>, rows: seq<Row>, row: Row, channel: nat)
    requires HasChannel(rows, channel) && channel < |row.values| && Tiled(segs, cuts, rows, channel)
    requires row.values[channel] == segs[|segs| - 1].value
    ensures HasChannel(rows + [row], channel)
    ensures Tiled(segs, cuts, rows + [row], channel)
  {
    var cut := cuts[|cuts| - 1];
    assert (rows + [row])[..cut] == rows[..cut];
  }

  /** The end of the open segment is not constrained until the next one begins. */
  lemma TiledCloses(open: seq<Segment>, last: Segment, end: real, cuts: seq<nat>, rows: seq<Row>, channel: nat)
    requires HasChannel(rows, channel) && Tiled(open + [last], cuts, rows, channel)
    ensures Tiled(open + [last.(end := end)], cuts, rows, channel)
  {
    assert (open + [last])[..|open|] == open == (open + [last.(end := end)])[..|open|];
  }

  lemma TiledTurns(segs: seq<Segment>, cuts: seq<nat>, rows: seq<Row>, row: Row, channel: nat)
    requires HasChannel(rows, channel) && channel < |row.values| && Tiled(segs, cuts, rows, channel)
    requires row.values[channel] != segs[|segs| - 1].value && segs[|segs| - 1].end == row.time
    ensures HasChannel(rows + [row], channel)
    ensures Tiled(segs + [Segment(row.values[channel], row.time, row.time)], cuts + [|rows|], rows + [row], channel)
  {
    var open := Segment(row.values[channel], row.time, row.time);
    assert (segs + [open])[..|segs|] == segs && (cuts + [|rows|])[..|cuts|] == cuts;
    assert (rows + [row])[..|rows|] == rows;
  }

  method Segments(rows: seq<Row>, channel: nat) returns (out: seq<Segment>, ghost cuts: seq<nat>)
    requires rows != [] && HasChannel(rows, channel)
    ensures Segmented(out, cuts, rows, channel)
  {
    hide Tiled;
    var current, start := rows[0].values[channel], rows[0].time;
    out, cuts := [], [0];
    TiledStarts(rows[0], channel);
    assert rows[..1] == [rows[0]] && out + [Segment(current, start, start)] == [Segment(current, start, start)];
    for i := 1 to |rows|
      invariant Tiled(out + [Segment(current, start, start)], cuts, rows[..i], channel)
    {
      var (timestamp, value) := (rows[i].time, rows[i].values[channel]);
      assert rows[..i + 1] == rows[..i] + [rows[i]];
      if value != current {
        TiledCloses(out, Segment(current, start, start), timestamp, cuts, rows[..i], channel);
        out := out + [Segment(current, start, timestamp)];
        TiledTurns(out, cuts, rows[..i], rows[i], channel);
        current := value;
        start := timestamp;
        cuts := cuts + [i];
      } else {
        TiledExtends(out + [Segment(current, start, start)], cuts, rows[..i], rows[i], channel);
      }
    }
    assert rows[..|rows|] == rows;
    TiledCloses(out, Segment(current, start, start), rows[|rows| - 1].time, cuts, rows, channel);
    out := out + [Segment(current, start, rows[|rows| - 1].time)];
  }

  /** The tiling of a whole recording: the last segment ends with the last row. */
  ghost predicate Segmented(segs: seq<Segment>, cuts: seq<nat>, rows: seq<Row>, channel: nat)
    requires HasChannel(rows, channel)
  {
    |rows| > 0 && Tiled(segs, cuts, rows, channel) && segs[|segs| - 1].end == rows[|rows| - 1].time
  }

  /** The last cut is where the last level begins. */
  lemma LastRun(segs: seq<Segment>, cuts: seq<nat>, rows: seq<Row>, channel: nat)
    requires HasChannel(rows, channel) && Tiled(segs, cuts, rows, channel)
    ensures |segs| == |cuts| > 0
    ensures var (level, cut) := (segs[|segs| - 1].value, cuts[|cuts| - 1]);
      && cut < |rows| && (forall i :: cut <= i < |rows| ==> rows[i].values[channel] == level)
      && (cut > 0 ==> rows[cut - 1].values[channel] != level)
  {
    var n := |segs| - 1;
    var cut := cuts[n];
    if n > 0 {
      var before := rows[..cut];
      assert Tiled(segs[..n], cuts[..n], before, channel);
      assert before[cut - 1].values[channel] == segs[..n][n - 1].value;
    }
  }

  lemma LastCutNotEarlier(
      segs: seq<Segment>, cuts: seq<nat>, segs': seq<Segment>, cuts': seq<nat>, rows: seq<Row>, channel: nat)
    requires HasChannel(rows, channel) && Tiled(segs, cuts, rows, channel) && Tiled(segs', cuts', rows, channel)
    ensures cuts[|cuts| - 1] >= cuts'[|cuts'| - 1] && segs[|segs| - 1].value == segs'[|segs'| - 1].value
  {
    hide Tiled;
    LastRun(segs, cuts, rows, channel);
    LastRun(segs', cuts', rows, channel);
    assert rows[|rows| - 1].values[channel] == segs[|segs| - 1].value;
  }

  /** A recording has one tiling, up to the end of its last segment. */
  lemma {:induction false} TilingUnique(
      segs: seq<Segment>, cuts: seq<nat>, segs': seq<Segment>, cuts': seq<nat>, rows: seq<Row>, channel: nat)
    requires HasChannel(rows, channel) && Tiled(segs, cuts, rows, channel) && Tiled(segs', cuts', rows, channel)
    ensures cuts == cuts' && |segs| == |segs'|
    ensures var n := |segs| - 1; segs[..n] == segs'[..n] && segs[n].(end := 0.0) == segs'[n].(end := 0.0)
    decreases |segs|
  {
    var (n, n') := (|segs| - 1, |segs'| - 1);
    LastCutNotEarlier(segs, cuts, segs', cuts', rows, channel);
    LastCutNotEarlier(segs', cuts', segs, cuts, rows, channel);
    if n > 0 {
      TilingUnique(segs[..n], cuts[..n], segs'[..n'], cuts'[..n'], rows[..cuts[n]], channel);
      assert segs[n - 1] == segs[..n][n - 1] && segs'[n' - 1] == segs'[..n'][n' - 1];
      assert segs[..n] == segs[..n][..n - 1] + [segs[n - 1]];
      assert segs'[..n'] == segs'[..n'][..n' - 1] + [segs'[n' - 1]];
      assert cuts == cuts[..n] + [cuts[n]] && cuts' == cuts'[..n'] + [cuts'[n']];
    } else {
      assert cuts == [cuts[0]];
    }
  }

  lemma SegmentsUnique(
      segs: seq<Segment>, cuts: seq<nat>, segs': seq<Segment>, cuts': seq<nat>, rows: seq<Row>, channel: nat)
    requires HasChannel(rows, channel) && Segmented(segs, cuts, rows, channel) && Segmented(segs', cuts', rows, channel)
    ensures segs == segs'
  {
    TilingUnique(segs, cuts, segs', cuts', rows, channel);
    var n := |segs| - 1;
    assert segs == segs[..n] + [segs[n]] && segs' == segs'[..n] + [segs'[n]];
  }

  /** What tiling means for any two neighbouring segments, and for every row. */
  lemma {:induction false} TiledAdjacent(segs: seq<Segment>, cuts: seq<nat>, rows: seq<Row>, channel: nat)
    requires HasChannel(rows, channel) && Tiled(segs, cuts, rows, channel)
    ensures segs[0].start == rows[0].time
    ensures forall k, m :: 0 <= k && m == k + 1 && m < |segs| ==>
              segs[k].end == segs[m].start && segs[k].value != segs[m].value
    decreases |segs|
  {
    var n := |segs| - 1;
    if n > 0 {
      TiledAdjacent(segs[..n], cuts[..n], rows[..cuts[n]], channel);
    }
  }

  lemma {:induction false} TiledOrdered(segs: seq<Segment>, cuts: seq<nat>, rows: seq<Row>, channel: nat)
    requires HasChannel(rows, channel) && TimeOrdered(rows) && Tiled(segs, cuts, rows, channel)
    ensures forall k :: 0 <= k < |segs| - 1 ==> segs[k].start <= segs[k].end <= segs[|segs| - 1].start
    ensures forall k, m :: 0 <= k < m < |segs| ==> segs[k].end <= segs[m].start
    decreases |segs|
  {
    var n := |segs| - 1;
    if n > 0 {
      TiledOrdered(segs[..n], cuts[..n], rows[..cuts[n]], channel);
      assert segs[..n][n - 1].start == rows[..cuts[n]][cuts[..n][n - 1]].time;
    }
  }

  // ---------- High intervals ----------

  function HighIntervals(segs: seq<Segment>): seq<Interval> {
    if segs == [] then []
    else
      var n := |segs| - 1;
      HighIntervals(segs[..n]) + if segs[n].value == 1 then [Interval(segs[n].start, segs[n].end)] else []
  }

  ghost predicate IntervalsOrdered(intervals: seq<Interval>) {
    && (forall i, j :: 0 <= i < j < |intervals| ==> intervals[i].start <= intervals[j].start)
    && (forall i, j :: 0 <= i < j < |intervals| ==> intervals[i].end <= intervals[j].end)
  }

  lemma {:induction false} HighIntervalsOrdered(segs: seq<Segment>)
    requires forall k :: 0 <= k < |segs| ==> segs[k].start <= segs[k].end
    requires forall k, m :: 0 <= k < m < |segs| ==> segs[k].end <= segs[m].start
    ensures IntervalsOrdered(HighIntervals(segs))
    ensures forall i :: 0 <= i < |HighIntervals(segs)| ==>
      exists k :: 0 <= k < |segs| && HighIntervals(segs)[i] == Interval(segs[k].start, segs[k].end)
    decreases |segs|
  {
    if segs != [] {
      HighIntervalsOrdered(segs[..|segs| - 1]);
    }
  }

  // ---------- Overlaps ----------

  predicate Meets(interval: Interval, candidate: Interval) {
    candidate.start < interval.end && candidate.end > interval.start
  }

  /** `overlaps`: the naive test. */
  predicate Overlaps(interval: Interval, candidates: seq<Interval>) {
    exists c :: c in candidates && Meets(interval, c)
  }

  function NaiveCount(intervals: seq<Interval>, candidates: seq<Interval>): nat {
    if intervals == [] then 0
    else
      NaiveCount(intervals[..|intervals| - 1], candidates)
      + if Overlaps(intervals[|intervals| - 1], candidates) then 1 else 0
  }

  /** The two-pointer count equals the naive one whenever starts do not decrease in either list. */
  method OverlapCount(intervals: seq<Interval>, candidates: seq<Interval>) returns (count: nat)
    requires forall i, j :: 0 <= i < j < |intervals| ==> intervals[i].start <= intervals[j].start
    requires forall i, j :: 0 <= i < j < |candidates| ==> candidates[i].start <= candidates[j].start
    ensures count == NaiveCount(intervals, candidates)
  {
    count := 0;
    var candidateIndex := 0;
    for i := 0 to |intervals|
      invariant candidateIndex <= |candidates|
      invariant count == NaiveCount(intervals[..i], candidates)
      invariant i < |intervals| ==> forall c :: 0 <= c < candidateIndex ==> candidates[c].end <= intervals[i].start
    {
      var Interval(start, end) := intervals[i];
      while candidateIndex < |candidates| && candidates[candidateIndex].end <= start
        invariant candidateIndex <= |candidates|
        invariant forall c :: 0 <= c < candidateIndex ==> candidates[c].end <= start
      {
        candidateIndex := candidateIndex + 1;
      }
      var hit := candidateIndex < |candidates| && candidates[candidateIndex].start < end;
      if hit {
        assert Meets(intervals[i], candidates[candidateIndex]);
        count := count + 1;
      }
      assert hit == Overlaps(intervals[i], candidates);
      assert intervals[..i + 1][..i] == intervals[..i];
    }
    assert intervals[..|intervals|] == intervals;
  }

  /** Counting the overlaps of two channels of one recording: the naive count over the channels' segments. */
  method ChannelOverlaps(rows: seq<Row>, a: nat, b: nat) returns (count: nat)
    requires rows != [] && HasChannel(rows, a) && HasChannel(rows, b) && TimeOrdered(rows)
    ensures forall segsA, cutsA, segsB, cutsB ::
              Segmented(segsA, cutsA, rows, a) && Segmented(segsB, cutsB, rows, b) ==>
                count == NaiveCount(HighIntervals(segsA), HighIntervals(segsB))
  {
    hide Tiled;
    var outA, cutsA := Segments(rows, a);
    var outB, cutsB := Segments(rows, b);
    ghost var (ownA, ownB) := (cutsA, cutsB);
    TiledOrdered(outA, cutsA, rows, a);
    TiledOrdered(outB, cutsB, rows, b);
    LastOrdered(outA, cutsA, rows, a);
    LastOrdered(outB, cutsB, rows, b);
    HighIntervalsOrdered(outA);
    HighIntervalsOrdered(outB);
    count := OverlapCount(HighIntervals(outA), HighIntervals(outB));
    forall segsA, cutsA, segsB, cutsB | Segmented(segsA, cutsA, rows, a) && Segmented(segsB, cutsB, rows, b)
      ensures segsA == outA && segsB == outB
    {
      SegmentsUnique(segsA, cutsA, outA, ownA, rows, a);
      SegmentsUnique(segsB, cutsB, outB, ownB, rows, b);
    }
  }

  lemma LastOrdered(segs: seq<Segment>, cuts: seq<nat>, rows: seq<Row>, channel: nat)
    requires HasChannel(rows, channel) && TimeOrdered(rows) && Segmented(segs, cuts, rows, channel)
    ensures segs[|segs| - 1].start <= segs[|segs| - 1].end
  {}

  // ---------- What the intervals and their overlaps mean ----------

  /** Two intervals meet exactly when some moment lies inside both. */
  lemma MeetsShareMoment(a: Interval, b: Interval)
    requires a.start < a.end && b.start < b.end
    ensures Meets(a, b) <==> exists t: real :: Inside(t, a) && Inside(t, b)
  {
    if Meets(a, b) {
      var start := if a.start < b.start then b.start else a.start;
      var end := if a.end < b.end then a.end else b.end;
      var t := (start + end) / 2.0;
      assert Inside(t, a) && Inside(t, b);
    }
  }

  predicate Inside(t: real, interval: Interval) {
    interval.start < t < interval.end
  }

  /** The high intervals are those of the segments with level 1, and no others. */
  lemma {:induction false} HighIffLevelOne(segs: seq<Segment>, interval: Interval)
    ensures interval in HighIntervals(segs) <==>
      exists k :: 0 <= k < |segs| && segs[k].value == 1 && interval == Interval(segs[k].start, segs[k].end)
    decreases |segs|
  {
    if segs != [] {
      var n := |segs| - 1;
      HighIffLevelOne(segs[..n], interval);
      if interval in HighIntervals(segs) && interval !in HighIntervals(segs[..n]) {
        assert segs[n].value == 1;
      } else if interval in HighIntervals(segs[..n]) {
        var k :| 0 <= k < n && segs[..n][k].value == 1 && interval == Interval(segs[..n][k].start, segs[..n][k].end);
        assert segs[k] == segs[..n][k];
      } else {
        forall k | 0 <= k < |segs| && segs[k].value == 1 ensures interval != Interval(segs[k].start, segs[k].end) {
          assert k < n ==> segs[..n][k] == segs[k];
        }
      }
    }
  }

  /** The naive count counts the intervals that some candidate meets. */
  lemma {:induction false} NaiveCountIsSize(intervals: seq<Interval>, candidates: seq<Interval>)
    ensures NaiveCount(intervals, candidates) == |Hits(intervals, candidates)|
    decreases |intervals|
  {
    if intervals == [] {
      assert Hits(intervals, candidates) == {};
    } else {
      var n := |intervals| - 1;
      NaiveCountIsSize(intervals[..n], candidates);
      var before := Hits(intervals[..n], candidates);
      assert n !in before;
      assert Hits(intervals, candidates) == before + if Overlaps(intervals[n], candidates) then {n} else {};
    }
  }

  ghost function Hits(intervals: seq<Interval>, candidates: seq<Interval>): set<nat> {
    set i: nat | i < |intervals| && Overlaps(intervals[i], candidates)
  }
}
