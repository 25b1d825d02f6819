/** The dashboard: it queries the metrics in buckets, walks a grid of instants
    from the start of the period to the present, and plots what the query listed
    for each grid point; the headline figures add up the query's answer. */
module Dashboard {
  import opened Basics
  import opened Clock
  import opened Metrics
  import opened Rows

  /** A period on offer: its length and its bucket, in nanoseconds. */
  datatype Period = Period(duration: int, bucket: int)

  function PeriodOf(key: string): Period {
    match key
    case "6h" => Period(6 * HOUR, 5 * MINUTE)
    case "24h" => Period(DAY, 15 * MINUTE)
    case "7d" => Period(7 * DAY, HOUR)
    case "30d" => Period(30 * DAY, 6 * HOUR)
    case _ => Period(HOUR, MINUTE)
  }

  /** The five periods and their buckets, in nanoseconds. */
  lemma PeriodLengths()
    ensures PeriodOf("1h") == Period(3_600_000_000_000, 60_000_000_000)
    ensures PeriodOf("6h") == Period(21_600_000_000_000, 300_000_000_000)
    ensures PeriodOf("24h") == Period(86_400_000_000_000, 900_000_000_000)
    ensures PeriodOf("7d") == Period(604_800_000_000_000, 3_600_000_000_000)
    ensures PeriodOf("30d") == Period(2_592_000_000_000_000, 21_600_000_000_000)
    ensures forall key :: key !in {"6h", "24h", "7d", "30d"} ==> PeriodOf(key) == PeriodOf("1h")
  {
  }

  /** Widths, in seconds, that divide the distance between the two epochs. */
  predicate Commensurable(w: int) {
    0 < w && YEAR_ONE % w == 0
  }

  lemma PeriodsAreCommensurable(key: string)
    ensures var p := PeriodOf(key);
            && p.bucket == (p.bucket / NANO) * NANO && Commensurable(p.bucket / NANO)
            && (p.bucket / NANO) % 60 == 0 && 0 < p.duration <= 30 * DAY
  {
  }

  /** For such widths the grid that starts at a truncated instant consists of
      multiples of the width since the Unix epoch. */
  lemma GridStart(since: int, w: int) returns (q: int)
    requires Commensurable(w)
    ensures Truncate(since, w * NANO) == q * w * NANO && Unix(Truncate(since, w * NANO)) == q * w
    ensures q * w <= Unix(since) < q * w + w
  {
    var d := w * NANO;
    var p := (since + YEAR_ONE * NANO) / d;
    var z := YEAR_ONE / w;
    TruncateMeaning(since, d);
    assert YEAR_ONE == z * w;
    assert YEAR_ONE * NANO == z * d;
    q := p - z;
    assert p * d - z * d == q * d == q * w * NANO;
    assert (p + 1) * d - z * d == (q * w + w) * NANO;
  }

  /** The bucket SQL computes for a row at or after since is a multiple of the
      width, not before the grid start, and not after the row unless the row is
      older than the Unix epoch. */
  lemma BucketOnGrid(ts: int, w: int, q: int) returns (k: int)
    requires 0 < w && q * w <= ts
    ensures Bucket(ts, w) == k * w && q <= k && (k * w <= ts || k * w <= 0) && k * w < ts + w
  {
    k := SqlDiv(ts, w);
    if 0 <= ts {
      DivisionMonotone(q * w, ts, w);
      DivisionUnique(q * w, q, w);
      DivisionBounds(ts, w);
    } else {
      DivisionBounds(-ts, w);
      NegatedMultiple(-ts / w, w);
      MultiplesInOrder(q, k, w);
      MultiplesInOrder(k, 0, w);
    }
  }

  /** SQL's bucket: rounded down from 1970 on, rounded up before. */
  lemma BucketMeaning(ts: int, w: int, k: int)
    requires 0 < w && k * w <= ts < k * w + w
    ensures Bucket(ts, w) == if 0 <= ts || ts == k * w then k * w else k * w + w
  {
    if 0 <= ts {
      DivisionUnique(ts, k, w);
    } else if ts == k * w {
      assert (-k) * w == -(k * w);
      DivisionUnique(-ts, -k, w);
    } else {
      assert (-k - 1) * w == -(k * w) - w;
      DivisionUnique(-ts, -k - 1, w);
      assert -(-k - 1) * w == k * w + w;
    }
  }

  /** Truncating a sample to its minute leaves it in its coarse bucket, except,
      before 1970, in the first minute of a bucket but not at its start. */
  lemma MinuteKeepsBucketIff(at: int, w: int)
    requires 0 < w && w % 60 == 0
    ensures Bucket(Minute(at), w) == Bucket(Unix(at), w)
       <==> 0 <= Unix(at) || Unix(at) % w == 0 || 60 <= Unix(at) % w
  {
    hide Bucket, Minute, Unix;
    var q := GridStart(at, 60);
    assert Minute(at) == q * 60 by { MinuteIsTruncated(at); }
    var m, s := w / 60, Unix(at);
    var k := s / w;
    DivisionBounds(s, w);
    MinutesOf(k, w);
    MinuteInBucket(k * m, m, q, s);
    BucketMeaning(s, w, k);
    BucketMeaning(q * 60, w, k);
  }

  lemma MinuteIsTruncated(at: int)
    ensures Minute(at) == Unix(Truncate(at, 60 * NANO))
  {
  }

  lemma MinutesOf(k: int, w: int)
    requires w % 60 == 0
    ensures k * w == (k * (w / 60)) * 60 && w == (w / 60) * 60
  {
    assert w == (w / 60) * 60;
  }

  /** The last minute before s in a bucket of m minutes that starts with minute a. */
  lemma MinuteInBucket(a: int, m: int, q: int, s: int)
    requires a * 60 <= s < a * 60 + m * 60 && q * 60 <= s < q * 60 + 60
    ensures a * 60 <= q * 60 < a * 60 + m * 60 && (q == a <==> s < a * 60 + 60)
  {
  }

  function GridPoint(q: int, w: int, i: int): int { (q + i) * w }

  // What the handler computes.

  function Lookup(m: map<int, Volume>, b: int): Volume {
    if b in m then m[b] else NOTHING
  }

  lemma {:induction false} ListedVolume(ps: seq<Point>, j: nat)
    requires AscendingBuckets(ps) && j < |ps|
    ensures VolumeAt(ps, ps[j].bucket) == ps[j].volume
  {
    if j > 0 { ListedVolume(ps[1..], j - 1); }
  }

  method BuildMap(samples: seq<Point>) returns (m: map<int, Volume>)
    requires AscendingBuckets(samples)
    ensures forall b :: Lookup(m, b) == VolumeAt(samples, b)
  {
    m := map[];
    var i := 0;
    while i < |samples|
      invariant 0 <= i <= |samples|
      invariant forall j :: 0 <= j < i ==> samples[j].bucket in m && m[samples[j].bucket] == samples[j].volume
      invariant forall b :: b in m ==> exists j :: 0 <= j < i && samples[j].bucket == b
    {
      m := m[samples[i].bucket := samples[i].volume];
      i := i + 1;
    }
    forall b ensures Lookup(m, b) == VolumeAt(samples, b) {
      if b in m {
        var j :| 0 <= j < |samples| && samples[j].bucket == b;
        ListedVolume(samples, j);
      } else {
        NotListed(samples, b);
      }
    }
  }

  function Sum(s: seq<int>): int {
    if s == [] then 0 else Sum(s[..|s| - 1]) + s[|s| - 1]
  }

  /** The clock while the handler runs: it never goes back and the request ends. */
  ghost predicate IsClock(tick: nat -> int, horizon: int) {
    forall i, j :: 0 <= i <= j ==> tick(i) <= tick(j) <= horizon
  }

  datatype Chart = Chart(labels: seq<int>, ins: seq<int>, outs: seq<int>)

  /** The chart has the grid's instants as labels, up to the first one that lies
      in the future when it is reached, and the map's volumes as values. */
  ghost predicate IsChart(c: Chart, m: map<int, Volume>, q: int, w: int, tick: nat -> int) {
    && |c.labels| == |c.ins| == |c.outs|
    && (forall i :: 0 <= i < |c.labels| ==>
          && c.labels[i] == GridPoint(q, w, i)
          && c.labels[i] * NANO <= tick(i)
          && Volume(c.ins[i], c.outs[i]) == Lookup(m, c.labels[i]))
    && tick(|c.labels|) < GridPoint(q, w, |c.labels|) * NANO
  }

  method WalkGrid(m: map<int, Volume>, since: int, bucket: int, tick: nat -> int, ghost horizon: int, ghost q: int,
                  ghost w: int)
      returns (c: Chart)
    requires IsClock(tick, horizon) && 0 < w && bucket == w * NANO
    requires Truncate(since, bucket) == q * w * NANO
    ensures IsChart(c, m, q, w, tick)
  {
    var t, i := Truncate(since, bucket), 0;
    c := Chart([], [], []);
    while t <= tick(i)
      invariant i == |c.labels| == |c.ins| == |c.outs|
      invariant t == GridPoint(q, w, i) * NANO
      invariant forall k :: 0 <= k < i ==>
                  && c.labels[k] == GridPoint(q, w, k) && c.labels[k] * NANO <= tick(k)
                  && Volume(c.ins[k], c.outs[k]) == Lookup(m, c.labels[k])
      decreases horizon - t
    {
      assert tick(i) <= horizon;
      assert Unix(t) == GridPoint(q, w, i);
      var pair := Lookup(m, Unix(t));
      c := Chart(c.labels + [Unix(t)], c.ins + [pair.bytesIn], c.outs + [pair.bytesOut]);
      assert GridPoint(q, w, i) + w == GridPoint(q, w, i + 1);
      t, i := t + bucket, i + 1;
    }
  }

  method AddUp(samples: seq<Point>) returns (total: Volume)
    ensures total == PointsTotal(samples)
  {
    var totalIn, totalOut, i := 0, 0, 0;
    while i < |samples|
      invariant 0 <= i <= |samples|
      invariant IsSum(PointsTotal(samples), Volume(totalIn, totalOut), PointsTotal(samples[i..]))
    {
      totalIn, totalOut := totalIn + samples[i].volume.bytesIn, totalOut + samples[i].volume.bytesOut;
      i := i + 1;
    }
    total := Volume(totalIn, totalOut);
  }

  // The chart shows every bucket of the answer.

  function GridSum(ps: seq<Point>, q: int, w: int, n: nat): Volume {
    if n == 0 then NOTHING else GridSum(ps, q, w, n - 1).Plus(VolumeAt(ps, GridPoint(q, w, n - 1)))
  }

  lemma DistinctGridPoints(q: int, w: int, i: int, j: int)
    requires 0 < w && GridPoint(q, w, i) == GridPoint(q, w, j)
    ensures i == j
  {
    MultiplesInOrder(q + i, q + j, w);
    MultiplesInOrder(q + j, q + i, w);
  }

  lemma VolumeOfCons(p: Point, ps: seq<Point>, b: int)
    ensures VolumeAt([p] + ps, b) == if p.bucket == b then p.volume else VolumeAt(ps, b)
  {
    assert ([p] + ps)[1..] == ps;
  }

  lemma {:induction false} GridSumWithPoint(p: Point, ps: seq<Point>, q: int, w: int, n: nat, k: nat)
    requires 0 < w && p.bucket == GridPoint(q, w, k) && forall i :: 0 <= i < |ps| ==> ps[i].bucket != p.bucket
    ensures k < n ==> IsSum(GridSum([p] + ps, q, w, n), GridSum(ps, q, w, n), p.volume)
    ensures n <= k ==> IsSum(GridSum([p] + ps, q, w, n), GridSum(ps, q, w, n), NOTHING)
  {
    hide GridPoint, VolumeAt;
    if n > 0 {
      GridSumWithPoint(p, ps, q, w, n - 1, k);
      VolumeOfCons(p, ps, GridPoint(q, w, n - 1));
      if p.bucket == GridPoint(q, w, n - 1) {
        DistinctGridPoints(q, w, k, n - 1);
        NotListed(ps, p.bucket);
      }
    }
  }

  ghost predicate IsGridPoint(b: int, q: int, w: int, n: nat) {
    exists k :: 0 <= k < n && b == GridPoint(q, w, k)
  }

  ghost predicate OnGrid(ps: seq<Point>, q: int, w: int, n: nat) {
    forall i :: 0 <= i < |ps| ==> IsGridPoint(ps[i].bucket, q, w, n)
  }

  lemma {:induction false} EmptyGridSum(q: int, w: int, n: nat)
    ensures IsSum(GridSum([], q, w, n), NOTHING, NOTHING)
  {
    if n > 0 { EmptyGridSum(q, w, n - 1); }
  }

  lemma {:induction false} GridCoversPoints(ps: seq<Point>, q: int, w: int, n: nat)
    requires 0 < w && AscendingBuckets(ps) && OnGrid(ps, q, w, n)
    ensures IsSum(GridSum(ps, q, w, n), PointsTotal(ps), NOTHING)
  {
    if ps == [] {
      EmptyGridSum(q, w, n);
    } else {
      var k :| 0 <= k < n && ps[0].bucket == GridPoint(q, w, k);
      GridCoversPoints(ps[1..], q, w, n);
      GridSumWithPoint(ps[0], ps[1..], q, w, n, k);
      assert [ps[0]] + ps[1..] == ps;
    }
  }

  lemma {:induction false} SeriesSum(ps: seq<Point>, q: int, w: int, ins: seq<int>, outs: seq<int>)
    requires |ins| == |outs| && forall i :: 0 <= i < |ins| ==>
               Volume(ins[i], outs[i]) == VolumeAt(ps, GridPoint(q, w, i))
    ensures Volume(Sum(ins), Sum(outs)) == GridSum(ps, q, w, |ins|)
  {
    if ins != [] {
      SeriesSum(ps, q, w, ins[..|ins| - 1], outs[..|outs| - 1]);
    }
  }

  lemma RowOnGrid(ts: int, w: int, q: int, n: nat, steps: nat)
    requires 0 < w && q * w <= ts < GridPoint(q, w, n) && (steps == n + 1 || (steps == n && 0 < GridPoint(q, w, n)))
    ensures IsGridPoint(Bucket(ts, w), q, w, steps)
  {
    hide Bucket, GridPoint, IsGridPoint;
    var k := BucketOnGrid(ts, w, q);
    NextGridPoint(q, w, n);
    GridPointBelow(k, q, w, steps);
  }

  lemma NextGridPoint(q: int, w: int, i: int)
    ensures GridPoint(q, w, i + 1) == GridPoint(q, w, i) + w
  {
  }

  lemma GridPointBelow(k: int, q: int, w: int, n: nat)
    requires 0 < w && q <= k && k * w < GridPoint(q, w, n)
    ensures IsGridPoint(k * w, q, w, n)
  {
    MultiplesInOrder(q + n, k, w);
    assert k * w == GridPoint(q, w, k - q);
  }

  /** Every bucket of the answer lies on the walked part of the grid, or, while
      the clock stands before 1970, one step further. */
  lemma AnswerIsOnGrid(rows: seq<Sample>, f: Metrics.Filter, queryAt: int, q: int, w: int, n: nat, end: int)
    requires w == Width(f) && f.until.None? && q * w <= Unix(f.since)
    requires queryAt <= end < GridPoint(q, w, n) * NANO
    ensures OnGrid(Query(rows, f, queryAt), q, w, if 0 <= end then n else n + 1)
  {
    var steps := if 0 <= end then n else n + 1;
    var sel, ps := Selected(rows, f, queryAt), Query(rows, f, queryAt);
    GroupOrders(sel, Buckets(w));
    KeepMembers(rows, (s: Sample) => Metrics.Matches(s, f, queryAt));
    assert Unix(queryAt) * NANO <= queryAt;
    hide Bucket, GridPoint, IsGridPoint;
    forall i | 0 <= i < |ps| ensures IsGridPoint(ps[i].bucket, q, w, steps) {
      assert ps[i] in ps;
      var s :| s in sel && ps[i].bucket == Buckets(w)(s.ts);
      RowOnGrid(s.ts, w, q, n, steps);
    }
  }

  function QueryFor(p: Period, readAt: int): Metrics.Filter {
    Metrics.Filter(readAt - p.duration, None, 0, [], p.bucket / NANO)
  }

  /** The label that the chart would have next. */
  function NextLabel(since: int, w: int, n: nat): int {
    Unix(Truncate(since, w * NANO)) + n * w
  }

  lemma OffGrid(ps: seq<Point>, q: int, w: int, n: nat)
    requires 0 < w && OnGrid(ps, q, w, n)
    ensures VolumeAt(ps, GridPoint(q, w, n)) == NOTHING
  {
    hide GridPoint;
    forall i | 0 <= i < |ps| ensures ps[i].bucket != GridPoint(q, w, n) {
      assert IsGridPoint(ps[i].bucket, q, w, n);
      var k :| 0 <= k < n && ps[i].bucket == GridPoint(q, w, k);
      if GridPoint(q, w, k) == GridPoint(q, w, n) { DistinctGridPoints(q, w, k, n); }
    }
    NotListed(ps, GridPoint(q, w, n));
  }

  /** The dashboard's consistency, for any chart drawn from the query's answer:
      the series miss exactly what is listed for the next label. */
  lemma ChartShowsTheAnswer(rows: seq<Sample>, f: Metrics.Filter, queryAt: int, c: Chart, m: map<int, Volume>,
                            q: int, w: int, tick: nat -> int, horizon: int)
    requires w == Width(f) && f.until.None? && q * w <= Unix(f.since)
    requires IsClock(tick, horizon) && queryAt <= tick(0)
    requires forall b :: Lookup(m, b) == VolumeAt(Query(rows, f, queryAt), b)
    requires IsChart(c, m, q, w, tick)
    ensures var answer, n := Query(rows, f, queryAt), |c.labels|;
            && PointsTotal(answer) == Total(Selected(rows, f, queryAt))
            && IsSum(PointsTotal(answer), Volume(Sum(c.ins), Sum(c.outs)), VolumeAt(answer, GridPoint(q, w, n)))
            && (0 <= tick(0) ==> VolumeAt(answer, GridPoint(q, w, n)) == NOTHING)
  {
    var answer, n := Query(rows, f, queryAt), |c.labels|;
    assert tick(0) <= tick(n);
    GroupOrders(Selected(rows, f, queryAt), Buckets(w));
    GroupConserves(Selected(rows, f, queryAt), Buckets(w));
    AnswerIsOnGrid(rows, f, queryAt, q, w, n, tick(n));
    SeriesSum(answer, q, w, c.ins, c.outs);
    if 0 <= tick(n) {
      OffGrid(answer, q, w, n);
      GridCoversPoints(answer, q, w, n);
    } else {
      GridCoversPoints(answer, q, w, n + 1);
    }
  }

  lemma LabelsOfChart(c: Chart, m: map<int, Volume>, since: int, q: int, w: int, tick: nat -> int)
    requires IsChart(c, m, q, w, tick) && 0 < w && q * w <= Unix(since) < q * w + w && since <= tick(0)
    ensures 1 <= |c.labels|
    ensures c.labels[0] * 1_000_000_000 <= since < (c.labels[0] + w) * 1_000_000_000
    ensures forall i :: 0 <= i < |c.labels| ==> c.labels[i] == c.labels[0] + i * w
    ensures c.labels[|c.labels| - 1] * 1_000_000_000 <= tick(|c.labels| - 1)
    ensures tick(|c.labels|) < (c.labels[|c.labels| - 1] + w) * 1_000_000_000
  {
    hide Truncate;
    var n := |c.labels|;
    assert GridPoint(q, w, 0) == q * w;
    forall i | 0 <= i < n ensures c.labels[i] == c.labels[0] + i * w {
      GridPointAt(q, w, i);
    }
    NextGridPoint(q, w, n - 1);
  }

  lemma GridPointAt(q: int, w: int, i: int)
    ensures GridPoint(q, w, i) == q * w + i * w
  {
  }

  lemma HeadlineMeaning(rows: seq<Sample>, p: Period, readAt: int, queryAt: int)
    ensures Total(Selected(rows, QueryFor(p, readAt), queryAt))
         == SumWhere(rows, (s: Sample) =>
              (readAt - p.duration) / 1_000_000_000 <= s.ts < queryAt / 1_000_000_000)
  {
    TotalOfKept(rows, (s: Sample) => Metrics.Matches(s, QueryFor(p, readAt), queryAt), (s: Sample) =>
      (readAt - p.duration) / 1_000_000_000 <= s.ts < queryAt / 1_000_000_000);
  }

  /** The dashboard for a period: readAt is when the period is counted back,
      queryAt when the query runs, and tick gives the clock in the grid loop. */
  method GetDashboard(rows: seq<Sample>, key: string, readAt: int, queryAt: int, tick: nat -> int, ghost horizon: int)
      returns (c: Chart, total: Volume)
    requires IsClock(tick, horizon) && readAt <= queryAt <= tick(0)
    // The labels are the starts of buckets, without a gap, from the one in which
    // the period begins up to the one of the present.
    ensures 1 <= |c.labels|
    ensures var p := PeriodOf(key);
            var w := p.bucket / 1_000_000_000;
            && c.labels[0] * 1_000_000_000 <= readAt - p.duration < (c.labels[0] + w) * 1_000_000_000
            && (forall i :: 0 <= i < |c.labels| ==> c.labels[i] == c.labels[0] + i * w)
            && c.labels[|c.labels| - 1] * 1_000_000_000 <= tick(|c.labels| - 1)
            && tick(|c.labels|) < (c.labels[|c.labels| - 1] + w) * 1_000_000_000
    // Each plotted value is what the query listed for its label.
    ensures |c.labels| == |c.ins| == |c.outs|
    ensures var answer := Query(rows, QueryFor(PeriodOf(key), readAt), queryAt);
            forall i :: 0 <= i < |c.labels| ==> Volume(c.ins[i], c.outs[i]) == VolumeAt(answer, c.labels[i])
    // The headline is the sum over the selected rows.  The chart misses of it
    // what is listed for the next label, which is nothing once 1970 has begun.
    ensures total == Total(Selected(rows, QueryFor(PeriodOf(key), readAt), queryAt))
    ensures total == SumWhere(rows, (s: Sample) =>
              (readAt - PeriodOf(key).duration) / 1_000_000_000 <= s.ts < queryAt / 1_000_000_000)
    ensures var f := QueryFor(PeriodOf(key), readAt);
            var missed := VolumeAt(Query(rows, f, queryAt), NextLabel(f.since, Width(f), |c.labels|));
            && IsSum(total, Volume(Sum(c.ins), Sum(c.outs)), missed)
            && (0 <= tick(0) ==> missed == NOTHING && Volume(Sum(c.ins), Sum(c.outs)) == total)
  {
    hide PeriodOf, Selected, SumWhere, Total, VolumeAt, PointsTotal, Sum, Truncate, GridPoint;
    var p := PeriodOf(key);
    var f := QueryFor(p, readAt);
    var samples := Query(rows, f, queryAt);
    PeriodsAreCommensurable(key);
    ghost var w := Width(f);
    ghost var q := GridStart(f.since, w);
    GroupOrders(Selected(rows, f, queryAt), Buckets(w));
    var m := BuildMap(samples);
    c := WalkGrid(m, f.since, p.bucket, tick, horizon, q, w);
    total := AddUp(samples);
    ChartShowsTheAnswer(rows, f, queryAt, c, m, q, w, tick, horizon);
    HeadlineMeaning(rows, p, readAt, queryAt);
    LabelsOfChart(c, m, f.since, q, w, tick);
    GridPointAt(q, w, |c.labels|);
  }
}
