/** Traffic metrics: agents report deltas, the server adds them to one row per
    client and minute, and a query groups the rows into coarser buckets. */
module Metrics {
  import opened Basics
  import opened Clock
  import opened Rows

  datatype Volume = Volume(bytesIn: int, bytesOut: int) {
    function Plus(v: Volume): Volume { Volume(bytesIn + v.bytesIn, bytesOut + v.bytesOut) }
    function Minus(v: Volume): Volume { Volume(bytesIn - v.bytesIn, bytesOut - v.bytesOut) }
  }

  const NOTHING := Volume(0, 0)

  /** t is the sum of a and b, component by component. */
  predicate IsSum(t: Volume, a: Volume, b: Volume) {
    t.bytesIn == a.bytesIn + b.bytesIn && t.bytesOut == a.bytesOut + b.bytesOut
  }

  // The agent's reports.

  /** What the counters show at a tick. */
  datatype Reading = Reading(volume: Volume, conns: int)

  datatype Report = Report(delta: Volume, conns: int)

  /** The reports of consecutive ticks, each against the tick before. */
  function Reports(last: Volume, ticks: seq<Reading>): seq<Report>
    decreases |ticks|
  {
    if ticks == [] then []
    else [Report(ticks[0].volume.Minus(last), ticks[0].conns)] + Reports(ticks[0].volume, ticks[1..])
  }

  function Reported(rs: seq<Report>): Volume {
    if rs == [] then NOTHING else rs[0].delta.Plus(Reported(rs[1..]))
  }

  lemma {:induction false} ReportsPrefix(last: Volume, ticks: seq<Reading>, k: nat)
    requires k < |ticks|
    ensures Reports(last, ticks[..k + 1])
         == Reports(last, ticks[..k])
           + [Report(ticks[k].volume.Minus(if k == 0 then last else ticks[k - 1].volume), ticks[k].conns)]
    decreases k
  {
    if k > 0 {
      ReportsPrefix(ticks[0].volume, ticks[1..], k - 1);
      assert ticks[..k + 1][1..] == ticks[1..][..k] && ticks[..k][1..] == ticks[1..][..k - 1];
    }
  }

  /** The agent's loop: it stops at the first report that cannot be written. */
  method MetaLoop(ticks: seq<Reading>, writes: nat -> bool) returns (sent: seq<Report>)
    ensures |sent| <= |ticks| && sent == Reports(NOTHING, ticks[..|sent|])
    ensures |sent| == |ticks| || !writes(|sent|)
    ensures forall i :: 0 <= i < |sent| ==> writes(i)
  {
    sent := [];
    var last := NOTHING;
    var i := 0;
    while i < |ticks|
      invariant 0 <= i <= |ticks| && |sent| == i
      invariant last == if i == 0 then NOTHING else ticks[i - 1].volume
      invariant sent == Reports(NOTHING, ticks[..i])
      invariant forall k :: 0 <= k < i ==> writes(k)
    {
      var now := ticks[i];
      var report := Report(now.volume.Minus(last), now.conns);
      last := now.volume;
      if !writes(i) {
        return;
      }
      ReportsPrefix(NOTHING, ticks, i);
      sent := sent + [report];
      i := i + 1;
    }
  }

  /** There is one report per tick: what the counters have gained since the tick
      before, and the connections at the tick. */
  lemma {:induction false} ReportOfTick(last: Volume, ticks: seq<Reading>, k: nat)
    requires k < |ticks|
    ensures |Reports(last, ticks)| == |ticks|
    ensures var before := if k == 0 then last else ticks[k - 1].volume;
            var r := Reports(last, ticks)[k];
            && r.delta.bytesIn == ticks[k].volume.bytesIn - before.bytesIn
            && r.delta.bytesOut == ticks[k].volume.bytesOut - before.bytesOut
            && r.conns == ticks[k].conns
    decreases |ticks|
  {
    if |ticks| > 1 { ReportOfTick(ticks[0].volume, ticks[1..], if k == 0 then 0 else k - 1); }
  }

  /** The deltas add up to the counters at the last tick that was reported. */
  lemma {:induction false} ReportsTelescope(last: Volume, ticks: seq<Reading>)
    ensures Reported(Reports(last, ticks)) == if ticks == [] then NOTHING else ticks[|ticks| - 1].volume.Minus(last)
    decreases |ticks|
  {
    if ticks != [] { ReportsTelescope(ticks[0].volume, ticks[1..]); }
  }

  // The table of samples.

  datatype Sample = Sample(client: int, ts: int, volume: Volume, conns: int)

  predicate SameKey(a: Sample, b: Sample) { a.client == b.client && a.ts == b.ts }

  predicate Keyed(rows: seq<Sample>) {
    forall i, j :: 0 <= i < j < |rows| ==> !SameKey(rows[i], rows[j])
  }

  /** INSERT ... ON CONFLICT DO UPDATE. */
  function Upsert(rows: seq<Sample>, s: Sample): seq<Sample> {
    if rows == [] then [s]
    else if SameKey(rows[0], s) then [s.(volume := rows[0].volume.Plus(s.volume))] + rows[1..]
    else [rows[0]] + Upsert(rows[1..], s)
  }

  /** The row key of a sample taken at an instant: the start of its minute. */
  function Minute(at: int): int { Unix(Truncate(at, MINUTE)) }

  function AddSample(rows: seq<Sample>, client: int, at: int, r: Report): seq<Sample> {
    Upsert(rows, Sample(client, Minute(at), r.delta, r.conns))
  }

  function Total(rows: seq<Sample>): Volume {
    if rows == [] then NOTHING else rows[0].volume.Plus(Total(rows[1..]))
  }

  function ClientTotal(rows: seq<Sample>, client: int): Volume {
    if rows == [] then NOTHING
    else (if rows[0].client == client then rows[0].volume else NOTHING).Plus(ClientTotal(rows[1..], client))
  }

  /** The rows whose bucket is b. */
  function BucketTotal(rows: seq<Sample>, bucket: int -> int, b: int): Volume {
    if rows == [] then NOTHING
    else (if bucket(rows[0].ts) == b then rows[0].volume else NOTHING).Plus(BucketTotal(rows[1..], bucket, b))
  }

  lemma {:induction false} UpsertKeys(rows: seq<Sample>, s: Sample)
    ensures forall r :: r in Upsert(rows, s) ==> SameKey(r, s) || r in rows
  {
    if rows != [] && !SameKey(rows[0], s) { UpsertKeys(rows[1..], s); }
  }

  lemma {:induction false} UpsertKeepsKeys(rows: seq<Sample>, s: Sample)
    requires Keyed(rows)
    ensures Keyed(Upsert(rows, s))
  {
    if rows != [] && !SameKey(rows[0], s) {
      UpsertKeepsKeys(rows[1..], s);
      UpsertKeys(rows[1..], s);
      var rest := Upsert(rows[1..], s);
      forall k | 0 <= k < |rest| ensures !SameKey(rows[0], rest[k]) {
        assert rest[k] in rest;
      }
    }
  }

  /** The volume of the row with the key of s, if there is one. */
  function KeyVolume(rows: seq<Sample>, s: Sample): Volume {
    if rows == [] then NOTHING else if SameKey(rows[0], s) then rows[0].volume else KeyVolume(rows[1..], s)
  }

  /** The sample's row gains its volume and takes over its connection count; all
      other rows stay. */
  lemma {:induction false} UpsertMeaning(rows: seq<Sample>, s: Sample)
    requires Keyed(rows)
    ensures forall r :: r in Upsert(rows, s) <==>
              (r in rows && !SameKey(r, s)) || r == s.(volume := KeyVolume(rows, s).Plus(s.volume))
  {
    if rows != [] {
      var first, rest := rows[0], rows[1..];
      assert rows == [first] + rest;
      assert forall k :: 0 <= k < |rest| ==> !SameKey(first, rest[k]);
      if !SameKey(first, s) {
        UpsertMeaning(rest, s);
      } else {
        assert forall r :: r in rest ==> !SameKey(r, s);
      }
    }
  }

  /** What storing a report changes: one row, that of its client and of the minute
      that it came in, which gains the report's bytes and takes its connections. */
  lemma SampleMeaning(rows: seq<Sample>, client: int, at: int, r: Report) returns (minute: int)
    requires Keyed(rows)
    ensures minute % 60 == 0 && minute * 1_000_000_000 <= at < (minute + 60) * 1_000_000_000
    ensures var was := KeyVolume(rows, Sample(client, minute, r.delta, r.conns));
            forall s :: s in AddSample(rows, client, at, r) <==>
              || (s in rows && !(s.client == client && s.ts == minute))
              || (s.client == client && s.ts == minute && s.conns == r.conns
                    && s.volume.bytesIn == was.bytesIn + r.delta.bytesIn
                    && s.volume.bytesOut == was.bytesOut + r.delta.bytesOut)
  {
    minute := Minute(at);
    MinuteMeaning(at);
    hide Minute, Upsert;
    UpsertMeaning(rows, Sample(client, minute, r.delta, r.conns));
  }

  lemma MinuteMeaning(at: int)
    ensures Minute(at) % 60 == 0 && Minute(at) * 1_000_000_000 <= at < (Minute(at) + 60) * 1_000_000_000
  {
  }

  /** A sample adds its volume to its client and to no other. */
  lemma {:induction false} UpsertConserves(rows: seq<Sample>, s: Sample, client: int)
    ensures ClientTotal(Upsert(rows, s), client)
         == ClientTotal(rows, client).Plus(if s.client == client then s.volume else NOTHING)
  {
    if rows != [] {
      if SameKey(rows[0], s) {
        assert Upsert(rows, s)[1..] == rows[1..];
      } else {
        UpsertConserves(rows[1..], s, client);
        assert Upsert(rows, s)[1..] == Upsert(rows[1..], s);
      }
    }
  }

  // The query.

  datatype Filter = Filter(since: int, until: Option<int>, client: int, clients: seq<int>, bucketSeconds: int)

  function Width(f: Filter): (w: int)
    ensures 0 < w
  {
    if f.bucketSeconds <= 0 then 60 else f.bucketSeconds
  }

  /** SQL's integer division rounds towards zero. */
  function SqlDiv(a: int, w: int): int
    requires 0 < w
  {
    if 0 <= a then a / w else -(-a / w)
  }

  function Bucket(ts: int, w: int): int
    requires 0 < w
  {
    SqlDiv(ts, w) * w
  }

  function Until(f: Filter, now: int): int {
    if f.until.Some? then Unix(f.until.value) else Unix(now)
  }

  predicate Matches(s: Sample, f: Filter, now: int) {
    && Unix(f.since) <= s.ts < Until(f, now)
    && (if 0 < f.client then s.client == f.client else f.clients != [] ==> s.client in f.clients)
  }

  function Selected(rows: seq<Sample>, f: Filter, now: int): seq<Sample> {
    Keep(rows, (s: Sample) => Matches(s, f, now))
  }

  /** The sum of the volumes of the rows that satisfy a condition. */
  function SumWhere(rows: seq<Sample>, p: Sample -> bool): Volume {
    if rows == [] then NOTHING
    else if p(rows[0]) then rows[0].volume.Plus(SumWhere(rows[1..], p)) else SumWhere(rows[1..], p)
  }

  lemma {:induction false} TotalOfKept(rows: seq<Sample>, p: Sample -> bool, q: Sample -> bool)
    requires forall s :: s in rows ==> p(s) == q(s)
    ensures Total(Keep(rows, p)) == SumWhere(rows, q)
  {
    hide Volume.Plus;
    if rows != [] {
      TotalOfKept(rows[1..], p, q);
      KeepHead(rows, p);
    }
  }

  lemma {:induction false} SumOfKept(rows: seq<Sample>, p: Sample -> bool, r: Sample -> bool, q: Sample -> bool)
    requires forall s :: s in rows ==> (p(s) && r(s)) == q(s)
    ensures SumWhere(Keep(rows, p), r) == SumWhere(rows, q)
  {
    hide Volume.Plus;
    if rows != [] {
      SumOfKept(rows[1..], p, r, q);
      KeepHead(rows, p);
    }
  }

  lemma {:induction false} BucketTotalIsSum(rows: seq<Sample>, bucket: int -> int, b: int, r: Sample -> bool)
    requires forall s :: s in rows ==> (bucket(s.ts) == b) == r(s)
    ensures BucketTotal(rows, bucket, b) == SumWhere(rows, r)
  {
    hide Volume.Plus;
    if rows != [] {
      BucketTotalIsSum(rows[1..], bucket, b, r);
      NothingPlus(SumWhere(rows[1..], r));
    }
  }

  lemma {:induction false} SumSame(rows: seq<Sample>, p: Sample -> bool, q: Sample -> bool)
    requires forall s :: s in rows ==> p(s) == q(s)
    ensures SumWhere(rows, p) == SumWhere(rows, q)
  {
    hide Volume.Plus;
    if rows != [] { SumSame(rows[1..], p, q); }
  }

  lemma NothingPlus(v: Volume)
    ensures NOTHING.Plus(v) == v
  {
  }

  lemma KeepHead(rows: seq<Sample>, p: Sample -> bool)
    requires rows != []
    ensures p(rows[0]) ==>
              Keep(rows, p) != [] && Keep(rows, p)[0] == rows[0] && Keep(rows, p)[1..] == Keep(rows[1..], p)
    ensures !p(rows[0]) ==> Keep(rows, p) == Keep(rows[1..], p)
  {
  }

  datatype Point = Point(bucket: int, volume: Volume, conns: int)

  function Max(a: int, b: int): int { if a < b then b else a }

  /** Adds a row to the groups, which are kept in the order of their buckets. */
  function AddToGroup(ps: seq<Point>, b: int, s: Sample): seq<Point> {
    if ps == [] || b < ps[0].bucket then [Point(b, s.volume, s.conns)] + ps
    else if ps[0].bucket == b then
      [Point(b, ps[0].volume.Plus(s.volume), Max(ps[0].conns, s.conns))] + ps[1..]
    else [ps[0]] + AddToGroup(ps[1..], b, s)
  }

  /** GROUP BY and ORDER BY the bucket. */
  function Group(rows: seq<Sample>, bucket: int -> int): seq<Point> {
    if rows == [] then [] else AddToGroup(Group(rows[1..], bucket), bucket(rows[0].ts), rows[0])
  }

  function Buckets(w: int): int -> int
    requires 0 < w
  {
    ts => Bucket(ts, w)
  }

  function Query(rows: seq<Sample>, f: Filter, now: int): seq<Point> {
    Group(Selected(rows, f, now), Buckets(Width(f)))
  }

  function PointsTotal(ps: seq<Point>): Volume {
    if ps == [] then NOTHING else ps[0].volume.Plus(PointsTotal(ps[1..]))
  }

  predicate AscendingBuckets(ps: seq<Point>) {
    forall i, j :: 0 <= i < j < |ps| ==> ps[i].bucket < ps[j].bucket
  }

  lemma {:induction false} AddToGroupOrders(ps: seq<Point>, b: int, s: Sample)
    requires AscendingBuckets(ps)
    ensures AscendingBuckets(AddToGroup(ps, b, s))
    ensures forall p :: p in AddToGroup(ps, b, s) ==> p.bucket == b || p in ps
  {
    if ps == [] || b < ps[0].bucket {
      AscendingCons(Point(b, s.volume, s.conns), ps);
    } else if ps[0].bucket == b {
      AscendingCons(Point(b, ps[0].volume.Plus(s.volume), Max(ps[0].conns, s.conns)), ps[1..]);
    } else {
      AddToGroupOrders(ps[1..], b, s);
      var rest := AddToGroup(ps[1..], b, s);
      forall k | 0 <= k < |rest| ensures ps[0].bucket < rest[k].bucket {
        assert rest[k] in rest;
      }
      AscendingCons(ps[0], rest);
    }
  }

  lemma AscendingCons(p: Point, ps: seq<Point>)
    requires AscendingBuckets(ps) && forall k :: 0 <= k < |ps| ==> p.bucket < ps[k].bucket
    ensures AscendingBuckets([p] + ps)
  {
  }

  /** Buckets come in ascending order, once each, and only those of some row. */
  lemma {:induction false} GroupOrders(rows: seq<Sample>, bucket: int -> int)
    ensures AscendingBuckets(Group(rows, bucket))
    ensures forall p :: p in Group(rows, bucket) ==> exists s :: s in rows && p.bucket == bucket(s.ts)
  {
    if rows != [] {
      GroupOrders(rows[1..], bucket);
      AddToGroupOrders(Group(rows[1..], bucket), bucket(rows[0].ts), rows[0]);
      forall p | p in Group(rows, bucket) ensures exists s :: s in rows && p.bucket == bucket(s.ts) {
        if p.bucket == bucket(rows[0].ts) {
          assert rows[0] in rows;
        } else {
          var s :| s in rows[1..] && p.bucket == bucket(s.ts);
          assert s in rows;
        }
      }
    }
  }

  /** The volume listed for a bucket; none if the bucket is not listed. */
  function VolumeAt(ps: seq<Point>, b: int): Volume {
    if ps == [] then NOTHING else if ps[0].bucket == b then ps[0].volume else VolumeAt(ps[1..], b)
  }

  lemma {:induction false} AddToGroupVolume(ps: seq<Point>, b: int, s: Sample, x: int)
    requires AscendingBuckets(ps)
    ensures VolumeAt(AddToGroup(ps, b, s), x) == if x == b then VolumeAt(ps, b).Plus(s.volume) else VolumeAt(ps, x)
  {
    if ps != [] && ps[0].bucket < b {
      AddToGroupVolume(ps[1..], b, s, x);
    } else if ps != [] && b < ps[0].bucket {
      NotListed(ps, b);
      assert AddToGroup(ps, b, s)[1..] == ps;
    } else if ps != [] {
      assert AddToGroup(ps, b, s)[1..] == ps[1..];
    }
  }

  lemma {:induction false} NotListed(ps: seq<Point>, b: int)
    requires forall i :: 0 <= i < |ps| ==> ps[i].bucket != b
    ensures VolumeAt(ps, b) == NOTHING
  {
    if ps != [] { NotListed(ps[1..], b); }
  }

  /** Each listed volume is the sum over the rows of its bucket. */
  lemma {:induction false} GroupSumsBuckets(rows: seq<Sample>, bucket: int -> int, b: int)
    ensures IsSum(VolumeAt(Group(rows, bucket), b), BucketTotal(rows, bucket, b), NOTHING)
  {
    if rows != [] {
      var ps, b0 := Group(rows[1..], bucket), bucket(rows[0].ts);
      GroupSumsBuckets(rows[1..], bucket, b);
      GroupOrders(rows[1..], bucket);
      AddToGroupVolume(ps, b0, rows[0], b);
    }
  }

  /** The connection count listed for a bucket. */
  function ConnsAt(ps: seq<Point>, b: int): Option<int> {
    if ps == [] then None else if ps[0].bucket == b then Some(ps[0].conns) else ConnsAt(ps[1..], b)
  }

  lemma {:induction false} ConnsNotListed(ps: seq<Point>, b: int)
    requires forall i :: 0 <= i < |ps| ==> ps[i].bucket != b
    ensures ConnsAt(ps, b) == None
  {
    if ps != [] { ConnsNotListed(ps[1..], b); }
  }

  function Higher(c: Option<int>, conns: int): Option<int> {
    if c.None? then Some(conns) else Some(Max(c.value, conns))
  }

  lemma {:induction false} AddToGroupConns(ps: seq<Point>, b: int, s: Sample, x: int)
    requires AscendingBuckets(ps)
    ensures ConnsAt(AddToGroup(ps, b, s), x) == if x == b then Higher(ConnsAt(ps, b), s.conns) else ConnsAt(ps, x)
  {
    if ps != [] && ps[0].bucket < b {
      AddToGroupConns(ps[1..], b, s, x);
    } else if ps != [] && b < ps[0].bucket {
      ConnsNotListed(ps, b);
      assert AddToGroup(ps, b, s)[1..] == ps;
    } else if ps != [] {
      assert AddToGroup(ps, b, s)[1..] == ps[1..];
    }
  }

  /** c is the largest connection count among the rows of bucket b, if any. */
  ghost predicate IsPeak(c: Option<int>, rows: seq<Sample>, bucket: int -> int, b: int) {
    match c
    case None => forall s :: s in rows ==> bucket(s.ts) != b
    case Some(n) =>
      && (exists s :: s in rows && bucket(s.ts) == b && s.conns == n)
      && (forall s :: s in rows && bucket(s.ts) == b ==> s.conns <= n)
  }

  lemma PeakWithRow(c: Option<int>, s: Sample, rest: seq<Sample>, bucket: int -> int, b: int)
    requires IsPeak(c, rest, bucket, b)
    ensures IsPeak(if bucket(s.ts) == b then Higher(c, s.conns) else c, [s] + rest, bucket, b)
  {
    assert s in [s] + rest && forall x :: x in [s] + rest <==> x == s || x in rest;
  }

  /** A bucket is listed exactly if it has rows, and with their peak. */
  lemma {:induction false} GroupTakesPeaks(rows: seq<Sample>, bucket: int -> int, b: int)
    ensures IsPeak(ConnsAt(Group(rows, bucket), b), rows, bucket, b)
  {
    if rows != [] {
      GroupTakesPeaks(rows[1..], bucket, b);
      GroupOrders(rows[1..], bucket);
      AddToGroupConns(Group(rows[1..], bucket), bucket(rows[0].ts), rows[0], b);
      PeakWithRow(ConnsAt(Group(rows[1..], bucket), b), rows[0], rows[1..], bucket, b);
      assert rows == [rows[0]] + rows[1..];
    }
  }

  lemma {:induction false} AddToGroupTotal(ps: seq<Point>, b: int, s: Sample)
    ensures PointsTotal(AddToGroup(ps, b, s)) == PointsTotal(ps).Plus(s.volume)
  {
    if ps != [] && !(b < ps[0].bucket) {
      if ps[0].bucket == b {
        assert AddToGroup(ps, b, s)[1..] == ps[1..];
      } else {
        AddToGroupTotal(ps[1..], b, s);
      }
    } else {
      assert AddToGroup(ps, b, s)[1..] == ps;
    }
  }

  /** Grouping moves bytes between buckets but loses none. */
  lemma {:induction false} GroupConserves(rows: seq<Sample>, bucket: int -> int)
    ensures PointsTotal(Group(rows, bucket)) == Total(rows)
  {
    if rows != [] {
      GroupConserves(rows[1..], bucket);
      AddToGroupTotal(Group(rows[1..], bucket), bucket(rows[0].ts), rows[0]);
    }
  }

  /** What the query answers, in the columns of the table: under each bucket the
      sum over exactly the rows from since on and before until, or the present, of
      the client or the clients asked for, if any, that fall into the bucket. */
  lemma AnswerMeaning(rows: seq<Sample>, f: Filter, now: int, b: int)
    ensures VolumeAt(Query(rows, f, now), b)
         == SumWhere(rows, (s: Sample) =>
              && f.since / 1_000_000_000 <= s.ts
              && s.ts < (if f.until.Some? then f.until.value else now) / 1_000_000_000
              && (f.client <= 0 || s.client == f.client)
              && (0 < f.client || f.clients == [] || s.client in f.clients)
              && Bucket(s.ts, if f.bucketSeconds <= 0 then 60 else f.bucketSeconds) == b)
  {
    hide Bucket, Keep, Group, SumWhere, BucketTotal, VolumeAt, Unix;
    var sel, w := Selected(rows, f, now), Width(f);
    GroupSumsBuckets(sel, Buckets(w), b);
    BucketTotalIsSum(sel, Buckets(w), b, (s: Sample) => Bucket(s.ts, w) == b);
    SelectionMeaning(rows, f, now, b);
  }

  lemma SelectionMeaning(rows: seq<Sample>, f: Filter, now: int, b: int)
    ensures SumWhere(Selected(rows, f, now), (s: Sample) => Bucket(s.ts, Width(f)) == b)
         == SumWhere(rows, (s: Sample) =>
              && f.since / 1_000_000_000 <= s.ts
              && s.ts < (if f.until.Some? then f.until.value else now) / 1_000_000_000
              && (f.client <= 0 || s.client == f.client)
              && (0 < f.client || f.clients == [] || s.client in f.clients)
              && Bucket(s.ts, if f.bucketSeconds <= 0 then 60 else f.bucketSeconds) == b)
  {
    hide Bucket, Keep, SumWhere;
    SumOfKept(rows, (s: Sample) => Matches(s, f, now), (s: Sample) => Bucket(s.ts, Width(f)) == b, (s: Sample) =>
      && f.since / 1_000_000_000 <= s.ts
      && s.ts < (if f.until.Some? then f.until.value else now) / 1_000_000_000
      && (f.client <= 0 || s.client == f.client)
      && (0 < f.client || f.clients == [] || s.client in f.clients)
      && Bucket(s.ts, if f.bucketSeconds <= 0 then 60 else f.bucketSeconds) == b);
  }
}
