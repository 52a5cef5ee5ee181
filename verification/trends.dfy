/** `GET /api/trends`: the samples of the last `hours` hours grouped into
    five-minute buckets, with the mean of each metric per bucket taken over
    that metric's non-zero readings only. */
module Trends {
  import opened Base
  import opened Model
  import Sorting

  const BucketSeconds := 300

  /** The start of the five-minute bucket holding `ts`. */
  function Bucket(ts: int): (b: int)
    ensures b % BucketSeconds == 0 && b <= ts < b + BucketSeconds
  {
    ts - ts % BucketSeconds
  }

  /** The source's own computation: keep the hour, round the minute down to
      a multiple of five, drop the seconds. */
  function MinuteFloor(ts: int): int {
    var hourStart := ts - ts % 3600;
    var minute := (ts % 3600) / 60;
    hourStart + (minute / 5) * 5 * 60
  }

  /** Hours start on multiples of 300 s, so rounding the minute down is
      rounding the timestamp down to a multiple of 300 s. */
  lemma MinuteFloorIsBucket(ts: int)
    ensures MinuteFloor(ts) == Bucket(ts)
  {
    var x := ts % 3600;
    var a, rr := x / 300, x % 300;
    assert x == 300 * a + rr;
    assert x / 60 == 5 * a + rr / 60;
    assert (x / 60) / 5 == a;
    assert ts == 300 * (12 * (ts / 3600) + a) + rr;
    assert ts % 300 == rr;
  }

  /** The three charted metrics. */
  datatype Metric = Cpu | Memory | Disk

  function ReadingOf(s: StatusSample, m: Metric): real {
    match m
    case Cpu => s.metrics.cpuPercent
    case Memory => s.metrics.memoryPercent
    case Disk => s.metrics.diskPercent
  }

  /** Python truthiness of a float: a zero reading is not counted. */
  predicate Counted(s: StatusSample, m: Metric) {
    ReadingOf(s, m) != 0.0
  }

  /** A sample creates its bucket only if one of its metrics is counted. */
  predicate Contributes(s: StatusSample) {
    Counted(s, Cpu) || Counted(s, Memory) || Counted(s, Disk)
  }

  /** Reference definition: the counted readings of metric `m` in bucket `t`,
      in window order. */
  function Readings(w: seq<StatusSample>, t: int, m: Metric): (xs: seq<real>)
    ensures |xs| <= |w|
    ensures forall k :: 0 <= k < |xs| ==> xs[k] != 0.0
    ensures forall k :: 0 <= k < |xs| ==>
      exists j :: 0 <= j < |w| && Bucket(w[j].timestamp) == t && ReadingOf(w[j], m) == xs[k]
  {
    if |w| == 0 then []
    else
      var init, s := w[..|w| - 1], w[|w| - 1];
      var xs := Readings(init, t, m);
      assert forall j :: 0 <= j < |init| ==> init[j] == w[j];
      xs + (if Bucket(s.timestamp) == t && Counted(s, m) then [ReadingOf(s, m)] else [])
  }

  /** The readings of a bucket are exactly one per counted sample of that
      bucket, in window order: none is dropped and none repeated. */
  lemma {:induction false} ReadingsPerSample(w: seq<StatusSample>, t: int, m: Metric)
    ensures |Readings(w, t, m)| == |Filter(w, CountedIn(t, m))|
    ensures forall k :: 0 <= k < |Readings(w, t, m)| ==>
      Readings(w, t, m)[k] == ReadingOf(Filter(w, CountedIn(t, m))[k], m)
  {
    if |w| > 0 {
      var init, s := w[..|w| - 1], w[|w| - 1];
      var p := CountedIn(t, m);
      ReadingsPerSample(init, t, m);
      assert w == init + [s];
      FilterSnoc(init, s, p);
      var xs, fs := Readings(init, t, m), Filter(init, p);
      if p(s) {
        assert Readings(w, t, m) == xs + [ReadingOf(s, m)];
        assert Filter(w, p) == fs + [s];
        ReadingsSnoc(xs, fs, s, m);
      } else {
        assert Readings(w, t, m) == xs;
        assert Filter(w, p) == fs;
      }
    }
  }

  lemma ReadingsSnoc(xs: seq<real>, fs: seq<StatusSample>, s: StatusSample, m: Metric)
    requires |xs| == |fs| && forall k :: 0 <= k < |xs| ==> xs[k] == ReadingOf(fs[k], m)
    ensures var ys, gs := xs + [ReadingOf(s, m)], fs + [s];
      |ys| == |gs| && forall k :: 0 <= k < |ys| ==> ys[k] == ReadingOf(gs[k], m)
  {
  }

  /** The samples of bucket `t` whose metric `m` counts. */
  function CountedIn(t: int, m: Metric): StatusSample -> bool {
    (s: StatusSample) => Bucket(s.timestamp) == t && Counted(s, m)
  }

  /** Reference definition: some sample of the window lies in bucket `t` and
      has a counted metric. */
  predicate Qualifies(w: seq<StatusSample>, t: int) {
    |w| > 0 &&
    (Qualifies(w[..|w| - 1], t) || (Bucket(w[|w| - 1].timestamp) == t && Contributes(w[|w| - 1])))
  }

  lemma {:induction false} QualifiesMeans(w: seq<StatusSample>, t: int)
    ensures Qualifies(w, t) <==>
      exists j :: 0 <= j < |w| && Bucket(w[j].timestamp) == t && Contributes(w[j])
  {
    if |w| > 0 {
      var init := w[..|w| - 1];
      QualifiesMeans(init, t);
      assert forall j :: 0 <= j < |init| ==> init[j] == w[j];
    }
  }

  /** The per-bucket lists of the source's `defaultdict`. */
  datatype BucketAcc = BucketAcc(time: int, cpu: seq<real>, memory: seq<real>, disk: seq<real>)

  function Values(a: BucketAcc, m: Metric): seq<real> {
    match m
    case Cpu => a.cpu
    case Memory => a.memory
    case Disk => a.disk
  }

  function EmptyAcc(t: int): BucketAcc {
    BucketAcc(t, [], [], [])
  }

  /** Appends each counted metric of `s` to its list. */
  function Append(a: BucketAcc, s: StatusSample): BucketAcc {
    a.(cpu := a.cpu + (if Counted(s, Cpu) then [ReadingOf(s, Cpu)] else []),
       memory := a.memory + (if Counted(s, Memory) then [ReadingOf(s, Memory)] else []),
       disk := a.disk + (if Counted(s, Disk) then [ReadingOf(s, Disk)] else []))
  }

  predicate Ascending(rows: seq<BucketAcc>) {
    forall i, j :: 0 <= i < j < |rows| ==> rows[i].time < rows[j].time
  }

  predicate HasTime(rows: seq<BucketAcc>, t: int) {
    exists i :: 0 <= i < |rows| && rows[i].time == t
  }

  /** The lists kept for bucket `t`, empty if there is no entry for it. */
  function At(rows: seq<BucketAcc>, t: int): (a: BucketAcc)
    ensures a.time == t
  {
    if |rows| == 0 then EmptyAcc(t)
    else if rows[0].time == t then rows[0]
    else At(rows[1..], t)
  }

  /** Below the first entry of an ascending table there is nothing. */
  lemma {:induction false} AtBelow(rows: seq<BucketAcc>, t: int)
    requires Ascending(rows) && (|rows| == 0 || t < rows[0].time)
    ensures At(rows, t) == EmptyAcc(t)
  {
    if |rows| > 0 {
      assert Ascending(rows[1..]);
      AtBelow(rows[1..], t);
    }
  }

  /** In an ascending table every entry is the one found for its own time. */
  lemma {:induction false} AtMember(rows: seq<BucketAcc>, i: int)
    requires Ascending(rows) && 0 <= i < |rows|
    ensures At(rows, rows[i].time) == rows[i]
  {
    if i > 0 {
      assert Ascending(rows[1..]);
      AtMember(rows[1..], i - 1);
    }
  }

  /** One iteration of the source's loop: file `s` under its bucket, creating
      the bucket's entry only when `s` has a counted metric. The table is kept
      in ascending order of bucket time. */
  function Add(rows: seq<BucketAcc>, s: StatusSample): seq<BucketAcc> {
    var b := Bucket(s.timestamp);
    if !Contributes(s) then rows
    else if |rows| == 0 then [Append(EmptyAcc(b), s)]
    else if rows[0].time == b then [Append(rows[0], s)] + rows[1..]
    else if b < rows[0].time then [Append(EmptyAcc(b), s)] + rows
    else [rows[0]] + Add(rows[1..], s)
  }

  /** `Add` adds exactly the bucket of a contributing sample to the table's
      set of bucket times. */
  lemma {:induction false} AddHasTime(rows: seq<BucketAcc>, s: StatusSample, t: int)
    ensures HasTime(Add(rows, s), t) <==> HasTime(rows, t) || (Contributes(s) && t == Bucket(s.timestamp))
  {
    var b := Bucket(s.timestamp);
    var r := Add(rows, s);
    if !Contributes(s) {
    } else if |rows| == 0 {
      if t == b {
        assert r[0].time == t;
      }
    } else if rows[0].time == b {
      if HasTime(rows, t) {
        var i :| 0 <= i < |rows| && rows[i].time == t;
        assert r[i].time == t;
      }
      if HasTime(r, t) {
        var i :| 0 <= i < |r| && r[i].time == t;
        assert rows[i].time == t;
      }
    } else if b < rows[0].time {
      assert r[0].time == b;
      if HasTime(rows, t) {
        var i :| 0 <= i < |rows| && rows[i].time == t;
        assert r[i + 1].time == t;
      }
      if HasTime(r, t) && t != b {
        var i :| 0 <= i < |r| && r[i].time == t;
        assert rows[i - 1].time == t;
      }
    } else {
      var tail := rows[1..];
      var r' := Add(tail, s);
      AddHasTime(tail, s, t);
      assert r == [rows[0]] + r';
      if t == rows[0].time {
        assert r[0].time == t;
      }
      if HasTime(r', t) {
        var k :| 0 <= k < |r'| && r'[k].time == t;
        assert r[k + 1].time == t;
      }
      if HasTime(rows, t) && t != rows[0].time {
        var i :| 0 <= i < |rows| && rows[i].time == t;
        assert tail[i - 1].time == t;
      }
      if HasTime(tail, t) {
        var i :| 0 <= i < |tail| && tail[i].time == t;
        assert rows[i + 1].time == t;
      }
      if HasTime(r, t) && t != rows[0].time {
        var i :| 0 <= i < |r| && r[i].time == t;
        assert r'[i - 1].time == t;
      }
    }
  }

  /** `Add` keeps the table ascending. */
  lemma {:induction false} AddAscending(rows: seq<BucketAcc>, s: StatusSample)
    requires Ascending(rows)
    ensures Ascending(Add(rows, s))
  {
    var b := Bucket(s.timestamp);
    if Contributes(s) && |rows| > 0 && rows[0].time != b && b >= rows[0].time {
      var tail := rows[1..];
      assert Ascending(tail);
      AddAscending(tail, s);
      var r' := Add(tail, s);
      assert Add(rows, s) == [rows[0]] + r';
      forall k | 0 <= k < |r'| ensures rows[0].time < r'[k].time {
        assert HasTime(r', r'[k].time);
        AddHasTime(tail, s, r'[k].time);
        if HasTime(tail, r'[k].time) {
          var i :| 0 <= i < |tail| && tail[i].time == r'[k].time;
          assert rows[i + 1] == tail[i];
        }
      }
    }
  }

  /** `Add` appends to the lists of the sample's own bucket and leaves every
      other bucket as it was. */
  lemma {:induction false} AddAt(rows: seq<BucketAcc>, s: StatusSample, t: int)
    requires Ascending(rows)
    ensures At(Add(rows, s), t) ==
      if Contributes(s) && t == Bucket(s.timestamp) then Append(At(rows, t), s) else At(rows, t)
  {
    var b := Bucket(s.timestamp);
    var r := Add(rows, s);
    if !Contributes(s) {
    } else if |rows| == 0 {
    } else if rows[0].time == b {
      assert r[1..] == rows[1..];
    } else if b < rows[0].time {
      assert r[1..] == rows;
      AtBelow(rows, b);
    } else {
      var tail := rows[1..];
      assert Ascending(tail);
      AddAt(tail, s, t);
      assert r[1..] == Add(tail, s);
    }
  }

  /** The entry a reference computation gives for bucket `t`. */
  function RefAcc(w: seq<StatusSample>, t: int): BucketAcc {
    BucketAcc(t, Readings(w, t, Cpu), Readings(w, t, Memory), Readings(w, t, Disk))
  }

  /** The source's loop over the window: an ascending table whose buckets are
      exactly the qualifying ones, each holding the counted readings of its
      samples. */
  function Group(w: seq<StatusSample>): (rows: seq<BucketAcc>)
    ensures Ascending(rows)
    ensures forall t :: HasTime(rows, t) <==> Qualifies(w, t)
    ensures forall t :: At(rows, t) == RefAcc(w, t)
  {
    if |w| == 0 then []
    else
      var init, s := w[..|w| - 1], w[|w| - 1];
      var prev := Group(init);
      AddAscending(prev, s);
      forall t ensures HasTime(Add(prev, s), t) <==> Qualifies(w, t) {
        AddHasTime(prev, s, t);
      }
      forall t ensures At(Add(prev, s), t) == RefAcc(w, t) {
        AddAt(prev, s, t);
      }
      assert forall t :: Contributes(s) && t == Bucket(s.timestamp) ==>
        Append(RefAcc(init, t), s) == RefAcc(w, t);
      assert forall t :: !(Contributes(s) && t == Bucket(s.timestamp)) ==>
        RefAcc(init, t) == RefAcc(w, t);
      Add(prev, s)
  }

  function Sum(xs: seq<real>): real {
    if |xs| == 0 then 0.0 else Sum(xs[..|xs| - 1]) + xs[|xs| - 1]
  }

  /** `sum(xs) / len(xs) if xs else 0`. */
  function Mean(xs: seq<real>): real {
    if |xs| == 0 then 0.0 else Sum(xs) / (|xs| as real)
  }

  lemma {:induction false} SumBounds(xs: seq<real>, lo: real, hi: real)
    requires forall k :: 0 <= k < |xs| ==> lo <= xs[k] <= hi
    ensures (|xs| as real) * lo <= Sum(xs) <= (|xs| as real) * hi
  {
    if |xs| > 0 {
      SumBounds(xs[..|xs| - 1], lo, hi);
    }
  }

  /** An average lies between the least and the greatest possible reading:
      percentages in [0, 100] average to a percentage in [0, 100]. */
  lemma MeanWithin(xs: seq<real>, lo: real, hi: real)
    requires lo <= hi
    requires forall k :: 0 <= k < |xs| ==> lo <= xs[k] <= hi
    ensures lo <= Mean(xs) <= hi || (|xs| == 0 && Mean(xs) == 0.0)
  {
    if |xs| > 0 {
      SumBounds(xs, lo, hi);
      var n := |xs| as real;
      assert lo * n <= Sum(xs) <= hi * n;
      assert lo <= Sum(xs) / n <= hi;
    }
  }

  /** One point of the chart. */
  datatype TrendPoint = TrendPoint(time: int, cpu: real, memory: real, disk: real)

  function Point(a: BucketAcc): TrendPoint {
    TrendPoint(a.time, Mean(a.cpu), Mean(a.memory), Mean(a.disk))
  }

  function Points(rows: seq<BucketAcc>): (r: seq<TrendPoint>)
    ensures |r| == |rows|
    ensures forall i :: 0 <= i < |r| ==> r[i] == Point(rows[i])
  {
    seq(|rows|, i requires 0 <= i < |rows| => Point(rows[i]))
  }

  /** Only bucket starts qualify: every chart time is a multiple of five
      minutes. */
  lemma QualifiedAligned(w: seq<StatusSample>, t: int)
    requires Qualifies(w, t)
    ensures t % BucketSeconds == 0
  {
    QualifiesMeans(w, t);
  }

  /** The samples of the last `hours` hours, in store order. */
  function RecentSamples(statuses: seq<StatusSample>, since: int): (f: seq<StatusSample>)
    ensures forall i :: 0 <= i < |f| ==> f[i] in statuses && f[i].timestamp >= since
    ensures forall i :: 0 <= i < |statuses| && statuses[i].timestamp >= since ==> statuses[i] in f
    ensures forall s :: multiset(f)[s] == if s.timestamp >= since then multiset(statuses)[s] else 0
  {
    var p := (s: StatusSample) => s.timestamp >= since;
    var f := Filter(statuses, p);
    forall s ensures multiset(f)[s] == if s.timestamp >= since then multiset(statuses)[s] else 0 {
      FilterCount(statuses, p, s);
    }
    f
  }

  /** The samples of the last `hours` hours, ordered by time. */
  function TrendWindow(statuses: seq<StatusSample>, now: int, hours: int): (w: seq<StatusSample>)
    ensures Sorting.SortedBy(w, StatusTime)
    ensures forall i :: 0 <= i < |w| ==> w[i] in statuses && w[i].timestamp >= now - hours * 3600
    ensures forall i :: 0 <= i < |statuses| && statuses[i].timestamp >= now - hours * 3600 ==> statuses[i] in w
    // a reordering of the recent samples: each kept as often as it is stored
    ensures forall s :: multiset(w)[s] == if s.timestamp >= now - hours * 3600 then multiset(statuses)[s] else 0
  {
    var since := now - hours * 3600;
    var w := Sorting.Sort(RecentSamples(statuses, since), StatusTime);
    WindowMembers(statuses, since, w);
    w
  }

  /** A rearrangement of the recent samples holds exactly the recent samples,
      each as often as it is stored. */
  lemma WindowMembers(statuses: seq<StatusSample>, since: int, w: seq<StatusSample>)
    requires multiset(w) == multiset(RecentSamples(statuses, since))
    ensures forall i :: 0 <= i < |w| ==> w[i] in statuses && w[i].timestamp >= since
    ensures forall i :: 0 <= i < |statuses| && statuses[i].timestamp >= since ==> statuses[i] in w
    ensures forall s :: multiset(w)[s] == if s.timestamp >= since then multiset(statuses)[s] else 0
  {
    var f := RecentSamples(statuses, since);
    forall i | 0 <= i < |w| ensures w[i] in f {
      assert w[i] in multiset(w);
    }
    forall i | 0 <= i < |f| ensures f[i] in w {
      assert f[i] in multiset(f);
    }
  }

  /** Every entry of the grouped table is the reference entry of a
      qualifying bucket, and every qualifying bucket has an entry. */
  lemma GroupRows(w: seq<StatusSample>)
    ensures var rows := Group(w);
      && (forall i :: 0 <= i < |rows| ==>
            rows[i] == RefAcc(w, rows[i].time) && Qualifies(w, rows[i].time))
      && (forall t :: Qualifies(w, t) ==> exists i :: 0 <= i < |rows| && rows[i].time == t)
  {
    var rows := Group(w);
    forall i | 0 <= i < |rows|
      ensures rows[i] == RefAcc(w, rows[i].time) && Qualifies(w, rows[i].time)
    {
      AtMember(rows, i);
      assert HasTime(rows, rows[i].time);
    }
    forall t | Qualifies(w, t) ensures exists i :: 0 <= i < |rows| && rows[i].time == t {
      assert HasTime(rows, t);
      var i :| 0 <= i < |rows| && rows[i].time == t;
    }
  }

  /** The chart points for a time-ordered window: one per qualifying bucket,
      in ascending bucket order, each carrying the means of its bucket's
      counted readings. */
  function TrendPoints(w: seq<StatusSample>): (r: seq<TrendPoint>)
    ensures forall i, j :: 0 <= i < j < |r| ==> r[i].time < r[j].time
    ensures forall i :: 0 <= i < |r| ==> Qualifies(w, r[i].time)
    ensures forall t :: Qualifies(w, t) ==> exists i :: 0 <= i < |r| && r[i].time == t
    ensures forall i :: 0 <= i < |r| ==>
      && r[i].cpu == Mean(Readings(w, r[i].time, Cpu))
      && r[i].memory == Mean(Readings(w, r[i].time, Memory))
      && r[i].disk == Mean(Readings(w, r[i].time, Disk))
  {
    var rows := Group(w);
    var r := Points(rows);
    GroupRows(w);
    forall i | 0 <= i < |r|
      ensures r[i].time == rows[i].time
      ensures Qualifies(w, r[i].time)
      ensures r[i].cpu == Mean(Readings(w, r[i].time, Cpu))
      ensures r[i].memory == Mean(Readings(w, r[i].time, Memory))
      ensures r[i].disk == Mean(Readings(w, r[i].time, Disk))
    {
    }
    forall t | Qualifies(w, t) ensures exists i :: 0 <= i < |r| && r[i].time == t {
      var i :| 0 <= i < |rows| && rows[i].time == t;
      assert r[i].time == t;
    }
    r
  }

  /** Sample `s` is in the window starting at `since`, lies in bucket `t`
      and has a counted metric. */
  predicate Feeds(s: StatusSample, since: int, t: int) {
    s.timestamp >= since && Bucket(s.timestamp) == t && Contributes(s)
  }

  /** The `/api/trends` response at time `now`: one point per bucket fed by a
      sample of the last `hours` hours, in time order, each holding the mean
      readings of that bucket. */
  function GetTrends(statuses: seq<StatusSample>, now: int, hours: int): (r: seq<TrendPoint>)
    ensures forall i, j :: 0 <= i < j < |r| ==> r[i].time < r[j].time
    ensures forall i :: 0 <= i < |r| ==>
      exists j :: 0 <= j < |statuses| && Feeds(statuses[j], now - hours * 3600, r[i].time)
    ensures forall j :: 0 <= j < |statuses| && Feeds(statuses[j], now - hours * 3600, Bucket(statuses[j].timestamp)) ==>
      exists i :: 0 <= i < |r| && r[i].time == Bucket(statuses[j].timestamp)
    ensures forall i :: 0 <= i < |r| ==>
      && r[i].cpu == Mean(Readings(TrendWindow(statuses, now, hours), r[i].time, Cpu))
      && r[i].memory == Mean(Readings(TrendWindow(statuses, now, hours), r[i].time, Memory))
      && r[i].disk == Mean(Readings(TrendWindow(statuses, now, hours), r[i].time, Disk))
  {
    var r := TrendPoints(TrendWindow(statuses, now, hours));
    TrendsAreFed(statuses, now, hours, r);
    TrendsCoverWindow(statuses, now, hours, r);
    r
  }

  lemma TrendsAreFed(statuses: seq<StatusSample>, now: int, hours: int, r: seq<TrendPoint>)
    requires r == TrendPoints(TrendWindow(statuses, now, hours))
    ensures forall i :: 0 <= i < |r| ==>
      exists j :: 0 <= j < |statuses| && Feeds(statuses[j], now - hours * 3600, r[i].time)
  {
    var w := TrendWindow(statuses, now, hours);
    forall i | 0 <= i < |r| ensures exists j :: 0 <= j < |statuses| && Feeds(statuses[j], now - hours * 3600, r[i].time) {
      FedFromWindow(statuses, w, now - hours * 3600, r[i].time);
    }
  }

  /** A bucket that qualifies in a window drawn from `statuses` is fed by one
      of the stored samples. */
  lemma FedFromWindow(statuses: seq<StatusSample>, w: seq<StatusSample>, since: int, t: int)
    requires forall i :: 0 <= i < |w| ==> w[i] in statuses && w[i].timestamp >= since
    requires Qualifies(w, t)
    ensures exists j :: 0 <= j < |statuses| && Feeds(statuses[j], since, t)
  {
    QualifiesMeans(w, t);
    var k :| 0 <= k < |w| && Bucket(w[k].timestamp) == t && Contributes(w[k]);
    var j :| 0 <= j < |statuses| && statuses[j] == w[k];
  }

  lemma TrendsCoverWindow(statuses: seq<StatusSample>, now: int, hours: int, r: seq<TrendPoint>)
    requires r == TrendPoints(TrendWindow(statuses, now, hours))
    ensures forall j :: 0 <= j < |statuses| && Feeds(statuses[j], now - hours * 3600, Bucket(statuses[j].timestamp)) ==>
      exists i :: 0 <= i < |r| && r[i].time == Bucket(statuses[j].timestamp)
  {
    var w := TrendWindow(statuses, now, hours);
    forall j | 0 <= j < |statuses| && Feeds(statuses[j], now - hours * 3600, Bucket(statuses[j].timestamp))
      ensures exists i :: 0 <= i < |r| && r[i].time == Bucket(statuses[j].timestamp)
    {
      var k :| 0 <= k < |w| && w[k] == statuses[j];
      QualifiesMeans(w, Bucket(statuses[j].timestamp));
    }
  }
}
