/** `GET /api/stats`: fleet counts, the token figures and the per-device
    summary, all recomputed from the store on every request. */
module Stats {
  import opened Base
  import opened Model
  import Sorting

  const DaySeconds := 86400

  /** Midnight UTC of the day containing `now`. */
  function DayStart(now: int): (r: int)
    ensures r % DaySeconds == 0 && r <= now < r + DaySeconds
  {
    now - now % DaySeconds
  }

  function Tokens(s: StatusSample): int {
    s.metrics.totalTokens
  }

  /** The global watermark: the largest `total_tokens` of any sample of any
      device, 0 for an empty table. */
  function TotalTokens(statuses: seq<StatusSample>): (r: int)
    ensures |statuses| == 0 ==> r == 0
    ensures forall i :: 0 <= i < |statuses| ==> Tokens(statuses[i]) <= r
    ensures |statuses| > 0 ==> exists i :: 0 <= i < |statuses| && r == Tokens(statuses[i])
  {
    if |statuses| == 0 then 0
    else if |statuses| == 1 then Tokens(statuses[0])
    else
      var rest := TotalTokens(statuses[1..]);
      assert forall i :: 1 <= i < |statuses| ==> statuses[i] == statuses[1..][i - 1];
      Max(Tokens(statuses[0]), rest)
  }

  /** Samples taken since midnight of the current day, in store order. */
  function TodaySamples(statuses: seq<StatusSample>, now: int): (r: seq<StatusSample>)
    ensures forall i :: 0 <= i < |r| ==> r[i] in statuses && r[i].timestamp >= DayStart(now)
    ensures forall i :: 0 <= i < |statuses| && statuses[i].timestamp >= DayStart(now) ==> statuses[i] in r
    // each of today's samples is kept as often as it is stored, the rest not at all
    ensures forall s :: multiset(r)[s] == if s.timestamp >= DayStart(now) then multiset(statuses)[s] else 0
  {
    var p := (s: StatusSample) => s.timestamp >= DayStart(now);
    var r := Filter(statuses, p);
    forall s ensures multiset(r)[s] == if s.timestamp >= DayStart(now) then multiset(statuses)[s] else 0 {
      FilterCount(statuses, p, s);
    }
    r
  }

  /** Samples taken on the previous day: `[midnight - 1 day, midnight)`. */
  function YesterdaySamples(statuses: seq<StatusSample>, now: int): (r: seq<StatusSample>)
    ensures forall i :: 0 <= i < |r| ==>
      r[i] in statuses && DayStart(now) - DaySeconds <= r[i].timestamp < DayStart(now)
    ensures forall i :: 0 <= i < |statuses| && DayStart(now) - DaySeconds <= statuses[i].timestamp < DayStart(now) ==>
      statuses[i] in r
    ensures forall s :: multiset(r)[s] == (if DayStart(now) - DaySeconds <= s.timestamp < DayStart(now)
                                           then multiset(statuses)[s] else 0)
  {
    var p := (s: StatusSample) => DayStart(now) - DaySeconds <= s.timestamp < DayStart(now);
    var r := Filter(statuses, p);
    forall s ensures multiset(r)[s] == if p(s) then multiset(statuses)[s] else 0 {
      FilterCount(statuses, p, s);
    }
    r
  }

  predicate IsEarliest(w: seq<StatusSample>, a: StatusSample) {
    a in w && forall i :: 0 <= i < |w| ==> a.timestamp <= w[i].timestamp
  }

  predicate IsLatest(w: seq<StatusSample>, b: StatusSample) {
    b in w && forall i :: 0 <= i < |w| ==> w[i].timestamp <= b.timestamp
  }

  /** The clamped growth of the counter over a window ordered by time. */
  function Growth(ordered: seq<StatusSample>): (r: int)
    requires |ordered| > 0
    ensures r >= 0
  {
    Max(0, Tokens(ordered[|ordered| - 1]) - Tokens(ordered[0]))
  }

  /** On two or more samples, the growth of the time-ordered window runs from
      an earliest to a latest sample of the window. */
  lemma GrowthSpansWindow(w: seq<StatusSample>)
    requires |w| >= 2
    ensures exists a, b ::
      IsEarliest(w, a) && IsLatest(w, b) && Growth(Sorting.Sort(w, StatusTime)) == Max(0, Tokens(b) - Tokens(a))
  {
    var o := Sorting.Sort(w, StatusTime);
    Sorting.SortExtremes(w, StatusTime);
    var a, b := o[0], o[|o| - 1];
    assert forall i :: 0 <= i < |w| ==> StatusTime(a) <= StatusTime(w[i]) <= StatusTime(b);
    assert IsEarliest(w, a);
    assert IsLatest(w, b);
    assert Growth(o) == Max(0, Tokens(b) - Tokens(a));
  }

  /** Today's rule over a window of samples: ordered by time, nothing gives
      0, a single sample gives its own counter, more give the clamped growth
      from an earliest to a latest sample. */
  function TodayRule(w: seq<StatusSample>): (r: int)
    ensures |w| == 0 ==> r == 0
    ensures |w| == 1 ==> r == Tokens(w[0])
    ensures |w| >= 2 ==> exists a, b :: IsEarliest(w, a) && IsLatest(w, b) && r == Max(0, Tokens(b) - Tokens(a))
    ensures (forall i :: 0 <= i < |w| ==> Tokens(w[i]) >= 0) ==> r >= 0
  {
    if |w| >= 2 then
      GrowthSpansWindow(w);
      Growth(Sorting.Sort(w, StatusTime))
    else if |w| == 1 then Tokens(w[0])
    else 0
  }

  /** Yesterday's rule: as today's, except that a single sample gives 0. */
  function YesterdayRule(w: seq<StatusSample>): (r: int)
    ensures r >= 0
    ensures |w| < 2 ==> r == 0
    ensures |w| >= 2 ==> exists a, b :: IsEarliest(w, a) && IsLatest(w, b) && r == Max(0, Tokens(b) - Tokens(a))
  {
    if |w| >= 2 then
      GrowthSpansWindow(w);
      Growth(Sorting.Sort(w, StatusTime))
    else 0
  }

  /** `today_tokens`: today's rule over the samples since midnight. It is
      non-negative whenever no client reported a negative counter. */
  function TodayTokens(statuses: seq<StatusSample>, now: int): (r: int)
    ensures r == TodayRule(TodaySamples(statuses, now))
    ensures (forall i :: 0 <= i < |statuses| ==> Tokens(statuses[i]) >= 0) ==> r >= 0
  {
    var w := TodaySamples(statuses, now);
    assert (forall i :: 0 <= i < |statuses| ==> Tokens(statuses[i]) >= 0) ==>
           (forall i :: 0 <= i < |w| ==> Tokens(w[i]) >= 0) by {
      forall i | 0 <= i < |w| ensures w[i] in statuses { }
    }
    TodayRule(w)
  }

  /** `yesterday_tokens`: yesterday's rule over the previous day's samples. */
  function YesterdayTokens(statuses: seq<StatusSample>, now: int): (r: int)
    ensures r >= 0
    ensures r == YesterdayRule(YesterdaySamples(statuses, now))
  {
    YesterdayRule(YesterdaySamples(statuses, now))
  }

  /** `s` is the last sample of device `id` in store order. */
  predicate IsLastOf(statuses: seq<StatusSample>, id: int, j: int) {
    && 0 <= j < |statuses| && statuses[j].deviceId == id
    && forall k :: j < k < |statuses| ==> statuses[k].deviceId != id
  }

  /** The position of the most recently appended sample of device `id`. */
  function LastIndexOf(statuses: seq<StatusSample>, id: int): (r: Option<nat>)
    ensures r.Some? ==> IsLastOf(statuses, id, r.value)
    ensures r.None? <==> forall j :: 0 <= j < |statuses| ==> statuses[j].deviceId != id
  {
    if |statuses| == 0 then None
    else if statuses[|statuses| - 1].deviceId == id then Some(|statuses| - 1)
    else LastIndexOf(statuses[..|statuses| - 1], id)
  }

  /** One row of the stats response's device list. */
  datatype DeviceSummary = DeviceSummary(
    id: int,
    name: string,
    deviceType: string,
    publicIp: Option<string>,
    isOnline: bool,
    lastSeen: Option<int>,
    openclawVersion: Option<string>,
    cpuPercent: real,
    memoryPercent: real,
    memoryTotal: real,
    memoryUsed: real,
    diskPercent: real,
    diskTotal: real,
    diskUsed: real,
    uploadSpeed: real,
    downloadSpeed: real,
    totalTokens: int)

  /** The row shows the device's own fields. */
  predicate DescribesDevice(r: DeviceSummary, d: Device) {
    && r.id == d.id && r.name == d.name && r.deviceType == d.deviceType
    && r.publicIp == d.publicIp && r.isOnline == d.isOnline && r.lastSeen == d.lastSeen
  }

  /** The row's metrics are those of sample `s` (the context-token counter is
      not part of the row). */
  predicate ShowsSample(r: DeviceSummary, s: StatusSample) {
    && r.openclawVersion == s.info.openclawVersion
    && r.cpuPercent == s.metrics.cpuPercent && r.memoryPercent == s.metrics.memoryPercent
    && r.memoryTotal == s.metrics.memoryTotal && r.memoryUsed == s.metrics.memoryUsed
    && r.diskPercent == s.metrics.diskPercent && r.diskTotal == s.metrics.diskTotal
    && r.diskUsed == s.metrics.diskUsed
    && r.uploadSpeed == s.metrics.uploadSpeed && r.downloadSpeed == s.metrics.downloadSpeed
    && r.totalTokens == s.metrics.totalTokens
  }

  /** The row of a device that has never reported. */
  predicate ShowsNothing(r: DeviceSummary) {
    && r.openclawVersion == None
    && r.cpuPercent == 0.0 && r.memoryPercent == 0.0 && r.memoryTotal == 0.0 && r.memoryUsed == 0.0
    && r.diskPercent == 0.0 && r.diskTotal == 0.0 && r.diskUsed == 0.0
    && r.uploadSpeed == 0.0 && r.downloadSpeed == 0.0 && r.totalTokens == 0
  }

  function Summarize(d: Device, latest: Option<StatusSample>): DeviceSummary {
    match latest
    case None =>
      DeviceSummary(d.id, d.name, d.deviceType, d.publicIp, d.isOnline, d.lastSeen,
                    None, 0.0, 0.0, 0.0, 0.0, 0.0, 0.0, 0.0, 0.0, 0.0, 0)
    case Some(s) =>
      var m := s.metrics;
      DeviceSummary(d.id, d.name, d.deviceType, d.publicIp, d.isOnline, d.lastSeen,
                    s.info.openclawVersion, m.cpuPercent, m.memoryPercent, m.memoryTotal, m.memoryUsed,
                    m.diskPercent, m.diskTotal, m.diskUsed, m.uploadSpeed, m.downloadSpeed, m.totalTokens)
  }

  /** One row per device, in registry order, each with the metrics of that
      device's last appended sample, or zeros if it has none. */
  function DeviceList(devices: seq<Device>, statuses: seq<StatusSample>): (r: seq<DeviceSummary>)
    ensures |r| == |devices|
    ensures forall i :: 0 <= i < |r| ==> DescribesDevice(r[i], devices[i])
    ensures forall i :: 0 <= i < |r| ==>
      (exists j :: IsLastOf(statuses, devices[i].id, j) && ShowsSample(r[i], statuses[j]))
      || ((forall j :: 0 <= j < |statuses| ==> statuses[j].deviceId != devices[i].id) && ShowsNothing(r[i]))
  {
    seq(|devices|, i requires 0 <= i < |devices| =>
      match LastIndexOf(statuses, devices[i].id)
      case None => Summarize(devices[i], None)
      case Some(j) => Summarize(devices[i], Some(statuses[j])))
  }

  datatype FleetStats = FleetStats(
    totalDevices: nat,
    onlineDevices: nat,
    offlineDevices: int,
    todayTokens: int,
    yesterdayTokens: int,
    totalTokens: int,
    totalErrors: nat,
    devices: seq<DeviceSummary>)

  /** The whole `/api/stats` response at time `now`. */
  function GetStats(st: Store, now: int): (r: FleetStats)
    ensures r.totalDevices == |st.devices| == |r.devices|
    ensures r.onlineDevices <= r.totalDevices
    ensures r.offlineDevices == r.totalDevices - r.onlineDevices >= 0
    ensures r.onlineDevices == 0 <==> forall i :: 0 <= i < |st.devices| ==> !st.devices[i].isOnline
    ensures r.onlineDevices == |Filter(st.devices, IsOnline)|
    ensures r.totalErrors == |st.errors|
    ensures r.yesterdayTokens >= 0
    ensures |st.statuses| == 0 ==> r.totalTokens == 0 && r.todayTokens == 0 && r.yesterdayTokens == 0
  {
    var total := |st.devices|;
    var online := CountOnline(st.devices);
    CountOnlineIsFilter(st.devices);
    FleetStats(total, online, total - online,
               TodayTokens(st.statuses, now), YesterdayTokens(st.statuses, now),
               TotalTokens(st.statuses), |st.errors|, DeviceList(st.devices, st.statuses))
  }
}
