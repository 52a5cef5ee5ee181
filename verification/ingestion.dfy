/** The two report endpoints agents call: `POST /api/report/status` and
    `POST /api/report/error`. Both authenticate by credential; only the
    status path counts as a sign of life. */
module Ingestion {
  import opened Base
  import opened Model
  import Sorting

  /** The numeric part of a status report: every field may be omitted. */
  datatype ReportedMetrics = ReportedMetrics(
    cpuPercent: Option<real>,
    memoryPercent: Option<real>,
    memoryTotal: Option<real>,
    memoryUsed: Option<real>,
    diskPercent: Option<real>,
    diskTotal: Option<real>,
    diskUsed: Option<real>,
    uploadSpeed: Option<real>,
    downloadSpeed: Option<real>,
    contextTokens: Option<int>,
    totalTokens: Option<int>)

  datatype StatusReport = StatusReport(
    apiKey: string,
    info: RuntimeInfo,
    metrics: ReportedMetrics,
    publicIp: Option<string>)

  datatype ErrorReport = ErrorReport(
    apiKey: string,
    level: Option<string>,
    message: string,
    source: Option<string>,
    stackTrace: Option<string>)

  const DefaultLevel := "error"

  /** The stored metrics: `value or 0` for every field. A missing value and a
      reported zero both become zero; any other value is kept. */
  function Defaulted(m: ReportedMetrics): (r: Metrics)
    ensures r.cpuPercent == (if m.cpuPercent.Some? then m.cpuPercent.value else 0.0)
    ensures r.memoryPercent == (if m.memoryPercent.Some? then m.memoryPercent.value else 0.0)
    ensures r.memoryTotal == (if m.memoryTotal.Some? then m.memoryTotal.value else 0.0)
    ensures r.memoryUsed == (if m.memoryUsed.Some? then m.memoryUsed.value else 0.0)
    ensures r.diskPercent == (if m.diskPercent.Some? then m.diskPercent.value else 0.0)
    ensures r.diskTotal == (if m.diskTotal.Some? then m.diskTotal.value else 0.0)
    ensures r.diskUsed == (if m.diskUsed.Some? then m.diskUsed.value else 0.0)
    ensures r.uploadSpeed == (if m.uploadSpeed.Some? then m.uploadSpeed.value else 0.0)
    ensures r.downloadSpeed == (if m.downloadSpeed.Some? then m.downloadSpeed.value else 0.0)
    ensures r.contextTokens == (if m.contextTokens.Some? then m.contextTokens.value else 0)
    ensures r.totalTokens == (if m.totalTokens.Some? then m.totalTokens.value else 0)
  {
    Metrics(
      m.cpuPercent.GetOr(0.0), m.memoryPercent.GetOr(0.0),
      m.memoryTotal.GetOr(0.0), m.memoryUsed.GetOr(0.0),
      m.diskPercent.GetOr(0.0), m.diskTotal.GetOr(0.0), m.diskUsed.GetOr(0.0),
      m.uploadSpeed.GetOr(0.0), m.downloadSpeed.GetOr(0.0),
      m.contextTokens.GetOr(0), m.totalTokens.GetOr(0))
  }

  /** A report that carries every metric. */
  function Reported(m: Metrics): ReportedMetrics {
    ReportedMetrics(
      Some(m.cpuPercent), Some(m.memoryPercent), Some(m.memoryTotal), Some(m.memoryUsed),
      Some(m.diskPercent), Some(m.diskTotal), Some(m.diskUsed),
      Some(m.uploadSpeed), Some(m.downloadSpeed), Some(m.contextTokens), Some(m.totalTokens))
  }

  const NoMetrics := ReportedMetrics(None, None, None, None, None, None, None, None, None, None, None)

  /** Round trip: a report that carries every metric is stored verbatim. */
  lemma StoredAsReported(m: Metrics)
    ensures Defaulted(Reported(m)) == m
  {
  }

  /** A report that carries no metric is stored as all zeros. */
  lemma AbsentIsZero()
    ensures Defaulted(NoMetrics) == ZeroMetrics
  {
  }

  /** The registry side of an accepted status report: online now, seen now,
      and the public address replaced only by a non-empty one. */
  function MarkSeen(d: Device, publicIp: Option<string>, now: int): (r: Device)
    ensures r.isOnline && r.lastSeen == Some(now)
    ensures r.publicIp == (if publicIp.Some? && publicIp.value != "" then publicIp else d.publicIp)
    ensures r.(isOnline := d.isOnline, lastSeen := d.lastSeen, publicIp := d.publicIp) == d
  {
    d.(isOnline := true, lastSeen := Some(now),
       publicIp := if publicIp.Some? && publicIp.value != "" then publicIp else d.publicIp)
  }

  /** `POST /api/report/status` at time `now`. */
  function ReportStatus(st: Store, rep: StatusReport, now: int): (r: Result<Store, ApiError>)
    ensures r.Err? <==> !HasKey(st.devices, rep.apiKey)
    ensures r.Err? ==> r.error == Unauthorized
    ensures r.Ok? ==>
      var i := FindByKey(st.devices, rep.apiKey).value;
      var d := st.devices[i];
      && |r.value.devices| == |st.devices|
      && (forall j :: 0 <= j < |st.devices| && j != i ==> r.value.devices[j] == st.devices[j])
      && r.value.devices[i] == MarkSeen(d, rep.publicIp, now)
      && r.value.statuses == st.statuses + [StatusSample(d.id, now, rep.info, Defaulted(rep.metrics))]
      && r.value.errors == st.errors
    ensures r.Ok? && Valid(st) ==> Valid(r.value)
  {
    match FindByKey(st.devices, rep.apiKey)
    case None => Err(Unauthorized)
    case Some(i) =>
      var d := st.devices[i];
      var sample := StatusSample(d.id, now, rep.info, Defaulted(rep.metrics));
      Ok(Store(st.devices[i := MarkSeen(d, rep.publicIp, now)], st.statuses + [sample], st.errors))
  }

  /** `POST /api/report/error` at time `now`: an append to the error log and
      nothing else. The message is stored as sent; the level defaults to
      "error" when omitted. */
  function ReportError(st: Store, rep: ErrorReport, now: int): (r: Result<Store, ApiError>)
    ensures r.Err? <==> !HasKey(st.devices, rep.apiKey)
    ensures r.Err? ==> r.error == Unauthorized
    ensures r.Ok? ==>
      var d := st.devices[FindByKey(st.devices, rep.apiKey).value];
      && r.value.devices == st.devices
      && r.value.statuses == st.statuses
      && |r.value.errors| == |st.errors| + 1
      && r.value.errors[..|st.errors|] == st.errors
      && r.value.errors[|st.errors|].deviceId == d.id
      && r.value.errors[|st.errors|].timestamp == now
      && r.value.errors[|st.errors|].level == (if rep.level.Some? then rep.level.value else DefaultLevel)
      && r.value.errors[|st.errors|].message == rep.message
      && r.value.errors[|st.errors|].source == rep.source
      && r.value.errors[|st.errors|].stackTrace == rep.stackTrace
    ensures r.Ok? && Valid(st) ==> Valid(r.value)
  {
    match FindByKey(st.devices, rep.apiKey)
    case None => Err(Unauthorized)
    case Some(i) =>
      var e := ErrorSample(st.devices[i].id, now, rep.level.GetOr(DefaultLevel), rep.message, rep.source, rep.stackTrace);
      Ok(st.(errors := st.errors + [e]))
  }

  /** With a clock that never runs backwards, the status table stays in
      timestamp order, so its insertion order is its timestamp order. */
  lemma ReportKeepsChronological(st: Store, rep: StatusReport, now: int)
    requires Sorting.SortedBy(st.statuses, StatusTime)
    requires forall i :: 0 <= i < |st.statuses| ==> st.statuses[i].timestamp <= now
    ensures ReportStatus(st, rep, now).Ok? ==>
      Sorting.SortedBy(ReportStatus(st, rep, now).value.statuses, StatusTime)
  {
  }
}
