/** Whole-system walks through the model: an agent registered, reporting and
    logging, as the server sees it. */
module Scenarios {
  import opened Base
  import opened Model
  import Hex
  import Registry
  import Ingestion
  import Liveness
  import Stats
  import Trends
  import AgentLog
  import PyText

  const Hour := 3600

  /** A status report carrying only CPU load and the token counter. */
  function CpuReport(key: string, cpu: real, tokens: int): Ingestion.StatusReport {
    var m := Ingestion.NoMetrics.(cpuPercent := Some(cpu), totalTokens := Some(tokens));
    Ingestion.StatusReport(key, RuntimeInfo(None, None, None, None, None), m, None)
  }

  /** Register a device with a generated key, report once, and the stats show
      one device online, the reported counter as the watermark and as today's
      figure, and the reported load in the device's row. */
  lemma RegisterReportAndRead(entropy: seq<Hex.Byte>, t0: int, t1: int)
    requires |entropy| == Hex.KeyBytes && t0 <= t1
    ensures var created := Registry.CreateDevice(EmptyStore, Registry.DeviceCreate("gw", None, None, None, None), entropy, t0);
      && created.Ok?
      && created.value.1.id == 1
      && |created.value.1.apiKey| == 64
      && var key := created.value.1.apiKey;
         var reported := Ingestion.ReportStatus(created.value.0, CpuReport(key, 42.0, 500), t1);
         && reported.Ok?
         && var stats := Stats.GetStats(reported.value, t1);
            && stats.totalDevices == 1 && stats.onlineDevices == 1 && stats.offlineDevices == 0
            && stats.totalTokens == 500 && stats.todayTokens == 500 && stats.yesterdayTokens == 0
            && stats.devices[0].cpuPercent == 42.0 && stats.devices[0].totalTokens == 500
  {
    var req := Registry.DeviceCreate("gw", None, None, None, None);
    var created := Registry.CreateDevice(EmptyStore, req, entropy, t0);
    var st1, d := created.value.0, created.value.1;
    var rep := CpuReport(d.apiKey, 42.0, 500);
    assert FindByKey(st1.devices, d.apiKey) == Some(0);
    var st2 := Ingestion.ReportStatus(st1, rep, t1).value;
    var s := st2.statuses[0];
    assert st2.statuses == [s] && s.metrics.totalTokens == 500 && s.timestamp == t1;
    assert Stats.TodaySamples(st2.statuses, t1) == [s];
    assert Stats.YesterdaySamples(st2.statuses, t1) == [];
    assert CountOnline(st2.devices) == 1;
    assert Stats.LastIndexOf(st2.statuses, d.id) == Some(0);
  }

  /** A flagged gateway log line reaches the error log as one entry with
      level "error", source "gateway.log" and the stripped line as its
      message, and does not count as a sign of life. */
  lemma LogLineReachesServer(st: Store, key: string, line: string, now: int)
    requires HasKey(st.devices, key) && AgentLog.IsErrorLine(line)
    ensures var sent := AgentLog.Payloads(key, [line]);
      && |sent| == 1
      && var r := Ingestion.ReportError(st, AgentLog.AsReport(sent[0]), now);
         && r.Ok? && r.value.devices == st.devices && r.value.statuses == st.statuses
         && |r.value.errors| == |st.errors| + 1
         && r.value.errors[|st.errors|].level == "error"
         && r.value.errors[|st.errors|].source == Some("gateway.log")
         && r.value.errors[|st.errors|].message == AgentLog.Message(line)
  {
    assert [line][..0] == [];
  }

  /** The SQLite id rule reuses the largest id once it is deleted: a device
      created after deleting the newest one takes its id and, in the device
      list, inherits the samples the deleted device left behind. */
  lemma DeletedIdIsReused(entropyA: seq<Hex.Byte>, entropyB: seq<Hex.Byte>, t: int)
    requires |entropyA| == Hex.KeyBytes && |entropyB| == Hex.KeyBytes
    ensures var a := Registry.CreateDevice(EmptyStore, Registry.DeviceCreate("a", None, Some("ka"), None, None), entropyA, t);
      && a.Ok? && a.value.1.id == 1
      && var r := Ingestion.ReportStatus(a.value.0, CpuReport("ka", 7.0, 70), t);
         && r.Ok?
         && var del := Registry.DeleteDevice(r.value, 1);
            && del.Ok? && |del.value.statuses| == 1
            && var b := Registry.CreateDevice(del.value, Registry.DeviceCreate("b", None, Some("kb"), None, None), entropyB, t);
               && b.Ok? && b.value.1.id == 1
               && Stats.DeviceList(b.value.0.devices, b.value.0.statuses)[0].cpuPercent == 7.0
  {
    var a := Registry.CreateDevice(EmptyStore, Registry.DeviceCreate("a", None, Some("ka"), None, None), entropyA, t);
    var st1 := a.value.0;
    assert FindByKey(st1.devices, "ka") == Some(0);
    var st2 := Ingestion.ReportStatus(st1, CpuReport("ka", 7.0, 70), t).value;
    assert FindById(st2.devices, 1) == Some(0);
    var st3 := Registry.DeleteDevice(st2, 1).value;
    assert st3.devices == [];
    var b := Registry.CreateDevice(st3, Registry.DeviceCreate("b", None, Some("kb"), None, None), entropyB, t);
    var st4 := b.value.0;
    assert st4.devices == [b.value.1];
    assert Stats.LastIndexOf(st4.statuses, 1) == Some(0);
  }

  /** Two samples today reading 100 and then 150 give 50 for today. */
  lemma TodayIsGrowth(a: StatusSample, b: StatusSample, now: int)
    requires Stats.DayStart(now) <= a.timestamp < b.timestamp
    requires a.metrics.totalTokens == 100 && b.metrics.totalTokens == 150
    ensures Stats.TodayTokens([a, b], now) == 50
  {
    var w := Stats.TodaySamples([a, b], now);
    assert [a, b][..1] == [a];
    assert w == [a, b];
    assert forall x :: Stats.IsEarliest(w, x) ==> x == a;
    assert forall y :: Stats.IsLatest(w, y) ==> y == b;
  }

  /** A single sample counts in full today, but the same lone sample counts
      for nothing once it belongs to yesterday. */
  lemma SingleSampleAsymmetry(s: StatusSample, today: int, tomorrow: int)
    requires Stats.DayStart(today) <= s.timestamp <= today
    requires tomorrow == today + Stats.DaySeconds
    ensures Stats.TodayTokens([s], today) == s.metrics.totalTokens
    ensures Stats.YesterdayTokens([s], tomorrow) == 0
  {
    assert Stats.TodaySamples([s], today) == [s];
  }

  /** 10:07:00 falls in the 10:05 bucket and 10:04:59 in the 10:00 one. */
  lemma BucketExamples()
    ensures Trends.Bucket(10 * Hour + 7 * 60) == 10 * Hour + 5 * 60
    ensures Trends.Bucket(10 * Hour + 4 * 60 + 59) == 10 * Hour
  {
  }

  /** A device heard from 299 s ago stays online at the sweep; one heard
      from 301 s ago goes offline. */
  lemma SweepThreshold(d: Device, t: int)
    requires d.isOnline
    ensures Liveness.SweepDevice(d.(lastSeen := Some(t - 299)), t).isOnline
    ensures !Liveness.SweepDevice(d.(lastSeen := Some(t - 301)), t).isOnline
  {
  }

  /** A line with "FAILED" in capitals is flagged; a quiet line is not. */
  lemma ClassifierExamples()
    ensures AgentLog.IsErrorLine("Upstream FAILED: timeout")
    ensures !AgentLog.IsErrorLine("ok")
  {
    assert PyText.OccursAt(PyText.Lower("Upstream FAILED: timeout"), AgentLog.Keywords[2], 9);
  }
}
